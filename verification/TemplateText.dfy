/** The texts inside a MIB template: replacing tokens, octets as base64, numbers as float64. */
module TemplateText {
  import opened Types

  // ---- strings.Replace(s, old, new, -1) ----

  function Replace(s: string, old_: string, new_: string): string
    requires old_ != ""
    decreases |s|
  {
    if |s| < |old_| then s
    else if s[..|old_|] == old_ then new_ + Replace(s[|old_|..], old_, new_)
    else [s[0]] + Replace(s[1..], old_, new_)
  }

  predicate OccursAt(s: string, t: string, i: nat) { i + |t| <= |s| && s[i..i + |t|] == t }

  predicate Lacks(s: string, t: string) { forall i: nat | i <= |s| :: !OccursAt(s, t, i) }

  lemma {:induction false} ReplaceAbsent(s: string, old_: string, new_: string)
    requires old_ != "" && Lacks(s, old_)
    ensures Replace(s, old_, new_) == s
    decreases |s|
  {
    if |s| >= |old_| {
      assert !OccursAt(s, old_, 0) && s[0..|old_|] == s[..|old_|];
      forall i: nat | i <= |s[1..]| ensures !OccursAt(s[1..], old_, i) {
        if OccursAt(s[1..], old_, i) {
          assert s[i + 1..i + 1 + |old_|] == s[1..][i..i + |old_|] && OccursAt(s, old_, i + 1);
        }
      }
      ReplaceAbsent(s[1..], old_, new_);
    }
  }

  lemma ReplaceWhole(t: string, new_: string)
    requires t != ""
    ensures Replace(t, t, new_) == new_
  {
    assert t[..|t|] == t && t[|t|..] == "";
  }

  /** Every occurrence is replaced, from left to right. */
  lemma {:induction false} ReplaceNext(a: string, old_: string, b: string, new_: string)
    requires old_ != "" && forall i | 0 <= i < |a| :: !OccursAt(a + old_ + b, old_, i)
    ensures Replace(a + old_ + b, old_, new_) == a + new_ + Replace(b, old_, new_)
    decreases |a|
  {
    var s := a + old_ + b;
    if a == "" {
      assert s[..|old_|] == old_ && s[|old_|..] == b;
    } else {
      var rest := a[1..];
      assert s[1..] == rest + old_ + b && s[0] == a[0];
      assert s[..|old_|] != old_ by { assert s[0..0 + |old_|] == s[..|old_|] && !OccursAt(s, old_, 0); }
      forall i | 0 <= i < |rest| ensures !OccursAt(rest + old_ + b, old_, i) {
        assert !OccursAt(s, old_, i + 1);
        assert i + |old_| <= |s[1..]| ==> s[1..][i..i + |old_|] == s[i + 1..i + 1 + |old_|];
      }
      ReplaceNext(rest, old_, b, new_);
      assert a + new_ + Replace(b, old_, new_) == [a[0]] + (rest + new_ + Replace(b, old_, new_));
    }
  }

  const SERIAL_TOKEN := "%SERIAL_NUMBER%"
  const MAC_TOKEN := "%MAC_ADDRESS%"

  /** Both replacements, the serial number first. */
  function Specialize(s: string, serial: string, mac: string): string {
    Replace(Replace(s, SERIAL_TOKEN, serial), MAC_TOKEN, mac)
  }

  predicate Plain(s: string) { Lacks(s, SERIAL_TOKEN) && Lacks(s, MAC_TOKEN) }

  lemma ShorterLacks(s: string, t: string)
    requires |s| < |t|
    ensures Lacks(s, t)
  {
  }

  lemma Absent(s: string, t: string, i: nat)
    requires t != "" && t[0] !in s
    ensures !OccursAt(s, t, i)
  {
    if i + |t| <= |s| { assert s[i..i + |t|][0] == s[i]; }
  }

  lemma WithoutPercent(s: string)
    requires '%' !in s
    ensures Plain(s)
  {
    forall i: nat | i <= |s| ensures !OccursAt(s, SERIAL_TOKEN, i) && !OccursAt(s, MAC_TOKEN, i) {
      Absent(s, SERIAL_TOKEN, i);
      Absent(s, MAC_TOKEN, i);
    }
  }

  /** The tokens become the ONU's values, and nothing else changes. */
  lemma SpecializeMeaning(serial: string, mac: string)
    requires Lacks(serial, MAC_TOKEN)
    ensures Specialize(SERIAL_TOKEN, serial, mac) == serial
    ensures Specialize(MAC_TOKEN, serial, mac) == mac
    ensures forall s | Plain(s) :: Specialize(s, serial, mac) == s
  {
    ReplaceWhole(SERIAL_TOKEN, serial);
    ReplaceAbsent(serial, MAC_TOKEN, mac);
    ShorterLacks(MAC_TOKEN, SERIAL_TOKEN);
    ReplaceAbsent(MAC_TOKEN, SERIAL_TOKEN, serial);
    ReplaceWhole(MAC_TOKEN, mac);
    forall s | Plain(s) ensures Specialize(s, serial, mac) == s {
      ReplaceAbsent(s, SERIAL_TOKEN, serial);
      ReplaceAbsent(s, MAC_TOKEN, mac);
    }
  }

  // ---- octets: JSON holds them as base64 ----

  function Sextet(n: nat): char
    requires n < 64
  {
    if n < 26 then (n + 'A' as nat) as char
    else if n < 52 then (n - 26 + 'a' as nat) as char
    else if n < 62 then (n - 52 + '0' as nat) as char
    else if n == 62 then '+' else '/'
  }

  function Base64(b: seq<uint8>): string
    decreases |b|
  {
    if |b| == 0 then ""
    else if |b| == 1 then [Sextet(b[0] / 4), Sextet(b[0] % 4 * 16), '=', '=']
    else if |b| == 2 then [Sextet(b[0] / 4), Sextet(b[0] % 4 * 16 + b[1] / 16), Sextet(b[1] % 16 * 4), '=']
    else
      [Sextet(b[0] / 4), Sextet(b[0] % 4 * 16 + b[1] / 16), Sextet(b[1] % 16 * 4 + b[2] / 64), Sextet(b[2] % 64)]
      + Base64(b[3..])
  }

  /** The value of a base64 character, section 4 of RFC 4648. */
  function ValueOf64(c: char): nat {
    if 'A' <= c <= 'Z' then c as nat - 'A' as nat
    else if 'a' <= c <= 'z' then 26 + c as nat - 'a' as nat
    else if '0' <= c <= '9' then 52 + c as nat - '0' as nat
    else if c == '+' then 62 else 63
  }

  /** Reading base64: four characters for three octets, '=' for those missing in the last group. */
  function FromBase64(s: string): seq<nat>
    decreases |s|
  {
    if |s| < 4 then []
    else
      var w, x, y, z := ValueOf64(s[0]), ValueOf64(s[1]), ValueOf64(s[2]), ValueOf64(s[3]);
      if s[2] == '=' then [4 * w + x / 16]
      else if s[3] == '=' then [4 * w + x / 16, x % 16 * 16 + y / 4]
      else [4 * w + x / 16, x % 16 * 16 + y / 4, y % 4 * 64 + z] + FromBase64(s[4..])
  }

  lemma SextetValue(n: nat)
    requires n < 64
    ensures ValueOf64(Sextet(n)) == n && Sextet(n) != '='
  {
  }

  lemma Sextets(a: uint8, b: uint8, c: uint8)
    ensures var w, x, y, z := a / 4, a % 4 * 16 + b / 16, b % 16 * 4 + c / 64, c % 64;
            && w < 64 && x < 64 && y < 64 && z < 64
            && 4 * w + x / 16 == a && x % 16 * 16 + y / 4 == b && y % 4 * 64 + z == c
  {
  }

  lemma ReadsGroup(w: nat, x: nat, y: nat, z: nat, s: string)
    requires w < 64 && x < 64 && y < 64 && z < 64
    ensures FromBase64([Sextet(w), Sextet(x), Sextet(y), Sextet(z)] + s) ==
            [4 * w + x / 16, x % 16 * 16 + y / 4, y % 4 * 64 + z] + FromBase64(s)
  {
    SextetValue(w);
    SextetValue(x);
    SextetValue(y);
    SextetValue(z);
    hide Sextet, ValueOf64;
    assert ([Sextet(w), Sextet(x), Sextet(y), Sextet(z)] + s)[4..] == s;
  }

  lemma ReadsRest(w: nat, x: nat, y: nat)
    requires w < 64 && x < 64 && y < 64
    ensures FromBase64([Sextet(w), Sextet(x), '=', '=']) == [4 * w + x / 16]
    ensures FromBase64([Sextet(w), Sextet(x), Sextet(y), '=']) == [4 * w + x / 16, x % 16 * 16 + y / 4]
  {
    SextetValue(w);
    SextetValue(x);
    SextetValue(y);
    hide Sextet, ValueOf64;
  }

  /** Base64 text reads back as the octets. */
  lemma {:induction false} Base64Reads(b: seq<uint8>)
    ensures FromBase64(Base64(b)) == b
    decreases |b|
  {
    hide Sextet, ValueOf64, FromBase64;
    if |b| > 0 {
      var b1, b2 := if |b| > 1 then b[1] else 0, if |b| > 2 then b[2] else 0;
      Sextets(b[0], b1, b2);
      ReadsRest(b[0] / 4, b[0] % 4 * 16 + b1 / 16, b1 % 16 * 4);
      if |b| > 2 {
        Base64Reads(b[3..]);
        ReadsGroup(b[0] / 4, b[0] % 4 * 16 + b1 / 16, b1 % 16 * 4 + b2 / 64, b2 % 64, Base64(b[3..]));
        assert b == [b[0], b[1], b[2]] + b[3..];
      } else {
        Sextets(b[0], b1, 0);
        assert |b| == 1 ==> b == [b[0]];
        assert |b| == 2 ==> b == [b[0], b[1]];
      }
    } else {
      assert FromBase64("") == [] by { EmptyReads(); }
    }
  }

  lemma EmptyReads()
    ensures FromBase64("") == []
  {
  }

  lemma SextetIsPlain(n: nat)
    requires n < 64
    ensures Sextet(n) != '%'
  {
  }

  lemma {:induction false} Base64IsPlain(b: seq<uint8>)
    ensures '%' !in Base64(b)
    decreases |b|
  {
    hide Sextet;
    forall n: nat | n < 64 ensures Sextet(n) != '%' { SextetIsPlain(n); }
    if |b| > 2 { Base64IsPlain(b[3..]); }
  }

  // ---- numbers: JSON brings them back as float64 ----

  const TWO53 := 0x20_0000_0000_0000

  /** How often a number has to be halved to fit the 53 bits of a float64 mantissa. */
  function Excess(n: nat): nat { if n < TWO53 then 0 else 1 + Excess(n / 2) }

  function TwoTo(e: nat): (r: nat)
    ensures r > 0
  {
    if e == 0 then 1 else 2 * TwoTo(e - 1)
  }

  /** n / unit, rounded to the nearest number, ties to even. */
  function Rounded(n: nat, unit: nat): nat
    requires unit > 0
  {
    var q, r := n / unit, n % unit;
    if 2 * r > unit || (2 * r == unit && q % 2 == 1) then q + 1 else q
  }

  /** The nearest float64, ties to even. */
  function Float64(n: nat): real {
    var unit := TwoTo(Excess(n));
    (Rounded(n, unit) * unit) as real
  }

  lemma {:induction false} ExcessFits(n: nat)
    ensures var e := Excess(n);
            n < TwoTo(e) * 0x20_0000_0000_0000 && (e > 0 ==> TwoTo(e) * 0x10_0000_0000_0000 <= n)
  {
    if n >= TWO53 {
      ExcessFits(n / 2);
      var t := TwoTo(Excess(n / 2));
      assert TwoTo(Excess(n)) == 2 * t;
    }
  }

  /** q times unit is the nearest multiple of unit to n, and of two equally near the even one. */
  predicate Nearest(n: nat, q: nat, unit: nat) {
    && 2 * (q * unit - n) <= unit && 2 * (n - q * unit) <= unit
    && (2 * (q * unit - n) == unit || 2 * (n - q * unit) == unit ==> q % 2 == 0)
  }

  lemma RoundedIsNearest(n: nat, unit: nat)
    requires unit > 0
    ensures Nearest(n, Rounded(n, unit), unit) && n / unit <= Rounded(n, unit) <= n / unit + 1
  {
    var k, r, q := n / unit, n % unit, Rounded(n, unit);
    assert n == k * unit + r;
    if q == k + 1 { assert q * unit == k * unit + unit; }
  }

  /** Any number becomes the nearest one with a mantissa of 53 bits, and of two equally near the even one. */
  lemma Float64IsNearest(n: nat)
    ensures var e := Excess(n);
            var q := Rounded(n, TwoTo(e));
            && Float64(n) == (q * TwoTo(e)) as real && Nearest(n, q, TwoTo(e))
            && q <= 0x20_0000_0000_0000 && (e > 0 ==> 0x10_0000_0000_0000 <= q)
  {
    var e := Excess(n);
    var unit := TwoTo(e);
    ExcessFits(n);
    hide Excess, TwoTo, Rounded, Nearest;
    RoundedIsNearest(n, unit);
    KBounds(n, unit, n / unit, n % unit, 0x20_0000_0000_0000, 0x10_0000_0000_0000);
  }

  lemma KBounds(n: nat, unit: nat, k: nat, r: nat, high: nat, low: nat)
    requires n == k * unit + r && r < unit && n < unit * high
    ensures k < high && (unit * low <= n ==> low <= k)
  {
    if k >= high { Times(k, high, unit); }
    if k < low { Times(low, k + 1, unit); }
  }

  lemma Times(a: nat, b: nat, unit: nat)
    requires a >= b
    ensures a * unit >= b * unit
  {
  }

  lemma ExactBelowTwo53(n: nat)
    requires n < TWO53
    ensures Float64(n) == n as real
  {
    assert TwoTo(0) == 1 && n / 1 == n && n % 1 == 0;
  }
}
