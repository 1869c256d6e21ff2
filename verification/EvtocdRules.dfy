/** Entries of the received frame VLAN tagging operation table (clause 9.3.13 of ITU-T G.988):
    sixteen octets, packed by performConfigEvtocdEntries with shifts and bitwise ors. */
module EvtocdRules {
  import opened Types
  import opened Bits

  // ---- the four words ----

  datatype Rule = Rule(
    filterOuterPrio: nat, filterOuterVid: nat, filterOuterTpid: nat,
    filterInnerPrio: nat, filterInnerVid: nat, filterInnerTpid: nat, filterEtherType: nat,
    tagsToRemove: nat, treatOuterPrio: nat, treatOuterVid: nat, treatOuterTpid: nat,
    treatInnerPrio: nat, treatInnerVid: nat, treatInnerTpid: nat)

  function FilterWord(prio: nat, vid: nat, tpid: nat, etherType: nat): nat {
    Or(Or(Or(Shl(prio, 28), Shl(vid, 15)), Shl(tpid, 12)), etherType)
  }

  function TreatWord(remove: nat, prio: nat, vid: nat, tpid: nat): nat {
    Or(Or(Or(Shl(remove, 30), Shl(prio, 16)), Shl(vid, 3)), tpid)
  }

  lemma FilterWordIsSum(prio: nat, vid: nat, tpid: nat, etherType: nat)
    requires prio < 0x10 && vid < 0x2000 && tpid < 0x8 && etherType < 0x1000
    ensures FilterWord(prio, vid, tpid, etherType) == prio * 0x1000_0000 + vid * 0x8000 + tpid * 0x1000 + etherType
  {
    Powers();
    hide Pow2, Or;
    OrAboveBits(prio, 28, vid * 0x8000);
    OrAboveBits(prio * 0x2000 + vid, 15, tpid * 0x1000);
    OrAboveBits(prio * 0x1_0000 + vid * 8 + tpid, 12, etherType);
  }

  /** The priority may be any octet: its upper half goes to unused bits. */
  lemma TreatWordIsSum(remove: nat, prio: nat, vid: nat, tpid: nat)
    requires remove < 0x4 && prio < 0x100 && vid < 0x2000 && tpid < 0x8
    ensures TreatWord(remove, prio, vid, tpid) == remove * 0x4000_0000 + prio * 0x1_0000 + vid * 0x8 + tpid
  {
    Powers();
    hide Pow2, Or;
    OrAboveBits(remove, 30, prio * 0x1_0000);
    OrAboveBits(remove * 0x4000 + prio, 16, vid * 0x8);
    OrAboveBits(remove * 0x800_0000 + prio * 0x2000 + vid, 3, tpid);
  }

  // ---- the sixteen octets ----

  function BigEndian(w: uint32): seq<uint8> {
    [w / 0x100_0000, w / 0x1_0000 % 0x100, w / 0x100 % 0x100, w % 0x100]
  }

  function Word(b: seq<uint8>, at: nat): uint32
    requires at + 4 <= |b|
  {
    b[at] as int * 0x100_0000 + b[at + 1] as int * 0x1_0000 + b[at + 2] as int * 0x100 + b[at + 3]
  }

  function Words(r: Rule): seq<nat> {
    [FilterWord(r.filterOuterPrio, r.filterOuterVid, r.filterOuterTpid, 0),
     FilterWord(r.filterInnerPrio, r.filterInnerVid, r.filterInnerTpid, r.filterEtherType),
     TreatWord(r.tagsToRemove, r.treatOuterPrio, r.treatOuterVid, r.treatOuterTpid),
     TreatWord(0, r.treatInnerPrio, r.treatInnerVid, r.treatInnerTpid)]
  }

  /** Every field the code writes fits its place, except that a priority may be any octet. */
  predicate Writable(r: Rule) {
    && r.filterOuterPrio < 0x10 && r.filterOuterVid < 0x2000 && r.filterOuterTpid < 8
    && r.filterInnerPrio < 0x10 && r.filterInnerVid < 0x2000 && r.filterInnerTpid < 8 && r.filterEtherType < 0x10
    && r.tagsToRemove < 4
    && r.treatOuterPrio < 0x100 && r.treatOuterVid < 0x2000 && r.treatOuterTpid < 8
    && r.treatInnerPrio < 0x100 && r.treatInnerVid < 0x2000 && r.treatInnerTpid < 8
  }

  lemma WordsFit(r: Rule)
    requires Writable(r)
    ensures forall i | 0 <= i < 4 :: Words(r)[i] < 0x1_0000_0000
  {
    FilterWordIsSum(r.filterOuterPrio, r.filterOuterVid, r.filterOuterTpid, 0);
    FilterWordIsSum(r.filterInnerPrio, r.filterInnerVid, r.filterInnerTpid, r.filterEtherType);
    TreatWordIsSum(r.tagsToRemove, r.treatOuterPrio, r.treatOuterVid, r.treatOuterTpid);
    TreatWordIsSum(0, r.treatInnerPrio, r.treatInnerVid, r.treatInnerTpid);
    hide FilterWord, TreatWord;
  }

  function Encode(r: Rule): (b: seq<uint8>)
    requires Writable(r)
    ensures |b| == 16
  {
    WordsFit(r);
    BigEndian(Words(r)[0]) + BigEndian(Words(r)[1]) + BigEndian(Words(r)[2]) + BigEndian(Words(r)[3])
  }

  datatype Decoded = Decoded(rule: Rule, unused: seq<nat>)

  /** `size` values starting at the bit of weight `unit`. */
  function Field(w: nat, unit: nat, size: nat): nat
    requires unit > 0 && size > 0
  {
    w / unit % size
  }

  /** The fields at the offsets of clause 9.3.13, and the unused bits between them. */
  function Decode(b: seq<uint8>): Decoded
    requires |b| == 16
  {
    var w0, w1, w2, w3 := Word(b, 0), Word(b, 4), Word(b, 8), Word(b, 12);
    Decoded(
      Rule(Field(w0, 0x1000_0000, 0x10), Field(w0, 0x8000, 0x2000), Field(w0, 0x1000, 8),
           Field(w1, 0x1000_0000, 0x10), Field(w1, 0x8000, 0x2000), Field(w1, 0x1000, 8), Field(w1, 1, 0x10),
           Field(w2, 0x4000_0000, 4), Field(w2, 0x1_0000, 0x10), Field(w2, 8, 0x2000), Field(w2, 1, 8),
           Field(w3, 0x1_0000, 0x10), Field(w3, 8, 0x2000), Field(w3, 1, 8)),
      [Field(w0, 1, 0x1000), Field(w1, 0x10, 0x100), Field(w2, 0x10_0000, 0x400), Field(w3, 0x10_0000, 0x1000)])
  }

  lemma BigEndianWord(w: uint32)
    ensures Word(BigEndian(w), 0) == w
  {
    var a, low := w / 0x100_0000, w % 0x100_0000;
    var b, lower := low / 0x1_0000, low % 0x1_0000;
    var c, d := lower / 0x100, lower % 0x100;
    Digit(w, 0x1_0000, a, b, c * 0x100 + d);
    Digit(w, 0x100, a * 0x100 + b, c, d);
    Digit(w, 1, (a * 0x100 + b) * 0x100 + c, d, 0);
  }

  /** The octet at the place of weight `unit`. */
  lemma Digit(w: nat, unit: nat, above: nat, x: nat, below: nat)
    requires below < unit && x < 0x100 && w == (above * 0x100 + x) * unit + below
    ensures w / unit % 0x100 == x
  {
    DivMod(above * 0x100 + x, unit, below);
    DivMod(above, 0x100, x);
  }

  lemma WordAt(a: seq<uint8>, b: seq<uint8>, c: seq<uint8>)
    requires |b| == 4
    ensures Word(a + b + c, |a|) == Word(b, 0)
  {
    assert forall i | 0 <= i < 4 :: (a + b + c)[|a| + i] == b[i];
  }

  lemma EncodedWords(r: Rule)
    requires Writable(r)
    ensures forall i | 0 <= i < 4 :: Word(Encode(r), 4 * i) == Words(r)[i]
  {
    WordsFit(r);
    hide Words, Word, BigEndian;
    var w := Words(r);
    var e0, e1, e2, e3 := BigEndian(w[0]), BigEndian(w[1]), BigEndian(w[2]), BigEndian(w[3]);
    var b := Encode(r);
    BigEndianWord(w[0]);
    BigEndianWord(w[1]);
    BigEndianWord(w[2]);
    BigEndianWord(w[3]);
    assert b == [] + e0 + (e1 + e2 + e3) == e0 + e1 + (e2 + e3) == (e0 + e1) + e2 + e3 == (e0 + e1 + e2) + e3 + [];
    WordAt([], e0, e1 + e2 + e3);
    WordAt(e0, e1, e2 + e3);
    WordAt(e0 + e1, e2, e3);
    WordAt(e0 + e1 + e2, e3, []);
  }

  /** A field with nothing but whole fields above and less than its unit below. */
  lemma FieldOf(w: nat, unit: nat, size: nat, above: nat, x: nat, below: nat)
    requires below < unit && x < size && w == (above * size + x) * unit + below
    ensures Field(w, unit, size) == x
  {
    DivMod(above * size + x, unit, below);
    DivMod(above, size, x);
  }

  lemma FilterFields(prio: nat, vid: nat, tpid: nat, etherType: nat)
    requires prio < 0x10 && vid < 0x2000 && tpid < 8 && etherType < 0x10
    ensures var w := FilterWord(prio, vid, tpid, etherType);
            && Field(w, 0x1000_0000, 0x10) == prio && Field(w, 0x8000, 0x2000) == vid && Field(w, 0x1000, 8) == tpid
            && Field(w, 1, 0x10) == etherType && Field(w, 0x10, 0x100) == 0 && Field(w, 1, 0x1000) == etherType
  {
    FilterWordIsSum(prio, vid, tpid, etherType);
    hide FilterWord, Field;
    var w := FilterWord(prio, vid, tpid, etherType);
    FieldOf(w, 0x1000_0000, 0x10, 0, prio, vid * 0x8000 + tpid * 0x1000 + etherType);
    FieldOf(w, 0x8000, 0x2000, prio, vid, tpid * 0x1000 + etherType);
    FieldOf(w, 0x1000, 8, prio * 0x2000 + vid, tpid, etherType);
    FieldOf(w, 0x10, 0x100, prio * 0x1_0000 + vid * 8 + tpid, 0, etherType);
    FieldOf(w, 1, 0x1000, prio * 0x1_0000 + vid * 8 + tpid, etherType, 0);
    FieldOf(w, 1, 0x10, (prio * 0x1_0000 + vid * 8 + tpid) * 0x100, etherType, 0);
  }

  /** For the first treatment word 0x400 values of unused bits, for the second the two bits above, too. */
  lemma TreatFields(remove: nat, prio: nat, vid: nat, tpid: nat)
    requires remove < 4 && prio < 0x100 && vid < 0x2000 && tpid < 8
    ensures var w := TreatWord(remove, prio, vid, tpid);
            && Field(w, 0x4000_0000, 4) == remove && Field(w, 0x1_0000, 0x10) == prio % 0x10
            && Field(w, 8, 0x2000) == vid && Field(w, 1, 8) == tpid
            && Field(w, 0x10_0000, 0x400) == prio / 0x10
            && Field(w, 0x10_0000, 0x1000) == remove * 0x400 + prio / 0x10
  {
    TreatWordIsSum(remove, prio, vid, tpid);
    var hi, lo := prio / 0x10, prio % 0x10;
    assert prio == hi * 0x10 + lo;
    hide TreatWord, Field;
    var w := TreatWord(remove, prio, vid, tpid);
    FieldOf(w, 0x4000_0000, 4, 0, remove, prio * 0x1_0000 + vid * 8 + tpid);
    FieldOf(w, 0x10_0000, 0x400, remove, hi, lo * 0x1_0000 + vid * 8 + tpid);
    FieldOf(w, 0x10_0000, 0x1000, 0, remove * 0x400 + hi, lo * 0x1_0000 + vid * 8 + tpid);
    FieldOf(w, 0x1_0000, 0x10, remove * 0x400 + hi, lo, vid * 8 + tpid);
    FieldOf(w, 8, 0x2000, remove * 0x4000 + prio, vid, tpid);
    FieldOf(w, 1, 8, (remove * 0x4000 + prio) * 0x2000 + vid, tpid, 0);
  }

  /** Decoding gives back what was encoded, but for the upper half of an oversized priority. */
  lemma DecodeEncode(r: Rule)
    requires Writable(r)
    ensures Decode(Encode(r)) ==
            Decoded(r.(treatOuterPrio := r.treatOuterPrio % 0x10, treatInnerPrio := r.treatInnerPrio % 0x10),
                    [0, 0, r.treatOuterPrio / 0x10, r.treatInnerPrio / 0x10])
  {
    EncodedWords(r);
    FilterFields(r.filterOuterPrio, r.filterOuterVid, r.filterOuterTpid, 0);
    FilterFields(r.filterInnerPrio, r.filterInnerVid, r.filterInnerTpid, r.filterEtherType);
    TreatFields(r.tagsToRemove, r.treatOuterPrio, r.treatOuterVid, r.treatOuterTpid);
    TreatFields(0, r.treatInnerPrio, r.treatInnerVid, r.treatInnerTpid);
    hide Word, FilterWord, TreatWord, Encode, Writable, Field;
    var b := Encode(r);
    assert Word(b, 4 * 0) == Words(r)[0] && Word(b, 4 * 1) == Words(r)[1];
    assert Word(b, 4 * 2) == Words(r)[2] && Word(b, 4 * 3) == Words(r)[3];
  }

  /** Nothing is lost and no unused bit is touched exactly when both priorities fit four bits. */
  lemma LosslessIff(r: Rule)
    requires Writable(r)
    ensures Decode(Encode(r)) == Decoded(r, [0, 0, 0, 0]) <==> r.treatOuterPrio < 0x10 && r.treatInnerPrio < 0x10
  {
    DecodeEncode(r);
    LowHalf(r.treatOuterPrio);
    LowHalf(r.treatInnerPrio);
    hide *;
  }

  lemma LowHalf(prio: nat)
    ensures prio < 0x10 <==> prio % 0x10 == prio && prio / 0x10 == 0
  {
  }

  /** binary.BigEndian.PutUint32(slice[at:], w). */
  method PutUint32(slice: array<uint8>, at: nat, w: uint32)
    requires at + 4 <= slice.Length
    modifies slice
    ensures slice[..] == old(slice[..at]) + BigEndian(w) + old(slice[at + 4..])
  {
    slice[at] := w / 0x100_0000;
    slice[at + 1] := w / 0x1_0000 % 0x100;
    slice[at + 2] := w / 0x100 % 0x100;
    slice[at + 3] := w % 0x100;
  }

  /** A fresh slice filled word by word. */
  method FillRule(r: Rule) returns (slice: array<uint8>)
    requires Writable(r)
    ensures fresh(slice) && slice[..] == Encode(r)
  {
    WordsFit(r);
    hide Words, BigEndian;
    slice := new uint8[16](_ => 0);
    PutUint32(slice, 0, Words(r)[0]);
    PutUint32(slice, 4, Words(r)[1]);
    PutUint32(slice, 8, Words(r)[2]);
    PutUint32(slice, 12, Words(r)[3]);
    assert slice[..] ==
           BigEndian(Words(r)[0]) + BigEndian(Words(r)[1]) + BigEndian(Words(r)[2]) + BigEndian(Words(r)[3]);
  }
}
