/** What the iteration order of the gem port map decides: Go leaves it open, and the loop over the
    map builds the records, the p-bit table and the policies from it. */
module AniOrder {
  import opened Types
  import opened MeDb
  import opened QueueLookup
  import opened TechProfile
  import opened AniTables
  import opened AniPolicy

  // ---- orders of a map ----

  function Mapped<X, Y>(xs: seq<X>, f: X -> Y): seq<Y> { seq(|xs|, i requires 0 <= i < |xs| => f(xs[i])) }

  lemma Without<X>(xs: seq<X>, i: nat) returns (rest: seq<X>)
    requires i < |xs|
    ensures rest == xs[..i] + xs[i + 1..] && multiset(rest) == multiset(xs) - multiset{xs[i]}
    ensures multiset(xs) == multiset(rest) + multiset{xs[i]}
  {
    rest := xs[..i] + xs[i + 1..];
    assert xs == xs[..i] + [xs[i]] + xs[i + 1..];
  }

  lemma MappedWithout<X, Y>(xs: seq<X>, i: nat, f: X -> Y)
    requires i < |xs|
    ensures var rest := xs[..i] + xs[i + 1..];
            multiset(Mapped(xs, f)) == multiset(Mapped(rest, f)) + multiset{f(xs[i])}
  {
    var image := Without(Mapped(xs, f), i);
    assert image == Mapped(xs[..i] + xs[i + 1..], f);
  }

  /** Permuted lists stay permuted when a function is applied to each element. */
  lemma {:induction false} MappedPermuted<X, Y>(xs: seq<X>, ys: seq<X>, f: X -> Y)
    requires multiset(xs) == multiset(ys)
    ensures multiset(Mapped(xs, f)) == multiset(Mapped(ys, f))
    decreases |xs|
  {
    hide Mapped;
    if xs == [] {
      assert multiset(ys) == multiset{};
      assert ys == xs;
    } else {
      assert xs[0] in multiset(ys);
      var i :| 0 <= i < |ys| && ys[i] == xs[0];
      var tail := Without(xs, 0);
      var rest := Without(ys, i);
      MappedPermuted(tail, rest, f);
      MappedWithout(xs, 0, f);
      MappedWithout(ys, i, f);
    }
  }

  lemma {:induction false} SameSetPermuted(xs: seq<uint16>, ys: seq<uint16>)
    requires Distinct(xs) && Distinct(ys) && Elems(xs) == Elems(ys)
    ensures multiset(xs) == multiset(ys)
  {
    forall k: uint16 ensures multiset(xs)[k] == multiset(ys)[k] {
      OnceEach(xs, k);
      OnceEach(ys, k);
      assert k in xs <==> k in Elems(xs);
      assert k in ys <==> k in Elems(ys);
    }
  }

  lemma {:induction false} OnceEach(xs: seq<uint16>, k: uint16)
    requires Distinct(xs)
    ensures multiset(xs)[k] == if k in xs then 1 else 0
  {
    if xs != [] {
      assert xs == [xs[0]] + xs[1..];
      OnceEach(xs[1..], k);
    }
  }

  lemma {:induction false} SomeOrder(keys: set<uint16>) returns (order: seq<uint16>)
    ensures Distinct(order) && Elems(order) == keys
  {
    if keys == {} {
      order := [];
    } else {
      var k :| k in keys;
      order := SomeOrder(keys - {k});
      assert k !in Elems(order);
      assert Elems(order + [k]) == Elems(order) + {k};
      order := order + [k];
    }
  }

  /** Any two gem ports can come first, either way round. */
  lemma BothWays(params: map<uint16, GemPort>, a: uint16, b: uint16) returns (rest: seq<uint16>)
    requires a in params && b in params && a != b
    ensures IsOrder([a, b] + rest, params) && IsOrder([b, a] + rest, params)
  {
    rest := SomeOrder(params.Keys - {a, b});
    assert a !in Elems(rest) && b !in Elems(rest);
    assert forall k | k in Elems(rest) :: k in params;
    assert Elems([a, b] + rest) == Elems(rest) + {a, b} == Elems([b, a] + rest);
  }

  lemma InFront(params: map<uint16, GemPort>, a: uint16) returns (order: seq<uint16>)
    requires a in params
    ensures IsOrder(order, params) && order != [] && order[0] == a
  {
    var rest := SomeOrder(params.Keys - {a});
    assert a !in Elems(rest);
    assert forall k | k in Elems(rest) :: k in params;
    order := [a] + rest;
    assert Elems(order) == Elems(rest) + {a};
  }

  // ---- the records ----

  function Records(m: Mib, params: map<uint16, GemPort>, order: seq<uint16>): seq<GemAttribs>
    requires forall k | k in order :: k in params
  {
    Collected(m, Values(order, params))
  }

  ghost predicate RecordsOrderFree(m: Mib, params: map<uint16, GemPort>) {
    forall o1, o2 | IsOrder(o1, params) && IsOrder(o2, params) ::
      multiset(Records(m, params, o1)) == multiset(Records(m, params, o2))
  }

  function FoundQueue(m: Mib, g: GemPort, upward: bool): Option<uint16> {
    if upward then Found(m, g).up else Found(m, g).down
  }

  function QueueOf(a: GemAttribs, upward: bool): uint16 { if upward then a.upQueueID else a.downQueueID }

  function Queue(upward: bool): GemAttribs -> uint16 { (a: GemAttribs) => QueueOf(a, upward) }

  /** Every gem port has a queue in the MIB, or none has one that could be inherited. */
  predicate Fixed(m: Mib, gems: set<GemPort>, upward: bool) {
    || (forall g | g in gems :: FoundQueue(m, g, upward).Some?)
    || (forall g | g in gems :: OrZero(FoundQueue(m, g, upward)) == 0)
  }

  /** The record of a gem port that inherits nothing. */
  function Settled(m: Mib): GemPort -> GemAttribs { (g: GemPort) => Round(m, NO_ATTRIBS, g) }

  /** What a record owes to its gem port alone, and which queue it has when the queues are fixed. */
  lemma {:induction false} RecordFields(m: Mib, gems: seq<GemPort>, all: set<GemPort>, upward: bool, j: nat)
    requires j < |gems| && forall g | g in gems :: g in all
    ensures var slice, own := Collected(m, gems), Settled(m)(gems[j]);
            && |slice| == |gems|
            && slice[j].(upQueueID := 0, downQueueID := 0) == own.(upQueueID := 0, downQueueID := 0)
            && (Fixed(m, all, upward) ==> QueueOf(slice[j], upward) == QueueOf(own, upward))
    decreases |gems|
  {
    hide Found;
    CollectedLength(m, gems);
    var front := gems[..|gems| - 1];
    CollectedLength(m, front);
    assert forall g | g in front :: g in gems;
    assert |front| == 0 ==> front == [] && Collected(m, front) == [];
    if j < |front| {
      RecordFields(m, front, all, upward, j);
    } else if j > 0 {
      RecordFields(m, front, all, upward, j - 1);
      assert gems[j] in all && gems[j - 1] in all;
      assert Fixed(m, all, upward) && FoundQueue(m, gems[j], upward).None? ==>
          OrZero(FoundQueue(m, gems[j - 1], upward)) == 0;
    }
  }

  lemma RecordsOfValues(m: Mib, gems: seq<GemPort>, all: set<GemPort>)
    requires Fixed(m, all, true) && Fixed(m, all, false) && forall g | g in gems :: g in all
    ensures Collected(m, gems) == Mapped(gems, Settled(m))
  {
    CollectedLength(m, gems);
    hide Fixed, Settled, Collected;
    forall j | 0 <= j < |gems| ensures Collected(m, gems)[j] == Settled(m)(gems[j]) {
      RecordFields(m, gems, all, true, j);
      RecordFields(m, gems, all, false, j);
    }
  }

  lemma ValuesPermuted(params: map<uint16, GemPort>, o1: seq<uint16>, o2: seq<uint16>)
    requires IsOrder(o1, params) && IsOrder(o2, params)
    ensures multiset(Values(o1, params)) == multiset(Values(o2, params))
    ensures forall g | g in Values(o1, params) :: g in params.Values
  {
    SameSetPermuted(o1, o2);
    var f := (k: uint16) => if k in params then params[k] else GemPort(0, 0, 0, 0, "", "", "", 0);
    MappedPermuted(o1, o2, f);
    assert Mapped(o1, f) == Values(o1, params) && Mapped(o2, f) == Values(o2, params);
  }

  lemma FixedRecords(m: Mib, params: map<uint16, GemPort>)
    requires Fixed(m, params.Values, true) && Fixed(m, params.Values, false)
    ensures RecordsOrderFree(m, params)
  {
    hide Fixed, Settled, Collected, Mapped, Values, IsOrder;
    forall o1, o2 | IsOrder(o1, params) && IsOrder(o2, params)
      ensures Keyed(params, o1) && Keyed(params, o2)
              && multiset(Records(m, params, o1)) == multiset(Records(m, params, o2))
    {
      assert Keyed(params, o1) && Keyed(params, o2) by { KeysOf(params, o1); KeysOf(params, o2); }
      ValuesPermuted(params, o1, o2);
      ValuesPermuted(params, o2, o1);
      RecordsOfValues(m, Values(o1, params), params.Values);
      RecordsOfValues(m, Values(o2, params), params.Values);
      MappedPermuted(Values(o1, params), Values(o2, params), Settled(m));
    }
  }

  predicate Keyed(params: map<uint16, GemPort>, order: seq<uint16>) { forall k | k in order :: k in params }

  lemma KeysOf(params: map<uint16, GemPort>, order: seq<uint16>)
    requires IsOrder(order, params)
    ensures Keyed(params, order)
  {
  }

  /** From a record on, two lists with the same rest go on alike. */
  lemma {:induction false} RestAgrees(m: Mib, xs: seq<GemPort>, ys: seq<GemPort>, n: nat, upward: bool, j: nat)
    requires |xs| == |ys| && 0 < n <= j < |xs| && xs[n..] == ys[n..]
    requires |Collected(m, xs)| == |Collected(m, ys)| == |xs|
    requires QueueOf(Collected(m, xs)[n - 1], upward) == QueueOf(Collected(m, ys)[n - 1], upward)
    ensures QueueOf(Collected(m, xs)[j], upward) == QueueOf(Collected(m, ys)[j], upward)
    decreases j
  {
    hide Found, Collected;
    assert xs[j] == xs[n..][j - n] && ys[j] == ys[n..][j - n];
    UnservedGemInherits(m, xs, j);
    UnservedGemInherits(m, ys, j);
    if n < j { RestAgrees(m, xs, ys, n, upward, j - 1); }
  }

  /** The queues of two lists that begin with the same two gem ports, once each way round. */
  lemma Swapped(m: Mib, a: GemPort, b: GemPort, rest: seq<GemPort>, upward: bool)
    returns (q1: seq<uint16>, q2: seq<uint16>)
    requires FoundQueue(m, a, upward).None? && FoundQueue(m, b, upward).Some?
    ensures q1 == Mapped(Collected(m, [a, b] + rest), Queue(upward))
    ensures q2 == Mapped(Collected(m, [b, a] + rest), Queue(upward))
    ensures var u := FoundQueue(m, b, upward).value;
            |q1| == |q2| >= 2 && q1[..2] == [0, u] && q2[..2] == [u, u] && q1[2..] == q2[2..]
  {
    hide Found, Collected;
    var xs, ys := [a, b] + rest, [b, a] + rest;
    CollectedLength(m, xs);
    CollectedLength(m, ys);
    UnservedGemInherits(m, xs, 0);
    UnservedGemInherits(m, xs, 1);
    UnservedGemInherits(m, ys, 0);
    UnservedGemInherits(m, ys, 1);
    q1, q2 := Mapped(Collected(m, xs), Queue(upward)), Mapped(Collected(m, ys), Queue(upward));
    assert xs[2..] == ys[2..];
    forall j | 2 <= j < |xs| ensures q1[j] == q2[j] { RestAgrees(m, xs, ys, 2, upward, j); }
  }

  lemma CountsDiffer(q1: seq<uint16>, q2: seq<uint16>, u: uint16)
    requires |q1| == |q2| >= 2 && q1[..2] == [0, u] && q2[..2] == [u, u] && q1[2..] == q2[2..] && u != 0
    ensures multiset(q1) != multiset(q2)
  {
    assert q1 == q1[..2] + q1[2..] && q2 == q2[..2] + q1[2..];
    assert multiset(q1)[0] == 1 + multiset(q1[2..])[0] && multiset(q2)[0] == multiset(q1[2..])[0];
  }

  /** A gem port without a queue takes over what the one before has: its record then depends on
      whether that one comes before or after. */
  lemma FloatingRecords(m: Mib, params: map<uint16, GemPort>, upward: bool, a: uint16, b: uint16)
    requires a in params && b in params
    requires FoundQueue(m, params[a], upward).None? && OrZero(FoundQueue(m, params[b], upward)) != 0
    ensures !RecordsOrderFree(m, params)
  {
    hide FoundQueue, Collected;
    var rest := BothWays(params, a, b);
    var o1, o2 := [a, b] + rest, [b, a] + rest;
    var tail := Values(o1, params)[2..];
    assert Values(o1, params) == [params[a], params[b]] + tail && Values(o2, params) == [params[b], params[a]] + tail;
    var q1, q2 := Swapped(m, params[a], params[b], tail, upward);
    CountsDiffer(q1, q2, OrZero(FoundQueue(m, params[b], upward)));
    hide IsOrder, Values, Queue, Mapped;
    if multiset(Records(m, params, o1)) == multiset(Records(m, params, o2)) {
      MappedPermuted(Records(m, params, o1), Records(m, params, o2), Queue(upward));
      assert false;
    }
  }

  /** The records are the same for every iteration order exactly when, in each direction, either all
      gem ports have a queue in the MIB or there is none to inherit. */
  lemma RecordsOrder(m: Mib, params: map<uint16, GemPort>)
    ensures RecordsOrderFree(m, params) <==> Fixed(m, params.Values, true) && Fixed(m, params.Values, false)
  {
    hide RecordsOrderFree, FoundQueue;
    if Fixed(m, params.Values, true) && Fixed(m, params.Values, false) {
      FixedRecords(m, params);
    } else {
      var upward := !Fixed(m, params.Values, true);
      var g :| g in params.Values && FoundQueue(m, g, upward).None?;
      var h :| h in params.Values && OrZero(FoundQueue(m, h, upward)) != 0;
      var a :| a in params && params[a] == g;
      var b :| b in params && params[b] == h;
      FloatingRecords(m, params, upward, a, b);
    }
  }

  // ---- the first match over a map ----

  ghost predicate FirstOrderFree(params: map<uint16, GemPort>, sel: GemPort -> Option<uint16>) {
    forall o1, o2 | IsOrder(o1, params) && IsOrder(o2, params) ::
      First(Values(o1, params), sel) == First(Values(o2, params), sel)
  }

  predicate Agree(gems: set<GemPort>, sel: GemPort -> Option<uint16>) {
    forall g, h | g in gems && h in gems && sel(g).Some? && sel(h).Some? :: sel(g) == sel(h)
  }

  /** The first match over an order, if there is one, and what its absence says of the map. */
  lemma FirstOver(params: map<uint16, GemPort>, order: seq<uint16>, sel: GemPort -> Option<uint16>)
    requires IsOrder(order, params)
    ensures var first := First(Values(order, params), sel);
            && (first.Some? <==> exists g :: g in params.Values && sel(g).Some?)
            && (first.Some? ==> exists g :: g in params.Values && sel(g) == first)
  {
    var x := FirstMatch(Values(order, params), sel);
    forall g | g in params.Values ensures g in Values(order, params) {
      var k :| k in params && params[k] == g;
      assert k in Elems(order);
      var i :| 0 <= i < |order| && order[i] == k;
      assert Values(order, params)[i] == g;
    }
    assert forall i | 0 <= i < |order| :: Values(order, params)[i] == params[order[i]];
    assert x.Some? ==> x.value in params.Values;
  }

  /** The first match is the same in every order exactly when all matches agree. */
  lemma OrderFreeIffAgree(params: map<uint16, GemPort>, sel: GemPort -> Option<uint16>)
    ensures FirstOrderFree(params, sel) <==> Agree(params.Values, sel)
  {
    if Agree(params.Values, sel) {
      forall o1, o2 | IsOrder(o1, params) && IsOrder(o2, params)
        ensures First(Values(o1, params), sel) == First(Values(o2, params), sel)
      {
        FirstOver(params, o1, sel);
        FirstOver(params, o2, sel);
      }
    }
    if FirstOrderFree(params, sel) {
      forall g, h | g in params.Values && h in params.Values && sel(g).Some? && sel(h).Some? ensures sel(g) == sel(h) {
        var a :| a in params && params[a] == g;
        var b :| b in params && params[b] == h;
        var oa := InFront(params, a);
        var ob := InFront(params, b);
        assert First(Values(oa, params), sel) == sel(g) && First(Values(ob, params), sel) == sel(h);
      }
    }
  }

  lemma {:induction false} SameFirst(
    xs: seq<GemPort>, ys: seq<GemAttribs>, sel: GemPort -> Option<uint16>, own: GemAttribs -> Option<uint16>)
    requires |xs| == |ys| && forall j | 0 <= j < |xs| :: sel(xs[j]) == own(ys[j])
    ensures First(xs, sel) == First(ys, own)
  {
    if xs != [] {
      assert forall j | 0 < j < |xs| :: xs[j] == xs[1..][j - 1] && ys[j] == ys[1..][j - 1];
      SameFirst(xs[1..], ys[1..], sel, own);
    }
  }

  // ---- the gem port of each p-bit ----

  /** The gem port's string sets bit i. Without any queue instance no record has a gem port ID. */
  function BitPort(m: Mib, i: nat): GemPort -> Option<uint16> {
    (g: GemPort) => BitOwner(i)(Settled(m)(g))
  }

  predicate ClaimsBit(g: GemPort, i: nat) {
    i < 8 <= |g.pbitString| && g.pbitString[7 - i] == '1' && g.gemPortID != 0
  }

  /** Any two gem ports that claim the same bit are the same gem port. */
  predicate NoConflict(gems: set<GemPort>, i: nat) {
    forall g, h | g in gems && h in gems && ClaimsBit(g, i) && ClaimsBit(h, i) :: g.gemPortID == h.gemPortID
  }

  lemma BitOfRecords(m: Mib, gems: seq<GemPort>, i: nat)
    ensures First(Collected(m, gems), BitOwner(i)) == First(gems, BitPort(m, i))
  {
    hide Found, Collected;
    CollectedLength(m, gems);
    var all := set g | g in gems;
    forall j | 0 <= j < |gems| ensures BitPort(m, i)(gems[j]) == BitOwner(i)(Collected(m, gems)[j]) {
      RecordFields(m, gems, all, true, j);
    }
    hide BitPort, BitOwner;
    SameFirst(gems, Collected(m, gems), BitPort(m, i), BitOwner(i));
  }

  ghost predicate PbitOrderFree(m: Mib, params: map<uint16, GemPort>, i: nat) {
    forall o1, o2 | IsOrder(o1, params) && IsOrder(o2, params) ::
      First(Records(m, params, o1), BitOwner(i)) == First(Records(m, params, o2), BitOwner(i))
  }

  lemma ClaimsAre(m: Mib, g: GemPort, i: nat)
    ensures BitPort(m, i)(g) == if m.keys != [] && ClaimsBit(g, i) then Some(g.gemPortID) else None
  {
    hide Found;
    var a := Settled(m)(g);
    assert a.pbitString == g.pbitString && a.gemPortID == if m.keys == [] then 0 else g.gemPortID;
    assert BitPort(m, i)(g) == BitOwner(i)(a);
  }

  /** The p-bit entry is the same for every iteration order of the gem port map if and only if no two
      different gem ports claim the bit; a MIB without queues leaves every entry free. */
  lemma PbitOrder(m: Mib, params: map<uint16, GemPort>, i: nat)
    ensures PbitOrderFree(m, params, i) <==> m.keys == [] || NoConflict(params.Values, i)
  {
    OrderFreeIffAgree(params, BitPort(m, i));
    assert Agree(params.Values, BitPort(m, i)) <==> m.keys == [] || NoConflict(params.Values, i) by {
      hide BitPort, FirstOrderFree, ClaimsBit;
      forall g: GemPort
        ensures BitPort(m, i)(g) == if m.keys != [] && ClaimsBit(g, i) then Some(g.gemPortID) else None
      {
        ClaimsAre(m, g, i);
      }
    }
    hide Agree, NoConflict, BitPort, BitOwner, First, Collected, Values;
    forall o | IsOrder(o, params)
      ensures First(Records(m, params, o), BitOwner(i)) == First(Values(o, params), BitPort(m, i))
    {
      BitOfRecords(m, Values(o, params), i);
    }
  }

  // ---- the policies ----

  function PortWish(m: Mib, q: uint16, weighted: bool): GemPort -> Option<uint16> {
    (g: GemPort) => Wish(q, weighted)(Settled(m)(g))
  }

  lemma WishOfRecords(m: Mib, gems: seq<GemPort>, all: set<GemPort>, q: uint16, weighted: bool)
    requires Fixed(m, all, true) && forall g | g in gems :: g in all
    ensures First(Collected(m, gems), Wish(q, weighted)) == First(gems, PortWish(m, q, weighted))
  {
    hide Found, Collected, Fixed;
    CollectedLength(m, gems);
    forall j | 0 <= j < |gems| ensures PortWish(m, q, weighted)(gems[j]) == Wish(q, weighted)(Collected(m, gems)[j]) {
      RecordFields(m, gems, all, true, j);
    }
    hide PortWish, Wish;
    SameFirst(gems, Collected(m, gems), PortWish(m, q, weighted), Wish(q, weighted));
  }

  ghost predicate PolicyOrderFree(m: Mib, params: map<uint16, GemPort>, q: uint16) {
    forall o1, o2 | IsOrder(o1, params) && IsOrder(o2, params) ::
      Policy(Records(m, params, o1), q) == Policy(Records(m, params, o2), q)
  }

  /** Some gem port of the queue asks for strict priority. */
  ghost predicate Strict(m: Mib, gems: set<GemPort>, q: uint16) {
    exists g :: g in gems && PortWish(m, q, false)(g).Some?
  }

  lemma WeightIsNotStrict(m: Mib, q: uint16)
    ensures forall g: GemPort :: PortWish(m, q, true)(g) != Some(STRICT)
  {
    forall g: GemPort ensures PortWish(m, q, true)(g) != Some(STRICT) {
      var a := Settled(m)(g);
      assert PortWish(m, q, true)(g) == Wish(q, true)(a);
    }
  }

  lemma PolicyOver(m: Mib, params: map<uint16, GemPort>, order: seq<uint16>, q: uint16)
    requires IsOrder(order, params) && Fixed(m, params.Values, true)
    ensures Strict(m, params.Values, q) <==> Policy(Records(m, params, order), q) == Some(STRICT)
    ensures !Strict(m, params.Values, q) ==>
              Policy(Records(m, params, order), q) == First(Values(order, params), PortWish(m, q, true))
  {
    hide Found, Collected, Fixed, First;
    FirstOver(params, order, PortWish(m, q, false));
    FirstOver(params, order, PortWish(m, q, true));
    ValuesPermuted(params, order, order);
    WishOfRecords(m, Values(order, params), params.Values, q, false);
    WishOfRecords(m, Values(order, params), params.Values, q, true);
    assert First(Values(order, params), PortWish(m, q, true)) != Some(STRICT) by {
      WeightIsNotStrict(m, q);
    }
    hide PortWish;
  }

  /** With fixed upstream queues, whether a queue is strict never depends on the iteration order; its
      policy does not exactly when it is strict or its weighted gem ports all want the same weight. */
  lemma PolicyOrder(m: Mib, params: map<uint16, GemPort>, q: uint16)
    requires Fixed(m, params.Values, true)
    ensures forall o | IsOrder(o, params) ::
              Policy(Records(m, params, o), q) == Some(STRICT) <==> Strict(m, params.Values, q)
    ensures PolicyOrderFree(m, params, q) <==>
            Strict(m, params.Values, q) || Agree(params.Values, PortWish(m, q, true))
  {
    OrderFreeIffAgree(params, PortWish(m, q, true));
    hide Policy, Strict, Agree, Fixed, First, Collected, Values, PortWish;
    forall o | IsOrder(o, params)
      ensures Policy(Records(m, params, o), q) == Some(STRICT) <==> Strict(m, params.Values, q)
      ensures !Strict(m, params.Values, q) ==>
                Policy(Records(m, params, o), q) == First(Values(o, params), PortWish(m, q, true))
    {
      PolicyOver(m, params, o, q);
    }
  }

  lemma {:induction false} NeverZero(m: Mib, gems: seq<GemPort>, j: nat)
    requires j < |gems| && FoundQueue(m, gems[0], true).Some?
    requires forall g | g in gems :: FoundQueue(m, g, true) != Some(0)
    ensures |Collected(m, gems)| == |gems| && Collected(m, gems)[j].upQueueID != 0
    decreases j
  {
    hide Found, Collected;
    UnservedGemInherits(m, gems, j);
    assert gems[j] in gems;
    if j > 0 { NeverZero(m, gems, j - 1); }
  }

  /** A gem port without a queue of its own, visited first, adds a policy for queue 0. */
  lemma FloatingPolicy(m: Mib, params: map<uint16, GemPort>, a: uint16, b: uint16)
    requires a in params && b in params && forall g | g in params.Values :: FoundQueue(m, g, true) != Some(0)
    requires FoundQueue(m, params[a], true).None? && FoundQueue(m, params[b], true).Some?
    ensures !PolicyOrderFree(m, params, 0)
  {
    hide Found, Collected, Policy, First;
    var oa := InFront(params, a);
    var ob := InFront(params, b);
    var ra, rb := Records(m, params, oa), Records(m, params, ob);
    UnservedGemInherits(m, Values(oa, params), 0);
    ValuesPermuted(params, ob, ob);
    assert ra[0] in ra && ra[0].upQueueID == 0;
    NoWish(ra, 0);
    MentionedOnce(ra);
    NoWish(rb, 0);
    MentionedOnce(rb);
    CollectedLength(m, Values(ob, params));
    forall j | 0 <= j < |rb| ensures rb[j].upQueueID != 0 { NeverZero(m, Values(ob, params), j); }
    assert Policy(ra, 0).Some? && Policy(rb, 0).None?;
  }

  /** All policies together are the same for every iteration order exactly when the upstream queues are
      fixed and no queue is left to a contest of weights; queue 0, the default of a record, is assumed
      to be nobody's upstream queue. */
  lemma PoliciesOrder(m: Mib, params: map<uint16, GemPort>)
    requires forall g | g in params.Values :: FoundQueue(m, g, true) != Some(0)
    ensures (forall q :: PolicyOrderFree(m, params, q)) <==>
            && Fixed(m, params.Values, true)
            && forall q :: Strict(m, params.Values, q) || Agree(params.Values, PortWish(m, q, true))
  {
    hide FoundQueue, PolicyOrderFree, Strict, Agree, PortWish;
    if Fixed(m, params.Values, true) {
      forall q
        ensures PolicyOrderFree(m, params, q) <==>
                Strict(m, params.Values, q) || Agree(params.Values, PortWish(m, q, true))
      {
        PolicyOrder(m, params, q);
      }
    } else {
      var g :| g in params.Values && FoundQueue(m, g, true).None?;
      var h :| h in params.Values && OrZero(FoundQueue(m, h, true)) != 0;
      var a :| a in params && params[a] == g;
      var b :| b in params && params[b] == h;
      FloatingPolicy(m, params, a, b);
    }
  }

  lemma ServedIsFixed(m: Mib, gems: set<GemPort>)
    requires Sorted(m.keys) && forall g | g in gems :: HasQueues(m, g)
    ensures Fixed(m, gems, true) && Fixed(m, gems, false)
  {
    forall g | g in gems ensures Found(m, g).up.Some? && Found(m, g).down.Some? {
      var u, d :| Served(m, g, u, d);
      LookupExact(m.db, Us(m, g), Ds(m, g), m.keys, u, d);
    }
  }

  /** When every gem port has its queues in the MIB, the order decides nothing but conflicts: the records
      are the same, an entry of the p-bit table is unless two gem ports claim its bit, and a policy
      is unless differing weights compete for a queue nobody wants strict. */
  lemma ServedOrder(m: Mib, params: map<uint16, GemPort>, i: nat, q: uint16)
    requires Sorted(m.keys) && forall g | g in params.Values :: HasQueues(m, g)
    ensures RecordsOrderFree(m, params)
    ensures PbitOrderFree(m, params, i) <==> NoConflict(params.Values, i)
    ensures PolicyOrderFree(m, params, q) <==>
            Strict(m, params.Values, q) || Agree(params.Values, PortWish(m, q, true))
  {
    ServedIsFixed(m, params.Values);
    hide Fixed, RecordsOrderFree, PbitOrderFree, PolicyOrderFree, Strict, Agree;
    RecordsOrder(m, params);
    PbitOrder(m, params, i);
    PolicyOrder(m, params, q);
    if params != map[] {
      var k :| k in params;
      assert HasQueues(m, params[k]);
    }
  }

  // ---- when a gem port lacks its queue ----

  const WEIGHTED := GemPort(1001, 3, 0, 0, "00000001", "", "WRR", 10)
  const STRICTLY := GemPort(1002, 3, 0, 1, "00000010", "", "StrictPriority", 0)
  const ONE_QUEUE: Db := map[PRIORITY_QUEUE := map[0x8001 := map["RelatedPort" := Uint(32, 0x8000_0000)]]]

  /** One queue, for priority 0 only. The strict gem port of priority 1 has no queue; visited second it
      takes over queue 0x8001 and makes it strict, visited first it leaves it weighted. */
  lemma OrderDecidesStrictness()
    ensures var m := Mib(ONE_QUEUE, [0x8001], 0x8000, 0);
            var params := map[0 := WEIGHTED, 1 := STRICTLY];
            && IsOrder([0, 1], params) && IsOrder([1, 0], params)
            && Policy(Records(m, params, [0, 1]), 0x8001) == Some(STRICT)
            && Policy(Records(m, params, [1, 0]), 0x8001) == Some(10)
            && !Fixed(m, params.Values, true)
  {
    var m := Mib(ONE_QUEUE, [0x8001], 0x8000, 0);
    var a, b := WEIGHTED, STRICTLY;
    var params := map[0 := a, 1 := b];
    assert Found(m, a) == Pick(Some(0x8001), None) && Found(m, b) == Pick(None, None);
    assert Values([0, 1], params) == [a, b] && Values([1, 0], params) == [b, a];
    TwoPolicies(m, a, b, 0x8001);
    TwoPolicies(m, b, a, 0x8001);
    assert Round(m, NO_ATTRIBS, a).upQueueID == 0x8001 && Round(m, NO_ATTRIBS, b).upQueueID == 0;
    hide Found, Collected, Policy;
    assert FoundQueue(m, a, true) == Some(0x8001) && FoundQueue(m, b, true) == None;
    assert a in params.Values && b in params.Values;
  }

  lemma TwoPolicies(m: Mib, a: GemPort, b: GemPort, q: uint16)
    ensures var first := Round(m, NO_ATTRIBS, a);
            var second := Round(m, first, b);
            Policy(Collected(m, [a, b]), q) ==
            if second.upQueueID == q && b.queueSchedPolicy != "WRR" then Some(STRICT)
            else if first.upQueueID == q then Some(if a.queueSchedPolicy != "WRR" then STRICT else a.queueWeight)
            else if second.upQueueID == q then Some(b.queueWeight) else None
  {
    TwoRecords(m, a, b);
    var first := Round(m, NO_ATTRIBS, a);
    var second := Round(m, first, b);
    PolicySnoc([], first, q);
    PolicySnoc([first], second, q);
    assert [] + [first] == [first] && [first] + [second] == [first, second];
    hide Found, Collected;
  }

  lemma TwoRecords(m: Mib, a: GemPort, b: GemPort)
    ensures Collected(m, [a, b]) == [Round(m, NO_ATTRIBS, a), Round(m, Round(m, NO_ATTRIBS, a), b)]
  {
    hide Round;
    assert [a][..0] == [] && Collected(m, []) == [];
    assert Collected(m, [a]) == [Round(m, NO_ATTRIBS, a)];
    assert [a, b][..1] == [a];
  }
}
