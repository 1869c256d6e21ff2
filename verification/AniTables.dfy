/** The tables the ANI configuration derives from a list of gem ports: the queues of each gem port and the
    gem port of each p-bit. The gem ports come from a Go map; what its order decides is in AniOrder. */
module AniTables {
  import opened Types
  import opened MeDb
  import opened QueueLookup
  import opened TechProfile

  datatype GemAttribs = GemAttribs(
    gemPortID: uint16, upQueueID: uint16, downQueueID: uint16,
    direction: uint8, qosPolicy: string, weight: uint8, pbitString: string)

  const NO_ATTRIBS := GemAttribs(0, 0, 0, 0, "", 0, "")

  // ---- the queues of each gem port ----

  /** What the queues of a gem port are looked up in: the queue instances, the T-Cont and the UNI. */
  datatype Mib = Mib(db: Db, keys: seq<uint16>, tcont: uint16, uniID: uint8)

  function Us(m: Mib, g: GemPort): uint32 { UsPattern(m.tcont, g.prioQueueIndex) }

  function Ds(m: Mib, g: GemPort): uint32 { DsPattern(m.uniID, g.prioQueueIndex) }

  function Found(m: Mib, g: GemPort): Pick {
    Scan(m.db, Us(m, g), Ds(m, g), Pick(None, None), m.keys)
  }

  /** One round of the loop over the gem ports, on the working record of the round before. */
  function Round(m: Mib, work: GemAttribs, g: GemPort): GemAttribs {
    var found := Found(m, g);
    GemAttribs(
      if m.keys == [] then work.gemPortID else g.gemPortID,
      if found.up.Some? then found.up.value else work.upQueueID,
      if found.down.Some? then found.down.value else work.downQueueID,
      g.direction, g.queueSchedPolicy, g.queueWeight, g.pbitString)
  }

  function Collected(m: Mib, gems: seq<GemPort>): seq<GemAttribs>
    decreases |gems|
  {
    if gems == [] then []
    else
      var before := Collected(m, gems[..|gems| - 1]);
      before + [Round(m, if before == [] then NO_ATTRIBS else before[|before| - 1], gems[|gems| - 1])]
  }

  function Values(order: seq<uint16>, params: map<uint16, GemPort>): seq<GemPort>
    requires forall k | k in order :: k in params
  {
    seq(|order|, i requires 0 <= i < |order| => params[order[i]])
  }

  lemma Enumerated(order: seq<uint16>, k: uint16, params: map<uint16, GemPort>)
    requires Distinct(order) && k !in Elems(order) && k in params && forall x | x in order :: x in params
    ensures Distinct(order + [k]) && Elems(order + [k]) == Elems(order) + {k}
    ensures Values(order + [k], params) == Values(order, params) + [params[k]]
    ensures (Values(order, params) + [params[k]])[..|order|] == Values(order, params)
  {
    assert k !in order;
  }

  /** The body of the loop over the gem ports. */
  method NextRound(db: OnuDeviceDB, m: Mib, work: GemAttribs, g: GemPort) returns (next: GemAttribs)
    requires m.db == db.meDb
    ensures next == Round(m, work, g)
  {
    next := work;
    if m.keys != [] {
      var up, down, us, ds := FindQueues(db, m.keys, Us(m, g), Ds(m, g), work.upQueueID, work.downQueueID);
      next := next.(gemPortID := g.gemPortID, upQueueID := up, downQueueID := down);
    }
    next := next.(direction := g.direction, qosPolicy := g.queueSchedPolicy, weight := g.queueWeight,
                  pbitString := g.pbitString);
  }

  /** The keys of the map, each once: an order in which it may be iterated. */
  ghost predicate IsOrder(order: seq<uint16>, params: map<uint16, GemPort>) {
    Distinct(order) && Elems(order) == params.Keys && forall k | k in order :: k in params
  }

  /** The loop over mapGemPortParams; `order` is the order in which the map happens to be iterated. */
  method CollectGemPorts(db: OnuDeviceDB, tcont: uint16, uniID: uint8, params: map<uint16, GemPort>)
    returns (slice: seq<GemAttribs>, order: seq<uint16>, keys: seq<uint16>)
    ensures SortedKeysOf(db.meDb, 277, keys)
    ensures IsOrder(order, params)
    ensures slice == Collected(Mib(db.meDb, keys, tcont, uniID), Values(order, params))
  {
    hide Round, Sorted;
    keys := db.GetSortedInstKeys(PRIORITY_QUEUE);
    var m := Mib(db.meDb, keys, tcont, uniID);
    slice, order := [], [];
    var work, rest := NO_ATTRIBS, params.Keys;
    while rest != {}
      invariant rest <= params.Keys && Elems(order) == params.Keys - rest
      invariant Distinct(order) && forall k | k in order :: k in params
      invariant |slice| == |order| && work == (if slice == [] then NO_ATTRIBS else slice[|slice| - 1])
      invariant slice == Collected(m, Values(order, params))
      decreases rest
    {
      var k :| k in rest;
      var g := params[k];
      work := NextRound(db, m, work, g);
      Enumerated(order, k, params);
      slice, order, rest := slice + [work], order + [k], rest - {k};
    }
  }

  /** There is exactly one fitting queue each way, and no interference: what LookupExact asks for. */
  ghost predicate Served(m: Mib, g: GemPort, u: uint16, d: uint16) {
    UniqueQueues(m.db, Us(m, g), Ds(m, g), m.keys, u, d) && NoLowMatch(m.db, Us(m, g), m.keys)
  }

  ghost predicate HasQueues(m: Mib, g: GemPort) {
    exists u, d :: Served(m, g, u, d)
  }

  ghost predicate Right(m: Mib, g: GemPort, a: GemAttribs) {
    && a.gemPortID == g.gemPortID && a.direction == g.direction && a.qosPolicy == g.queueSchedPolicy
    && a.weight == g.queueWeight && a.pbitString == g.pbitString
    && Served(m, g, a.upQueueID, a.downQueueID)
  }

  lemma RoundIsRight(
    m: Mib, work: GemAttribs, g: GemPort)
    requires Sorted(m.keys) && HasQueues(m, g)
    ensures Right(m, g, Round(m, work, g))
  {
    hide Scan, NoLowMatch, Us, Ds;
    var u, d :| Served(m, g, u, d);
    LookupExact(m.db, Us(m, g), Ds(m, g), m.keys, u, d);
    assert m.keys != [];
  }

  /** When every gem port has its queues, every round finds precisely those two, whatever the
      iteration order and whatever the rounds before left in the working record. */
  lemma {:induction false} EveryGemGetsItsQueues(
    m: Mib, gems: seq<GemPort>)
    requires Sorted(m.keys) && forall g | g in gems :: HasQueues(m, g)
    ensures var slice := Collected(m, gems);
            |slice| == |gems| && forall j | 0 <= j < |gems| :: Right(m, gems[j], slice[j])
    decreases |gems|
  {
    hide Right, Round, HasQueues;
    if gems != [] {
      var front, g := gems[..|gems| - 1], gems[|gems| - 1];
      assert forall x | x in front :: x in gems;
      EveryGemGetsItsQueues(m, front);
      var before := Collected(m, front);
      RoundIsRight(m, if before == [] then NO_ATTRIBS else before[|before| - 1], g);
    }
  }

  /** What the working record outside the loop does: a gem port without a fitting queue silently
      takes the queue of the gem port that happened to come before it. */
  lemma {:induction false} UnservedGemInherits(m: Mib, gems: seq<GemPort>, j: nat)
    requires j < |gems|
    ensures var slice, found := Collected(m, gems), Found(m, gems[j]);
            && |slice| == |gems|
            && var last := if j == 0 then NO_ATTRIBS else slice[j - 1];
            && slice[j].upQueueID == (if found.up.Some? then found.up.value else last.upQueueID)
            && slice[j].downQueueID == (if found.down.Some? then found.down.value else last.downQueueID)
    decreases |gems|
  {
    hide Scan;
    CollectedLength(m, gems);
    CollectedLength(m, gems[..|gems| - 1]);
    if j < |gems| - 1 { UnservedGemInherits(m, gems[..|gems| - 1], j); }
  }

  lemma {:induction false} CollectedLength(m: Mib, gems: seq<GemPort>)
    ensures |Collected(m, gems)| == |gems|
    decreases |gems|
  {
    hide Scan;
    if gems != [] { CollectedLength(m, gems[..|gems| - 1]); }
  }

  // ---- first match in a list ----

  function First<T>(xs: seq<T>, sel: T -> Option<uint16>): Option<uint16> {
    if xs == [] then None else if sel(xs[0]).Some? then sel(xs[0]) else First(xs[1..], sel)
  }

  ghost predicate FirstAt<T(!new)>(xs: seq<T>, sel: T -> Option<uint16>, j: nat) {
    j < |xs| && sel(xs[j]).Some? && forall k | 0 <= k < j :: sel(xs[k]).None?
  }

  lemma {:induction false} FirstMeaning<T(!new)>(xs: seq<T>, sel: T -> Option<uint16>)
    ensures First(xs, sel).None? <==> forall j | 0 <= j < |xs| :: sel(xs[j]).None?
    ensures forall j: nat | FirstAt(xs, sel, j) :: First(xs, sel) == sel(xs[j])
    ensures First(xs, sel).Some? ==> exists j: nat :: FirstAt(xs, sel, j)
  {
    if xs != [] {
      FirstMeaning(xs[1..], sel);
      assert forall j | 0 < j < |xs| :: xs[j] == xs[1..][j - 1];
      if sel(xs[0]).Some? {
        assert FirstAt(xs, sel, 0);
      } else {
        forall j: nat | FirstAt(xs, sel, j) ensures First(xs, sel) == sel(xs[j]) {
          assert FirstAt(xs[1..], sel, j - 1);
        }
        if First(xs, sel).Some? {
          var j: nat :| FirstAt(xs[1..], sel, j);
          assert FirstAt(xs, sel, j + 1);
        }
      }
    }
  }

  lemma FirstMatch<T(!new)>(xs: seq<T>, sel: T -> Option<uint16>) returns (x: Option<T>)
    ensures x.Some? ==> x.value in xs && sel(x.value).Some? && First(xs, sel) == sel(x.value)
    ensures x.None? ==> First(xs, sel).None? && forall y | y in xs :: sel(y).None?
  {
    FirstMeaning(xs, sel);
    if First(xs, sel).Some? {
      var j: nat :| FirstAt(xs, sel, j);
      x := Some(xs[j]);
    } else {
      x := None;
    }
  }

  // ---- the gem port of each p-bit ----

  /** Gem port g claims p-bit i. Gem port 0 is no gem port: an entry 0 still counts as free. */
  predicate Claims(g: GemAttribs, i: nat) {
    i < 8 <= |g.pbitString| && g.pbitString[7 - i] == '1' && g.gemPortID != 0
  }

  function BitOwner(i: nat): GemAttribs -> Option<uint16> {
    (g: GemAttribs) => if Claims(g, i) then Some(g.gemPortID) else None
  }

  function OrZero(o: Option<uint16>): uint16 { if o.Some? then o.value else 0 }

  lemma {:induction false} FirstSnoc<T>(xs: seq<T>, x: T, sel: T -> Option<uint16>)
    ensures First(xs + [x], sel) == if First(xs, sel).Some? then First(xs, sel) else sel(x)
  {
    if xs == [] {
      assert xs + [x] == [x];
    } else {
      assert (xs + [x])[1..] == xs[1..] + [x];
      FirstSnoc(xs[1..], x, sel);
    }
  }

  function PbitTable(gems: seq<GemAttribs>): seq<uint16> {
    seq(8, i requires 0 <= i < 8 => OrZero(First(gems, BitOwner(i))))
  }

  /** The nested loops that fill loPrioGemPortArray. */
  method FillPbitTable(gems: seq<GemAttribs>) returns (table: array<uint16>)
    requires forall g | g in gems :: 8 <= |g.pbitString|
    ensures fresh(table) && table.Length == 8 && table[..] == PbitTable(gems)
  {
    table := new uint16[8](_ => 0);
    var n := 0;
    while n < |gems|
      invariant 0 <= n <= |gems|
      invariant forall i | 0 <= i < 8 :: table[i] == OrZero(First(gems[..n], BitOwner(i)))
    {
      var g := gems[n];
      var i := 0;
      while i < 8
        invariant 0 <= i <= 8
        invariant forall k | 0 <= k < i :: table[k] == OrZero(First(gems[..n + 1], BitOwner(k)))
        invariant forall k | i <= k < 8 :: table[k] == OrZero(First(gems[..n], BitOwner(k)))
      {
        assert gems[..n + 1] == gems[..n] + [g];
        FirstSnoc(gems[..n], g, BitOwner(i));
        NonZeroOwner(gems[..n], i);
        if g.pbitString[7 - i] == '1' && table[i] == 0 {
          table[i] := g.gemPortID;
        }
        i := i + 1;
      }
      n := n + 1;
    }
    assert gems[..n] == gems;
  }

  lemma {:induction false} NonZeroOwner(gems: seq<GemAttribs>, i: nat)
    ensures First(gems, BitOwner(i)) != Some(0)
  {
    if gems != [] { NonZeroOwner(gems[1..], i); }
  }

  predicate FirstClaim(gems: seq<GemAttribs>, i: nat, j: nat) {
    j < |gems| && Claims(gems[j], i) && forall k | 0 <= k < j :: !Claims(gems[k], i)
  }

  /** Entry i belongs to the first gem port that claims bit i and is 0 exactly when none does. */
  lemma PbitEntry(gems: seq<GemAttribs>, i: nat)
    requires i < 8
    ensures PbitTable(gems)[i] == 0 <==> forall j | 0 <= j < |gems| :: !Claims(gems[j], i)
    ensures forall j: nat | FirstClaim(gems, i, j) :: PbitTable(gems)[i] == gems[j].gemPortID
  {
    var sel := BitOwner(i);
    FirstMeaning(gems, sel);
    NonZeroOwner(gems, i);
    assert forall j | 0 <= j < |gems| :: sel(gems[j]).Some? <==> Claims(gems[j], i);
    forall j: nat | FirstClaim(gems, i, j) ensures OrZero(First(gems, sel)) == gems[j].gemPortID {
      assert FirstAt(gems, sel, j);
    }
  }

  function PbitName(i: nat): string
    requires i < 8
  {
    "InterworkTpPointerForPBitPriority" + ["01234567"[i]]
  }

  function Pointers(table: seq<uint16>): map<string, Attr>
    requires |table| <= 8
  {
    if table == [] then map[]
    else
      var n := |table| - 1;
      Pointers(table[..n]) + (if table[n] != 0 then map[PbitName(n) := Num(table[n])] else map[])
  }

  lemma PbitNamesDiffer(i: nat, n: nat)
    requires i < n < 8
    ensures PbitName(i) != PbitName(n)
  {
    assert PbitName(i)[|PbitName(i)| - 1] != PbitName(n)[|PbitName(n)| - 1];
  }

  lemma {:induction false} PointersMeaning(table: seq<uint16>, i: nat)
    requires |table| <= 8 && i < 8
    ensures PbitName(i) in Pointers(table) <==> i < |table| && table[i] != 0
    ensures i < |table| && table[i] != 0 ==> Pointers(table)[PbitName(i)] == Num(table[i])
  {
    if table != [] {
      var n := |table| - 1;
      PointersMeaning(table[..n], i);
      if i < n { PbitNamesDiffer(i, n); } else if n < i { PbitNamesDiffer(n, i); }
    }
  }

  /** The attributes of the final mapper set: one pointer per p-bit that some gem port claims. */
  method MapperAttributes(table: array<uint16>) returns (attrs: map<string, Attr>, found: bool)
    requires table.Length == 8
    ensures attrs == Pointers(table[..])
    ensures found <==> exists i :: 0 <= i < 8 && table[i] != 0
  {
    hide PbitName;
    attrs, found := map[], false;
    var i := 0;
    while i < 8
      invariant 0 <= i <= 8
      invariant attrs == Pointers(table[..i])
      invariant found <==> exists k :: 0 <= k < i && table[k] != 0
    {
      assert table[..i + 1][..i] == table[..i];
      if table[i] != 0 {
        found := true;
        attrs := attrs[PbitName(i) := Num(table[i])];
      }
      i := i + 1;
    }
    assert table[..8] == table[..];
  }
}
