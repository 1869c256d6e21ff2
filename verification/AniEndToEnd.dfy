/** From the tech profile and the MIB to what the ONU acknowledged: the ANI configuration of a UNI. */
module AniEndToEnd {
  import opened Types
  import opened Session
  import opened SessionLoops
  import opened SessionSafety
  import opened SessionTheorems
  import opened MeDb
  import opened QueueLookup
  import opened TechProfile
  import opened AniTables
  import opened AniPolicy
  import opened AniOrder
  import opened AniSession

  // ---- preparing the job ----

  /** The T-Cont (class 262) with the smallest instance; without any, what the FSM object had before. */
  ghost predicate FirstTCont(db: Db, before: uint16, t: uint16) {
    if Insts(db, 262) == map[] then t == before
    else t in Insts(db, 262) && forall k | k in Insts(db, 262) :: t <= k
  }

  /** The job that the FSM derives from a MIB and a configuration, for one iteration order. */
  ghost predicate Prepared(m: Mib, before: uint16, config: AniConfig, order: seq<uint16>, j: AniJob) {
    && SortedKeysOf(m.db, 277, m.keys) && FirstTCont(m.db, before, m.tcont)
    && j.tcont == m.tcont && j.alloc == config.allocID
    && IsOrder(order, config.gems) && j.gems == Collected(m, Values(order, config.gems))
    && Policed(j.gems, j.policies) && j.pointers == Pointers(PbitTable(j.gems))
  }

  lemma FirstIsLeast(db: Db, tconts: seq<uint16>)
    requires SortedKeysOf(db, TCONT, tconts)
    ensures tconts == [] <==> Insts(db, TCONT) == map[]
    ensures forall before | tconts != [] :: FirstTCont(db, before, tconts[0])
  {
    HeadIsElem(tconts);
    forall k | k in Insts(db, TCONT) ensures k in tconts { assert k in Elems(tconts); }
  }

  lemma {:induction false} LongStrings(m: Mib, gems: seq<GemPort>, all: set<GemPort>)
    requires (forall g | g in gems :: g in all) && forall g | g in all :: 8 <= |g.pbitString|
    ensures forall a | a in Collected(m, gems) :: 8 <= |a.pbitString|
  {
    CollectedLength(m, gems);
    hide Collected, Found;
    forall a | a in Collected(m, gems) ensures 8 <= |a.pbitString| {
      var i :| 0 <= i < |Collected(m, gems)| && Collected(m, gems)[i] == a;
      RecordFields(m, gems, all, true, i);
      assert gems[i] in all && gems[i].pbitString == a.pbitString;
    }
  }

  /** prepareAndEnterConfigState, and what the later states compute from its records. The p-bit strings
      have eight characters: the source panics on a shorter one. */
  method PrepareJob(
    db: OnuDeviceDB, uniID: uint8, before: uint16, config: AniConfig, macBpNo: uint8, entityID: uint16, tpID: uint16)
    returns (j: AniJob, m: Mib, order: seq<uint16>)
    requires forall g | g in config.gems.Values :: 8 <= |g.pbitString|
    ensures m.db == db.meDb && m.uniID == uniID && Prepared(m, before, config, order, j)
    ensures j.macBpNo == macBpNo && j.entityID == entityID && j.tpID == tpID
  {
    hide Collected, Found, Values, PbitTable, Mentioned, Policy, Sorted;
    var tconts := db.GetSortedInstKeys(TCONT);
    FirstIsLeast(db.meDb, tconts);
    var tcont := before;
    if |tconts| > 0 { tcont := tconts[0]; }
    var gems, keys;
    gems, order, keys := CollectGemPorts(db, tcont, uniID, config.gems);
    m := Mib(db.meDb, keys, tcont, uniID);
    ValuesPermuted(config.gems, order, order);
    LongStrings(m, Values(order, config.gems), config.gems.Values);
    var policies := CollectPolicies(gems);
    var table := FillPbitTable(gems);
    var pointers, found := MapperAttributes(table);
    j := AniJob(macBpNo, entityID, tpID, tcont, config.allocID, gems, policies, pointers);
  }

  // ---- what a completed session means ----

  /** `x` happened, and `y` after it. */
  ghost predicate Before(t: seq<Tr>, x: Tr, y: Tr) { exists a, b :: 0 <= a < b < |t| && t[a] == x && t[b] == y }

  function MapperOf(j: AniJob): uint16 { (0x8001 + j.macBpNo + j.tpID) % 0x1_0000 }

  ghost predicate Provided(m: Mib, g: GemPort, u: uint16, d: uint16) {
    OwnQueues(m.db, m.tcont, m.uniID, g.prioQueueIndex, u, d)
  }

  ghost predicate HasOwnQueues(m: Mib, g: GemPort) { exists u, d :: Provided(m, g, u, d) }

  /** The ONU acknowledged a CTP for gem port g with its own two queues, then an IWTP for it, and then the
      mapper's pointers. */
  ghost predicate GemServed(m: Mib, mapper: uint16, pointers: map<string, Attr>, g: GemPort, t: seq<Tr>) {
    exists u, d, ctp, iwtp, last ::
      && Provided(m, g, u, d) && Ctp(ctp, g.gemPortID, m.tcont, g.direction, u, d)
      && Iwtp(iwtp, g.gemPortID, mapper) && MapperSet(last, Set, mapper, pointers)
      && Before(t, Acked(ctp), Acked(iwtp)) && Before(t, Acked(iwtp), Acked(last))
  }

  /** Queue u is the upstream queue of gem port g. */
  ghost predicate On(m: Mib, g: GemPort, u: uint16) { exists d :: Provided(m, g, u, d) }

  ghost predicate FirstOn(m: Mib, gems: seq<GemPort>, u: uint16, k: nat) {
    k < |gems| && On(m, gems[k], u) && forall l | 0 <= l < k :: !On(m, gems[l], u)
  }

  ghost predicate SomeStrict(m: Mib, gems: seq<GemPort>, u: uint16) {
    exists k :: 0 <= k < |gems| && On(m, gems[k], u) && gems[k].queueSchedPolicy != "WRR"
  }

  /** Queue u was set to strict priority if one of its gem ports is not weighted, otherwise to the weight of
      its first gem port. */
  ghost predicate QueueServed(m: Mib, gems: seq<GemPort>, u: uint16, t: seq<Tr>) {
    exists me ::
      && Acked(me) in t
      && if SomeStrict(m, gems, u) then StrictQueue(me, u)
         else exists k: nat :: FirstOn(m, gems, u, k) && WeightedQueue(me, u, gems[k].queueWeight)
  }

  ghost predicate FirstClaimer(gems: seq<GemPort>, i: nat, n: nat) {
    n < |gems| && ClaimsBit(gems[n], i) && forall k | 0 <= k < n :: !ClaimsBit(gems[k], i)
  }

  predicate PointerName(i: nat, name: string) {
    || (i == 0 && name == "InterworkTpPointerForPBitPriority0")
    || (i == 1 && name == "InterworkTpPointerForPBitPriority1")
    || (i == 2 && name == "InterworkTpPointerForPBitPriority2")
    || (i == 3 && name == "InterworkTpPointerForPBitPriority3")
    || (i == 4 && name == "InterworkTpPointerForPBitPriority4")
    || (i == 5 && name == "InterworkTpPointerForPBitPriority5")
    || (i == 6 && name == "InterworkTpPointerForPBitPriority6")
    || (i == 7 && name == "InterworkTpPointerForPBitPriority7")
  }

  /** The pointer of p-bit i is the first gem port that claims it; there is none exactly when no gem port does. */
  ghost predicate BitServed(pointers: map<string, Attr>, gems: seq<GemPort>, i: nat) {
    forall name | PointerName(i, name) ::
      && (name in pointers <==> exists n: nat :: FirstClaimer(gems, i, n))
      && forall n: nat | FirstClaimer(gems, i, n) :: name in pointers && pointers[name] == Num(gems[n].gemPortID)
  }

  lemma AckedInOrder(mes: seq<Me>, t: seq<Tr>, a: nat, b: nat)
    requires t == Alternating(mes) && a < b < |mes|
    ensures Before(t, Acked(mes[a]), Acked(mes[b]))
  {
    AlternatingTraffic(mes);
    hide Alternating;
    assert t[2 * a + 1] == Acked(mes[a]) && t[2 * b + 1] == Acked(mes[b]);
  }

  lemma AckedSomewhere(mes: seq<Me>, t: seq<Tr>, a: nat)
    requires t == Alternating(mes) && a < |mes|
    ensures Acked(mes[a]) in t
  {
    AlternatingTraffic(mes);
    hide Alternating;
    assert t[2 * a + 1] == Acked(mes[a]);
  }

  /** What the search asks for is that the gem port has its own queues. */
  lemma ServedIsProvided(m: Mib, g: GemPort, u: uint16, d: uint16)
    requires SortedKeysOf(m.db, 277, m.keys)
    ensures Served(m, g, u, d) <==> Provided(m, g, u, d)
  {
    OwnQueuesAre(m.db, m.keys, m.tcont, m.uniID, g.prioQueueIndex, u, d);
    hide UniqueQueues, NoLowMatch, OwnQueues, UsPattern, DsPattern, SortedKeysOf;
  }

  /** Record a is that of gem port g: its own data, and its own queues. */
  ghost predicate Matching(m: Mib, g: GemPort, a: GemAttribs) {
    && a.gemPortID == g.gemPortID && a.direction == g.direction && a.qosPolicy == g.queueSchedPolicy
    && a.weight == g.queueWeight && a.pbitString == g.pbitString
    && Provided(m, g, a.upQueueID, a.downQueueID)
  }

  ghost predicate AllMatching(m: Mib, gems: seq<GemPort>, slice: seq<GemAttribs>) {
    |slice| == |gems| && forall k | 0 <= k < |gems| :: Matching(m, gems[k], slice[k])
  }

  lemma OnIs(m: Mib, g: GemPort, a: GemAttribs, u: uint16)
    requires Matching(m, g, a)
    ensures On(m, g, u) <==> a.upQueueID == u
  {
    hide Upstream, Downstream;
    if On(m, g, u) { var d :| Provided(m, g, u, d); }
  }

  lemma GemsServed(m: Mib, gems: seq<GemPort>, j: AniJob, mes: seq<Me>, t: seq<Tr>)
    requires t == Alternating(mes) && IsSetup(mes, j) && AllMatching(m, gems, j.gems) && j.tcont == m.tcont
    ensures forall g | g in gems :: GemServed(m, MapperOf(j), j.pointers, g, t)
  {
    hide Provided, Alternating, Ctp, Iwtp, MapperSet, IsSetup, Before, MapperOf;
    forall g | g in gems ensures GemServed(m, MapperOf(j), j.pointers, g, t) {
      var k :| 0 <= k < |gems| && gems[k] == g;
      assert Matching(m, g, j.gems[k]);
      GemPlace(mes, j, k);
      AckedInOrder(mes, t, 3 + k, 3 + |gems| + k);
      AckedInOrder(mes, t, 3 + |gems| + k, |mes| - 1);
    }
  }

  lemma GemPlace(mes: seq<Me>, j: AniJob, k: nat)
    requires IsSetup(mes, j) && k < |j.gems|
    ensures var n, a := |j.gems|, j.gems[k];
            && |mes| >= 4 + 2 * n
            && Ctp(mes[3 + k], a.gemPortID, j.tcont, a.direction, a.upQueueID, a.downQueueID)
            && Iwtp(mes[3 + n + k], a.gemPortID, MapperOf(j))
            && MapperSet(mes[|mes| - 1], Set, MapperOf(j), j.pointers)
  {
    hide Ctp, Iwtp, MapperSet, BridgePort, TContSet, StrictQueue, WeightedQueue;
  }

  lemma StrictIs(m: Mib, gems: seq<GemPort>, slice: seq<GemAttribs>, u: uint16)
    requires AllMatching(m, gems, slice)
    ensures SomeStrict(m, gems, u) <==> exists a :: a in slice && OnQueue(a, u, false)
  {
    hide On, Provided;
    forall k | 0 <= k < |gems| ensures On(m, gems[k], u) <==> slice[k].upQueueID == u {
      assert Matching(m, gems[k], slice[k]);
      OnIs(m, gems[k], slice[k], u);
    }
    if k :| 0 <= k < |gems| && On(m, gems[k], u) && gems[k].queueSchedPolicy != "WRR" {
      assert Matching(m, gems[k], slice[k]);
      assert slice[k] in slice && OnQueue(slice[k], u, false);
    }
    if a :| a in slice && OnQueue(a, u, false) {
      var k :| 0 <= k < |slice| && slice[k] == a;
      assert Matching(m, gems[k], slice[k]);
    }
  }

  lemma FirstIs(m: Mib, gems: seq<GemPort>, slice: seq<GemAttribs>, u: uint16, k: nat)
    requires AllMatching(m, gems, slice) && !SomeStrict(m, gems, u)
    requires k < |slice| && OnQueue(slice[k], u, true) && forall l | 0 <= l < k :: !OnQueue(slice[l], u, true)
    ensures FirstOn(m, gems, u, k) && slice[k].weight == gems[k].queueWeight
  {
    hide On, Provided;
    forall l | 0 <= l < |gems|
      ensures On(m, gems[l], u) <==> slice[l].upQueueID == u
      ensures On(m, gems[l], u) ==> slice[l].qosPolicy == "WRR"
    {
      assert Matching(m, gems[l], slice[l]);
      OnIs(m, gems[l], slice[l], u);
    }
    assert Matching(m, gems[k], slice[k]);
  }

  lemma QueuePlace(mes: seq<Me>, j: AniJob, t: seq<Tr>, u: uint16) returns (k: nat, me: Me)
    requires t == Alternating(mes) && IsSetup(mes, j) && Policed(j.gems, j.policies) && u in Queues(j.policies)
    ensures k < |j.policies| && Some(j.policies[k].1) == Policy(j.gems, u) && Acked(me) in t
    ensures if j.policies[k].1 == 0xFFFF then StrictQueue(me, u) else WeightedQueue(me, u, j.policies[k].1 % 0x100)
  {
    hide Alternating, Ctp, Iwtp, MapperSet, BridgePort, TContSet, StrictQueue, WeightedQueue, Policy, Mentioned;
    k :| 0 <= k < |j.policies| && Queues(j.policies)[k] == u;
    me := mes[3 + 2 * |j.gems| + k];
    AckedSomewhere(mes, t, 3 + 2 * |j.gems| + k);
  }

  /** The policy of a queue, in terms of the gem ports on it. */
  lemma PolicyIs(m: Mib, gems: seq<GemPort>, slice: seq<GemAttribs>, u: uint16)
    requires AllMatching(m, gems, slice) && exists k :: 0 <= k < |slice| && slice[k].upQueueID == u
    ensures SomeStrict(m, gems, u) ==> Policy(slice, u) == Some(0xFFFF)
    ensures !SomeStrict(m, gems, u) ==>
              exists k: nat ::
                k < |gems| && FirstOn(m, gems, u, k) && Policy(slice, u) == Some(gems[k].queueWeight)
  {
    assert |slice| == |gems|;
    hide Policy, On, SomeStrict, FirstOn, AllMatching, Provided;
    var k0 :| 0 <= k0 < |slice| && slice[k0].upQueueID == u;
    assert slice[k0] in slice;
    PolicyMeaning(slice, u);
    StrictIs(m, gems, slice, u);
    if !SomeStrict(m, gems, u) {
      var l :| 0 <= l < |slice| && OnQueue(slice[l], u, true) && Policy(slice, u).value == slice[l].weight
               && forall i | 0 <= i < l :: !OnQueue(slice[i], u, true);
      hide OnQueue;
      FirstIs(m, gems, slice, u, l);
    }
  }

  lemma QueueIsServed(m: Mib, gems: seq<GemPort>, j: AniJob, mes: seq<Me>, t: seq<Tr>, u: uint16)
    requires t == Alternating(mes) && IsSetup(mes, j) && AllMatching(m, gems, j.gems)
    requires Policed(j.gems, j.policies) && exists k :: 0 <= k < |j.gems| && j.gems[k].upQueueID == u
    ensures QueueServed(m, gems, u, t)
  {
    hide Alternating, IsSetup, Policy, Mentioned, On, AllMatching, StrictQueue, WeightedQueue, SomeStrict, FirstOn;
    assert u in Queues(j.policies) by { MentionedOnce(j.gems); }
    hide Queues, Policed;
    PolicyIs(m, gems, j.gems, u);
    var k, me := QueuePlace(mes, j, t, u);
    if SomeStrict(m, gems, u) {
      assert StrictQueue(me, u);
    } else {
      var l: nat :| l < |gems| && FirstOn(m, gems, u, l) && Policy(j.gems, u) == Some(gems[l].queueWeight);
      assert WeightedQueue(me, u, gems[l].queueWeight);
    }
  }

  lemma SameClaims(m: Mib, gems: seq<GemPort>, slice: seq<GemAttribs>, i: nat, n: nat)
    requires AllMatching(m, gems, slice)
    ensures FirstClaimer(gems, i, n) <==> FirstClaim(slice, i, n)
    ensures n < |gems| ==> slice[n].gemPortID == gems[n].gemPortID
  {
    hide Provided;
    forall k | 0 <= k < |gems| ensures ClaimsBit(gems[k], i) <==> Claims(slice[k], i) {
      assert Matching(m, gems[k], slice[k]);
    }
    assert n < |gems| ==> Matching(m, gems[n], slice[n]);
    hide ClaimsBit, Claims;
  }

  lemma {:induction false} SomeFirstClaim(slice: seq<GemAttribs>, i: nat, k: nat)
    requires k < |slice| && Claims(slice[k], i)
    ensures exists n: nat :: FirstClaim(slice, i, n)
  {
    hide Claims;
    if l: nat :| l < k && Claims(slice[l], i) {
      SomeFirstClaim(slice, i, l);
    } else {
      assert FirstClaim(slice, i, k);
    }
  }

  /** The mapper attributes, read back as the first claiming record. */
  lemma PointerOfBit(slice: seq<GemAttribs>, i: nat)
    requires i < 8
    ensures PbitName(i) in Pointers(PbitTable(slice)) <==> exists n: nat :: FirstClaim(slice, i, n)
    ensures forall n: nat | FirstClaim(slice, i, n) ::
              PbitName(i) in Pointers(PbitTable(slice))
              && Pointers(PbitTable(slice))[PbitName(i)] == Num(slice[n].gemPortID)
  {
    var table := PbitTable(slice);
    hide Pointers, PbitName;
    PointersMeaning(table, i);
    PbitEntry(slice, i);
    hide PbitTable;
    forall n: nat | FirstClaim(slice, i, n) ensures slice[n].gemPortID != 0 { assert Claims(slice[n], i); }
    hide Claims;
    if k :| 0 <= k < |slice| && Claims(slice[k], i) { SomeFirstClaim(slice, i, k); }
  }

  lemma NameIs(i: nat, name: string)
    ensures PointerName(i, name) <==> i < 8 && name == PbitName(i)
  {
  }

  lemma BitsServed(m: Mib, gems: seq<GemPort>, j: AniJob, i: nat)
    requires AllMatching(m, gems, j.gems) && j.pointers == Pointers(PbitTable(j.gems))
    ensures BitServed(j.pointers, gems, i)
  {
    hide Pointers, PbitName, PbitTable, AllMatching, PointerName;
    forall name | PointerName(i, name)
      ensures name in j.pointers <==> exists n: nat :: FirstClaimer(gems, i, n)
      ensures forall n: nat | FirstClaimer(gems, i, n) ::
                name in j.pointers && j.pointers[name] == Num(gems[n].gemPortID)
    {
      NameIs(i, name);
      PointerOfBit(j.gems, i);
      forall n: nat
        ensures FirstClaimer(gems, i, n) <==> FirstClaim(j.gems, i, n)
        ensures FirstClaimer(gems, i, n) ==> j.gems[n].gemPortID == gems[n].gemPortID
      {
        SameClaims(m, gems, j.gems, i, n);
      }
      hide FirstClaimer, FirstClaim;
    }
  }

  lemma {:induction false} OnlyPointers(table: seq<uint16>, name: string)
    requires |table| <= 8 && name in Pointers(table)
    ensures exists i: nat :: PointerName(i, name)
  {
    hide PbitName, PointerName;
    var n := |table| - 1;
    NameIs(n, PbitName(n));
    if name in Pointers(table[..n]) {
      OnlyPointers(table[..n], name);
    } else {
      assert PointerName(n, name);
    }
  }

  /** What the ONU has acknowledged in `t`, in terms of the configuration and the MIB. */
  ghost predicate Configured(m: Mib, config: AniConfig, order: seq<uint16>, j: AniJob, t: seq<Tr>)
    requires IsOrder(order, config.gems)
  {
    var gems := Values(order, config.gems);
    && (exists me :: Acked(me) in t && MapperSet(me, Create, MapperOf(j), map[]))
    && (exists me ::
          Acked(me) in t && BridgePort(me, (0x2102 + j.entityID + j.tpID) % 0x1_0000, j.macBpNo, MapperOf(j)))
    && (exists me :: Acked(me) in t && TContSet(me, m.tcont, config.allocID))
    && (forall g | g in config.gems.Values :: GemServed(m, MapperOf(j), j.pointers, g, t))
    && (forall g, u | g in config.gems.Values && On(m, g, u) :: QueueServed(m, gems, u, t))
    && (exists me :: Acked(me) in t && MapperSet(me, Set, MapperOf(j), j.pointers))
    && (forall i: nat :: BitServed(j.pointers, gems, i))
    && forall name | name in j.pointers :: exists i: nat :: PointerName(i, name)
  }

  lemma OthersServed(j: AniJob, mes: seq<Me>, t: seq<Tr>)
    requires t == Alternating(mes) && IsSetup(mes, j)
    ensures exists me :: Acked(me) in t && MapperSet(me, Create, MapperOf(j), map[])
    ensures exists me ::
              Acked(me) in t && BridgePort(me, (0x2102 + j.entityID + j.tpID) % 0x1_0000, j.macBpNo, MapperOf(j))
    ensures exists me :: Acked(me) in t && TContSet(me, j.tcont, j.alloc)
    ensures exists me :: Acked(me) in t && MapperSet(me, Set, MapperOf(j), j.pointers)
  {
    hide Alternating, Ctp, Iwtp, MapperSet, BridgePort, TContSet, StrictQueue, WeightedQueue;
    AckedSomewhere(mes, t, 0);
    AckedSomewhere(mes, t, 1);
    AckedSomewhere(mes, t, 2);
    AckedSomewhere(mes, t, |mes| - 1);
  }

  /** Every record is right, because every gem port has its queues. */
  lemma RightRecords(m: Mib, before: uint16, config: AniConfig, order: seq<uint16>, j: AniJob)
    requires Prepared(m, before, config, order, j) && forall g | g in config.gems.Values :: HasOwnQueues(m, g)
    ensures IsOrder(order, config.gems)
    ensures AllMatching(m, Values(order, config.gems), j.gems)
    ensures forall g | g in config.gems.Values :: g in Values(order, config.gems)
  {
    var gems := Values(order, config.gems);
    ValuesPermuted(config.gems, order, order);
    ValuesAll(config.gems, order);
    hide Values, IsOrder, Collected, Pointers, PbitTable, Policed, FirstTCont, HasOwnQueues, HasQueues, Right, Matching;
    hide SortedKeysOf;
    assert Sorted(m.keys) by { KeysSorted(m.db, m.keys); }
    forall g | g in gems ensures HasQueues(m, g) { ProvidedHasQueues(m, g); }
    EveryGemGetsItsQueues(m, gems);
    forall k | 0 <= k < |gems| ensures Matching(m, gems[k], j.gems[k]) { RightIsMatching(m, gems[k], j.gems[k]); }
  }

  lemma KeysSorted(db: Db, keys: seq<uint16>)
    requires SortedKeysOf(db, 277, keys)
    ensures Sorted(keys)
  {
  }

  lemma ProvidedHasQueues(m: Mib, g: GemPort)
    requires SortedKeysOf(m.db, 277, m.keys) && HasOwnQueues(m, g)
    ensures HasQueues(m, g)
  {
    hide Served, Provided, SortedKeysOf;
    var u, d :| Provided(m, g, u, d);
    ServedIsProvided(m, g, u, d);
  }

  lemma RightIsMatching(m: Mib, g: GemPort, a: GemAttribs)
    requires SortedKeysOf(m.db, 277, m.keys) && Right(m, g, a)
    ensures Matching(m, g, a)
  {
    ServedIsProvided(m, g, a.upQueueID, a.downQueueID);
    hide Served, Provided, SortedKeysOf;
  }

  lemma QueuesServed(m: Mib, config: AniConfig, gems: seq<GemPort>, j: AniJob, mes: seq<Me>, t: seq<Tr>)
    requires t == Alternating(mes) && IsSetup(mes, j) && AllMatching(m, gems, j.gems) && Policed(j.gems, j.policies)
    requires forall g | g in config.gems.Values :: g in gems
    ensures forall g, u | g in config.gems.Values && On(m, g, u) :: QueueServed(m, gems, u, t)
  {
    hide Alternating, IsSetup, Policed, QueueServed, On, Provided;
    forall g, u | g in config.gems.Values && On(m, g, u) ensures QueueServed(m, gems, u, t) {
      var n :| 0 <= n < |gems| && gems[n] == g;
      assert Matching(m, g, j.gems[n]);
      OnIs(m, g, j.gems[n], u);
      QueueIsServed(m, gems, j, mes, t, u);
    }
  }

  lemma WholeConfigures(
    m: Mib, before: uint16, config: AniConfig, order: seq<uint16>, j: AniJob, mes: seq<Me>, t: seq<Tr>)
    requires Prepared(m, before, config, order, j) && forall g | g in config.gems.Values :: HasOwnQueues(m, g)
    requires t == Alternating(mes) && IsSetup(mes, j)
    ensures IsOrder(order, config.gems) && Configured(m, config, order, j, t)
  {
    RightRecords(m, before, config, order, j);
    PreparedParts(m, before, config, order, j);
    var gems := Values(order, config.gems);
    hide *;
    OthersServed(j, mes, t);
    GemsServed(m, gems, j, mes, t);
    QueuesServed(m, config, gems, j, mes, t);
    PointersServed(m, gems, j);
    Together(m, config, order, j, t);
  }

  lemma PointersServed(m: Mib, gems: seq<GemPort>, j: AniJob)
    requires AllMatching(m, gems, j.gems) && j.pointers == Pointers(PbitTable(j.gems))
    ensures forall i: nat :: BitServed(j.pointers, gems, i)
    ensures forall name | name in j.pointers :: exists i: nat :: PointerName(i, name)
  {
    TableLength(j.gems);
    hide *;
    forall i: nat ensures BitServed(j.pointers, gems, i) { BitsServed(m, gems, j, i); }
    forall name | name in j.pointers ensures exists i: nat :: PointerName(i, name) {
      OnlyPointers(PbitTable(j.gems), name);
    }
  }

  lemma Together(m: Mib, config: AniConfig, order: seq<uint16>, j: AniJob, t: seq<Tr>)
    requires IsOrder(order, config.gems)
    requires exists me :: Acked(me) in t && MapperSet(me, Create, MapperOf(j), map[])
    requires exists me ::
               Acked(me) in t && BridgePort(me, (0x2102 + j.entityID + j.tpID) % 0x1_0000, j.macBpNo, MapperOf(j))
    requires exists me :: Acked(me) in t && TContSet(me, j.tcont, j.alloc)
    requires j.tcont == m.tcont && j.alloc == config.allocID
    requires forall g | g in config.gems.Values :: GemServed(m, MapperOf(j), j.pointers, g, t)
    requires forall g, u | g in config.gems.Values && On(m, g, u) :: QueueServed(m, Values(order, config.gems), u, t)
    requires exists me :: Acked(me) in t && MapperSet(me, Set, MapperOf(j), j.pointers)
    requires forall i: nat :: BitServed(j.pointers, Values(order, config.gems), i)
    requires forall name | name in j.pointers :: exists i: nat :: PointerName(i, name)
    ensures Configured(m, config, order, j, t)
  {
    hide IsOrder, Values, MapperSet, BridgePort, TContSet, GemServed, QueueServed, On, BitServed, PointerName, MapperOf;
  }

  lemma TableLength(gems: seq<GemAttribs>)
    ensures |PbitTable(gems)| == 8
  {
  }

  lemma PreparedParts(m: Mib, before: uint16, config: AniConfig, order: seq<uint16>, j: AniJob)
    requires Prepared(m, before, config, order, j)
    ensures j.tcont == m.tcont && j.alloc == config.allocID && Policed(j.gems, j.policies)
    ensures j.pointers == Pointers(PbitTable(j.gems)) && Queues(j.policies) == Mentioned(j.gems)
  {
    hide Collected, Values, IsOrder, Pointers, PbitTable, FirstTCont, SortedKeysOf, Queues, Mentioned, Policy;
  }

  lemma ValuesAll(params: map<uint16, GemPort>, order: seq<uint16>)
    requires IsOrder(order, params)
    ensures forall g | g in params.Values :: g in Values(order, params)
  {
    forall g | g in params.Values ensures g in Values(order, params) {
      var k :| k in params && params[k] == g;
      assert k in Elems(order);
      var i :| 0 <= i < |order| && order[i] == k;
      assert Values(order, params)[i] == g;
    }
  }

  ghost predicate ListedServed(m: Mib, p: Profile, i: nat, j: AniJob, t: seq<Tr>)
    requires i < |p.upstream|
  {
    exists g :: GemRead(p.upstream[i], g) && GemServed(m, MapperOf(j), j.pointers, g, t)
  }

  lemma GemsOfConfigured(m: Mib, config: AniConfig, order: seq<uint16>, j: AniJob, t: seq<Tr>)
    requires IsOrder(order, config.gems) && Configured(m, config, order, j, t)
    ensures forall g | g in config.gems.Values :: GemServed(m, MapperOf(j), j.pointers, g, t)
  {
    hide IsOrder, Values, MapperSet, BridgePort, TContSet, GemServed, QueueServed, On, BitServed, PointerName, MapperOf;
  }

  /** When a tech profile is taken over, each of its gem ports has its own queues in the MIB and a clean session
      reaches aniStConfigDone, the ONU has acknowledged: the mapper and its bridge port, the profile's alloc ID on
      the first T-Cont, for every gem port a CTP with precisely its two queues and an IWTP, for every upstream
      queue its policy, and then the mapper's pointers, that of p-bit i being the first gem port claiming it. */
  lemma AniTakesEffect(
    s0: Sys, m: Mib, before: uint16, p: Profile, order: seq<uint16>, j: AniJob, tx: Option<Me>, acts: seq<Act>)
    requires Conserved(s0) && s0.st.Disabled? && Clean(ANI_FSM, s0)
    requires Accepted(p) && Prepared(m, before, ConfigOf(p), order, j)
    requires forall g | g in ConfigOf(p).gems.Values :: HasOwnQueues(m, g)
    ensures var s := Run(ANI_FSM, Step(ANI_FSM, s0, Begin(Script(j), tx)), acts);
            s.sessions == s0.sessions + 1 && s.st.Done? ==>
              && Configured(m, ConfigOf(p), order, j, s.trace)
              && FirstTCont(m.db, before, m.tcont) && ConfigOf(p).allocID == p.allocID % 0x1_0000
              && (Count(p) <= 0x1_0000 ==> forall i | 0 <= i < Count(p) :: ListedServed(m, p, i, j, s.trace))
  {
    PreparedParts(m, before, ConfigOf(p), order, j);
    AniSessionSound(s0, j, tx, acts);
    AllocIs(p);
    TContIs(m, before, ConfigOf(p), order, j);
    var s := Run(ANI_FSM, Step(ANI_FSM, s0, Begin(Script(j), tx)), acts);
    hide *;
    if s.sessions == s0.sessions + 1 && s.st.Done? {
      assert Live(s.st) by { DoneIsLive(s.st); }
      WholeConfigures(m, before, ConfigOf(p), order, j, AckedMes(s.trace), s.trace);
      GemsOfConfigured(m, ConfigOf(p), order, j, s.trace);
      ListServed(m, p, j, s.trace);
    }
  }

  lemma AllocIs(p: Profile)
    ensures ConfigOf(p).allocID == p.allocID % 0x1_0000
  {
    hide Gems, Count;
  }

  lemma TContIs(m: Mib, before: uint16, config: AniConfig, order: seq<uint16>, j: AniJob)
    requires Prepared(m, before, config, order, j)
    ensures FirstTCont(m.db, before, m.tcont)
  {
    hide Collected, Values, IsOrder, Policed, Pointers, PbitTable, FirstTCont, SortedKeysOf;
  }

  lemma GemOfRead(c: GemContent)
    ensures GemRead(c, GemOf(c))
  {
  }

  lemma ListServed(m: Mib, p: Profile, j: AniJob, t: seq<Tr>)
    requires Accepted(p) && forall g | g in ConfigOf(p).gems.Values :: GemServed(m, MapperOf(j), j.pointers, g, t)
    ensures Count(p) <= 0x1_0000 ==> forall i | 0 <= i < Count(p) :: ListedServed(m, p, i, j, t)
  {
    AcceptedProfile(p);
    hide GemServed, Gems, GemOf, PriosValid, GemRead, MapperOf, Count;
    var gems := ConfigOf(p).gems;
    if Count(p) <= 0x1_0000 {
      forall i | 0 <= i < Count(p) ensures ListedServed(m, p, i, j, t) {
        assert HasGem(gems, i);
        assert gems[i] in gems.Values && gems[i] == GemOf(p.upstream[i]);
        GemOfRead(p.upstream[i]);
      }
    }
  }

  lemma DoneIsLive(st: St)
    requires st.Done?
    ensures Live(st)
  {
  }
}
