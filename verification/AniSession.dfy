/** Configuring the ANI side of a UNI: the FSM of omci_ani_config.go. */
module AniSession {
  import opened Types
  import opened Session
  import opened SessionLoops
  import opened SessionSafety
  import opened SessionTheorems
  import opened SessionProgress
  import opened SessionExact
  import opened SessionCycle
  import opened AniTables
  import opened AniPolicy

  // ---- the table as written ----

  datatype AniSt =
    | StDisabled | StStarting | StCreatingDot1PMapper | StCreatingMBPCD | StSettingTconts | StCreatingGemNCTPs
    | StCreatingGemIWs | StSettingPQs | StSettingDot1PMapper | StConfigDone | StResetting

  datatype AniEv =
    | EvStart | EvStartConfig | EvRxDot1pmapCResp | EvRxMbpcdResp | EvRxTcontsResp | EvRxGemntcpsResp
    | EvRxGemiwsResp | EvRxPrioqsResp | EvRxDot1pmapSResp | EvTimeoutSimple | EvTimeoutMids | EvReset | EvRestart

  function AniTable(ev: AniEv, st: AniSt): Option<AniSt> {
    match ev
    case EvStart => if st == StDisabled then Some(StStarting) else None
    case EvStartConfig => if st == StStarting then Some(StCreatingDot1PMapper) else None
    case EvRxDot1pmapCResp => if st == StCreatingDot1PMapper then Some(StCreatingMBPCD) else None
    case EvRxMbpcdResp => if st == StCreatingMBPCD then Some(StSettingTconts) else None
    case EvRxTcontsResp => if st == StSettingTconts then Some(StCreatingGemNCTPs) else None
    case EvRxGemntcpsResp => if st == StCreatingGemNCTPs then Some(StCreatingGemIWs) else None
    case EvRxGemiwsResp => if st == StCreatingGemIWs then Some(StSettingPQs) else None
    case EvRxPrioqsResp => if st == StSettingPQs then Some(StSettingDot1PMapper) else None
    case EvRxDot1pmapSResp => if st == StSettingDot1PMapper then Some(StConfigDone) else None
    case EvTimeoutSimple =>
      if st in {StCreatingDot1PMapper, StCreatingMBPCD, StSettingTconts, StSettingDot1PMapper}
      then Some(StStarting) else None
    case EvTimeoutMids =>
      if st in {StCreatingGemNCTPs, StCreatingGemIWs, StSettingPQs} then Some(StStarting) else None
    case EvReset => if st != StDisabled && st != StResetting then Some(StResetting) else None
    case EvRestart => if st == StResetting then Some(StDisabled) else None
  }

  function AbsSt(st: AniSt): St {
    match st
    case StDisabled => Disabled
    case StStarting => Starting
    case StCreatingDot1PMapper => Phase(0)
    case StCreatingMBPCD => Phase(1)
    case StSettingTconts => Phase(2)
    case StCreatingGemNCTPs => Phase(3)
    case StCreatingGemIWs => Phase(4)
    case StSettingPQs => Phase(5)
    case StSettingDot1PMapper => Phase(6)
    case StConfigDone => Done
    case StResetting => Resetting
  }

  function AbsEv(ev: AniEv): Ev {
    match ev
    case EvStart => Start
    case EvStartConfig => StartConfig
    case EvRxDot1pmapCResp => Advance(0)
    case EvRxMbpcdResp => Advance(1)
    case EvRxTcontsResp => Advance(2)
    case EvRxGemntcpsResp => Advance(3)
    case EvRxGemiwsResp => Advance(4)
    case EvRxPrioqsResp => Advance(5)
    case EvRxDot1pmapSResp => Advance(6)
    case EvTimeoutSimple => TimeoutSimple
    case EvTimeoutMids => TimeoutMulti
    case EvReset => Reset
    case EvRestart => Restart
  }

  /** The two response handlers: which event, or the hand-over to the waiting goroutine. */
  const ANI_REACTIONS: map<(Op, ClassId), Reaction> :=
    map[(Create, Mapper) := Fire(0), (Create, Mbpcd) := Fire(1), (Create, GemNctp) := Hand, (Create, GemIw) := Hand,
        (Set, TCont) := Fire(2), (Set, PriorityQueue) := Hand, (Set, Mapper) := Fire(6)]

  const ANI_FSM := Fsm(7, {3, 4, 5}, ANI_REACTIONS, true, false, false)

  lemma TableAgrees(ev: AniEv, st: AniSt)
    ensures Target(ANI_FSM, AbsSt(st), AbsEv(ev)) ==
            (if AniTable(ev, st).Some? then Some(AbsSt(AniTable(ev, st).value)) else None)
    ensures forall s, t :: AbsSt(s) == AbsSt(t) ==> s == t
  {
  }

  // ---- the script ----

  /** What the FSM knows when it starts configuring; tcont and alloc come from the MIB and the profile. */
  datatype AniJob = AniJob(
    macBpNo: uint8, entityID: uint16, tpID: uint16, tcont: uint16, alloc: uint16,
    gems: seq<GemAttribs>, policies: OrderedMap, pointers: map<string, Attr>)

  function MapperId(j: AniJob): uint16 { (0x8001 + j.macBpNo + j.tpID) % 0x1_0000 }

  function MbpcdId(j: AniJob): uint16 { (0x2102 + j.entityID + j.tpID) % 0x1_0000 }

  function CreateMapper(j: AniJob): Me { Me(Create, Mapper, MapperId(j), map[]) }

  function CreateMbpcd(j: AniJob): Me {
    Me(Create, Mbpcd, MbpcdId(j),
       map["BridgeIdPointer" := Num(0x201 + j.macBpNo), "PortNum" := Num(0xFF), "TpType" := Num(3),
           "TpPointer" := Num(MapperId(j))])
  }

  function SetTCont(j: AniJob): Me { Me(Set, TCont, j.tcont, map["AllocId" := Num(j.alloc)]) }

  function CreateGemNctp(j: AniJob, g: GemAttribs): Me {
    Me(Create, GemNctp, g.gemPortID,
       map["PortId" := Num(g.gemPortID), "TContPointer" := Num(j.tcont), "Direction" := Num(g.direction),
           "TrafficManagementPointerForUpstream" := Num(g.upQueueID),
           "PriorityQueuePointerForDownStream" := Num(g.downQueueID)])
  }

  function CreateGemIw(j: AniJob, g: GemAttribs): Me {
    Me(Create, GemIw, g.gemPortID,
       map["GemPortNetworkCtpConnectivityPointer" := Num(g.gemPortID), "InterworkingOption" := Num(5),
           "ServiceProfilePointer" := Num(MapperId(j)), "InterworkingTerminationPointPointer" := Num(0),
           "GalProfilePointer" := Num(1)])
  }

  function SetQueue(q: uint16, policy: uint16): Me {
    Me(Set, PriorityQueue, q,
       if policy == STRICT then map["TrafficSchedulerPointer" := Num(0)]
       else map["TrafficSchedulerPointer" := Num(0x8000), "Weight" := Num(policy % 0x100)])
  }

  function SetMapper(j: AniJob): Me { Me(Set, Mapper, MapperId(j), j.pointers) }

  function Nctps(j: AniJob): seq<Me> { seq(|j.gems|, i requires 0 <= i < |j.gems| => CreateGemNctp(j, j.gems[i])) }

  function Iws(j: AniJob): seq<Me> { seq(|j.gems|, i requires 0 <= i < |j.gems| => CreateGemIw(j, j.gems[i])) }

  function QueueSets(j: AniJob): seq<Me> {
    seq(|j.policies|, i requires 0 <= i < |j.policies| => SetQueue(j.policies[i].0, j.policies[i].1))
  }

  /** Without a single p-bit pointer the last state still sends its set, but posts aniEvReset too. */
  function Script(j: AniJob): seq<PhaseScript> {
    [Single(CreateMapper(j)), Single(CreateMbpcd(j)), Single(SetTCont(j)), Multi(Nctps(j)), Multi(Iws(j)),
     Multi(QueueSets(j)), Single(SetMapper(j), j.pointers == map[])]
  }

  /** Everything the ONU has to acknowledge, in order. */
  function Whole(j: AniJob): seq<Me> {
    [CreateMapper(j), CreateMbpcd(j), SetTCont(j)] + Nctps(j) + Iws(j) + QueueSets(j) + [SetMapper(j)]
  }

  lemma FlatScript(j: AniJob)
    ensures Flat(Script(j)) == Whole(j)
  {
    var s := Script(j);
    assert UpTo(s, 3) == [CreateMapper(j), CreateMbpcd(j), SetTCont(j)] by {
      assert UpTo(s, 1) == UpTo(s, 0) + StepsOf(s[0]);
      assert UpTo(s, 2) == UpTo(s, 1) + StepsOf(s[1]);
    }
    assert UpTo(s, 4) == UpTo(s, 3) + Nctps(j);
    assert UpTo(s, 5) == UpTo(s, 4) + Iws(j);
    assert UpTo(s, 6) == UpTo(s, 5) + QueueSets(j);
    assert UpTo(s, 7) == UpTo(s, 6) + [SetMapper(j)];
  }

  lemma Reactions(me: Me)
    requires me.op == (if me.cls == PriorityQueue then Set else Create)
    requires me.cls == GemNctp || me.cls == GemIw || me.cls == PriorityQueue
    ensures MultiOk(ANI_FSM, me) && Answerable(ANI_FSM, me)
  {
  }

  lemma SinglesConform(j: AniJob)
    ensures SingleOk(ANI_FSM, 0, CreateMapper(j)) && Answerable(ANI_FSM, CreateMapper(j))
    ensures SingleOk(ANI_FSM, 1, CreateMbpcd(j)) && Answerable(ANI_FSM, CreateMbpcd(j))
    ensures SingleOk(ANI_FSM, 2, SetTCont(j)) && Answerable(ANI_FSM, SetTCont(j))
    ensures SingleOk(ANI_FSM, 6, SetMapper(j)) && Answerable(ANI_FSM, SetMapper(j))
  {
  }

  lemma ScriptConforms(j: AniJob)
    ensures Conforms(ANI_FSM, Script(j))
    ensures AllAnswerable(ANI_FSM, Whole(j))
  {
    SinglesConform(j);
    forall i | 0 <= i < |j.gems| ensures MultiOk(ANI_FSM, Nctps(j)[i]) && Answerable(ANI_FSM, Nctps(j)[i]) {
      Reactions(Nctps(j)[i]);
    }
    forall i | 0 <= i < |j.gems| ensures MultiOk(ANI_FSM, Iws(j)[i]) && Answerable(ANI_FSM, Iws(j)[i]) {
      Reactions(Iws(j)[i]);
    }
    forall i | 0 <= i < |j.policies| ensures MultiOk(ANI_FSM, QueueSets(j)[i]) && Answerable(ANI_FSM, QueueSets(j)[i]) {
      Reactions(QueueSets(j)[i]);
    }
    hide SingleOk, MultiOk, Answerable, CreateMapper, CreateMbpcd, SetTCont, SetMapper;
    AnswerableConcat(ANI_FSM, [CreateMapper(j), CreateMbpcd(j), SetTCont(j)], Nctps(j));
    AnswerableConcat(ANI_FSM, [CreateMapper(j), CreateMbpcd(j), SetTCont(j)] + Nctps(j), Iws(j));
    AnswerableConcat(ANI_FSM, [CreateMapper(j), CreateMbpcd(j), SetTCont(j)] + Nctps(j) + Iws(j), QueueSets(j));
    AnswerableConcat(
      ANI_FSM, [CreateMapper(j), CreateMbpcd(j), SetTCont(j)] + Nctps(j) + Iws(j) + QueueSets(j), [SetMapper(j)]);
    hide AllAnswerable, Nctps, Iws, QueueSets;
    var s := Script(j);
    forall i | 0 <= i < |s| ensures PhaseOk(ANI_FSM, i, s[i]) {
      assert i == 0 || i == 1 || i == 2 || i == 3 || i == 4 || i == 5 || i == 6;
    }
  }

  // ---- what the configuration consists of ----

  predicate MapperSet(me: Me, op: Op, mapper: uint16, pointers: map<string, Attr>) {
    me == Me(op, Mapper, mapper, pointers)
  }

  /** The bridge port on the ANI side: port 255 of the UNI's bridge, leading to the mapper (type 3). */
  predicate BridgePort(me: Me, inst: uint16, macBpNo: uint8, mapper: uint16) {
    me == Me(Create, Mbpcd, inst,
             map["BridgeIdPointer" := Num(0x201 + macBpNo), "PortNum" := Num(0xFF), "TpType" := Num(3),
                 "TpPointer" := Num(mapper)])
  }

  predicate TContSet(me: Me, tcont: uint16, alloc: uint16) { me == Me(Set, TCont, tcont, map["AllocId" := Num(alloc)]) }

  /** A gem port's connection to the T-Cont, its upstream queue u and its downstream queue d. */
  predicate Ctp(me: Me, gemPortID: uint16, tcont: uint16, direction: uint8, u: uint16, d: uint16) {
    me == Me(Create, GemNctp, gemPortID,
             map["PortId" := Num(gemPortID), "TContPointer" := Num(tcont), "Direction" := Num(direction),
                 "TrafficManagementPointerForUpstream" := Num(u), "PriorityQueuePointerForDownStream" := Num(d)])
  }

  /** A gem port's way to the mapper (option 5), with GAL profile 1. */
  predicate Iwtp(me: Me, gemPortID: uint16, mapper: uint16) {
    me == Me(Create, GemIw, gemPortID,
             map["GemPortNetworkCtpConnectivityPointer" := Num(gemPortID), "InterworkingOption" := Num(5),
                 "ServiceProfilePointer" := Num(mapper), "InterworkingTerminationPointPointer" := Num(0),
                 "GalProfilePointer" := Num(1)])
  }

  predicate StrictQueue(me: Me, q: uint16) {
    me == Me(Set, PriorityQueue, q, map["TrafficSchedulerPointer" := Num(0)])
  }

  predicate WeightedQueue(me: Me, q: uint16, weight: int) {
    me == Me(Set, PriorityQueue, q, map["TrafficSchedulerPointer" := Num(0x8000), "Weight" := Num(weight)])
  }

  /** All requests of a job, in order, with all their attributes. */
  predicate IsSetup(mes: seq<Me>, j: AniJob) {
    var n, q, mapper := |j.gems|, |j.policies|, (0x8001 + j.macBpNo + j.tpID) % 0x1_0000;
    && |mes| == 4 + 2 * n + q
    && MapperSet(mes[0], Create, mapper, map[])
    && BridgePort(mes[1], (0x2102 + j.entityID + j.tpID) % 0x1_0000, j.macBpNo, mapper)
    && TContSet(mes[2], j.tcont, j.alloc)
    && (forall k | 0 <= k < n ::
          var a := j.gems[k];
          && Ctp(mes[3 + k], a.gemPortID, j.tcont, a.direction, a.upQueueID, a.downQueueID)
          && Iwtp(mes[3 + n + k], a.gemPortID, mapper))
    && (forall k | 0 <= k < q ::
          if j.policies[k].1 == 0xFFFF then StrictQueue(mes[3 + 2 * n + k], j.policies[k].0)
          else WeightedQueue(mes[3 + 2 * n + k], j.policies[k].0, j.policies[k].1 % 0x100))
    && MapperSet(mes[3 + 2 * n + q], Set, mapper, j.pointers)
  }

  lemma SinglesAre(j: AniJob)
    ensures var mapper := (0x8001 + j.macBpNo + j.tpID) % 0x1_0000;
            && MapperSet(CreateMapper(j), Create, mapper, map[])
            && BridgePort(CreateMbpcd(j), (0x2102 + j.entityID + j.tpID) % 0x1_0000, j.macBpNo, mapper)
            && TContSet(SetTCont(j), j.tcont, j.alloc)
            && MapperSet(SetMapper(j), Set, mapper, j.pointers)
  {
  }

  lemma ListedAre(j: AniJob, a: GemAttribs, q: uint16, policy: uint16)
    ensures Ctp(CreateGemNctp(j, a), a.gemPortID, j.tcont, a.direction, a.upQueueID, a.downQueueID)
    ensures Iwtp(CreateGemIw(j, a), a.gemPortID, (0x8001 + j.macBpNo + j.tpID) % 0x1_0000)
    ensures if policy == 0xFFFF then StrictQueue(SetQueue(q, policy), q)
            else WeightedQueue(SetQueue(q, policy), q, policy % 0x100)
  {
  }

  /** Where each request stands in the script. */
  lemma Places(j: AniJob, k: nat)
    ensures var n, w := |j.gems|, Whole(j);
            && |w| == 4 + 2 * n + |j.policies|
            && w[0] == CreateMapper(j) && w[1] == CreateMbpcd(j) && w[2] == SetTCont(j) && w[|w| - 1] == SetMapper(j)
            && (k < n ==> w[3 + k] == CreateGemNctp(j, j.gems[k]) && w[3 + n + k] == CreateGemIw(j, j.gems[k]))
            && (k < |j.policies| ==> w[3 + 2 * n + k] == SetQueue(j.policies[k].0, j.policies[k].1))
  {
    hide CreateMapper, CreateMbpcd, SetTCont, SetMapper, CreateGemNctp, CreateGemIw, SetQueue;
  }

  lemma WholeIsSetup(j: AniJob)
    ensures IsSetup(Whole(j), j)
  {
    hide CreateMapper, CreateMbpcd, SetTCont, SetMapper, CreateGemNctp, CreateGemIw, SetQueue, Whole;
    hide MapperSet, BridgePort, TContSet, Ctp, Iwtp, StrictQueue, WeightedQueue;
    SinglesAre(j);
    Places(j, 0);
    var n, w := |j.gems|, Whole(j);
    forall k | 0 <= k < n
      ensures var a := j.gems[k];
              && Ctp(w[3 + k], a.gemPortID, j.tcont, a.direction, a.upQueueID, a.downQueueID)
              && Iwtp(w[3 + n + k], a.gemPortID, (0x8001 + j.macBpNo + j.tpID) % 0x1_0000)
    {
      Places(j, k);
      ListedAre(j, j.gems[k], 0, 0);
    }
    forall k | 0 <= k < |j.policies|
      ensures if j.policies[k].1 == 0xFFFF then StrictQueue(w[3 + 2 * n + k], j.policies[k].0)
              else WeightedQueue(w[3 + 2 * n + k], j.policies[k].0, j.policies[k].1 % 0x100)
    {
      Places(j, k);
      ListedAre(j, NO_ATTRIBS, j.policies[k].0, j.policies[k].1);
    }
  }

  lemma AniTraffic(s0: Sys, j: AniJob, tx: Option<Me>, acts: seq<Act>)
    requires Conserved(s0) && s0.st.Disabled? && Clean(ANI_FSM, s0)
    ensures var s := Run(ANI_FSM, Step(ANI_FSM, s0, Begin(Script(j), tx)), acts);
            s.sessions == s0.sessions + 1 && Live(s.st) ==>
              && s.trace <= Alternating(Whole(j))
              && (s.st.Done? ==> s.trace == Alternating(Whole(j)))
  {
    ScriptConforms(j);
    FlatScript(j);
    hide Conforms, Conserved, Clean, Flat, Whole, Script, Alternating, AllAnswerable;
    CleanSessionSound(ANI_FSM, s0, Script(j), tx, acts);
  }

  /** One ANI session that starts clean, whatever the ONU answers, loses or repeats: it only ever sends along the
      setup, and aniStConfigDone means that the ONU acknowledged, in this order, the mapper, the bridge port,
      the T-Cont, one CTP and one IWTP per gem port, one set per distinct upstream queue and the mapper pointers. */
  lemma AniSessionSound(s0: Sys, j: AniJob, tx: Option<Me>, acts: seq<Act>)
    requires Conserved(s0) && s0.st.Disabled? && Clean(ANI_FSM, s0)
    requires Queues(j.policies) == Mentioned(j.gems)
    ensures var s := Run(ANI_FSM, Step(ANI_FSM, s0, Begin(Script(j), tx)), acts);
            s.sessions == s0.sessions + 1 && Live(s.st) ==>
              && (exists mes :: IsSetup(mes, j) && s.trace <= Alternating(mes))
              && (s.st.Done? ==> IsSetup(AckedMes(s.trace), j) && s.trace == Alternating(AckedMes(s.trace)))
    ensures Distinct(Queues(j.policies))
    ensures forall q :: q in Queues(j.policies) <==> exists k :: 0 <= k < |j.gems| && j.gems[k].upQueueID == q
  {
    AniTraffic(s0, j, tx, acts);
    MentionedOnce(j.gems);
    hide Conserved, Clean, Whole, Script, Alternating, Queues, Mentioned, IsSetup, AckedMes, Run, Step;
    WholeIsSetup(j);
    AckedOfAlternating(Whole(j));
  }

  /** A job without a single p-bit pointer gives up: in its last state the reset is on its way. */
  lemma NoPointersGivesUp(j: AniJob, tx: Option<Me>, acts: seq<Act>)
    requires j.pointers == map[]
    ensures var s := Run(ANI_FSM, Step(ANI_FSM, INIT, Begin(Script(j), tx)), acts);
            s.sessions == 1 && s.st == Phase(6) ==>
              Reset in s.posted && Run(ANI_FSM, s, [FirePosted(Reset), FirePosted(Restart)]).st.Disabled?
  {
    var s1 := Step(ANI_FSM, INIT, Begin(Script(j), tx));
    RunPosts(ANI_FSM, s1, acts);
    ScriptConforms(j);
    assert GivesUp(Script(j)[6]);
    assert Conserved(INIT) && Clean(ANI_FSM, INIT);
    hide Script, Conforms, GivesUp;
    StepConserves(ANI_FSM, INIT, Begin(Script(j), tx));
    assert Alternating([]) == [];
    assert Safe(ANI_FSM, s1, Script(j), 1);
    RunSafe(ANI_FSM, s1, Script(j), 1, acts);
    var s := Run(ANI_FSM, s1, acts);
    if s.sessions == 1 && s.st == Phase(6) {
      hide Run, Step, Located, SkipsPosted;
      ResetDisables(ANI_FSM, s);
    }
  }

  /** aniStConfigDone resets itself: the FSM is disabled again without anybody's help. */
  lemma AniReturns(acts: seq<Act>)
    ensures var s := Run(ANI_FSM, INIT, acts);
            s.st.Done? ==> Reset in s.posted && Run(ANI_FSM, s, [FirePosted(Reset), FirePosted(Restart)]).st.Disabled?
  {
    hide Run;
    if Run(ANI_FSM, INIT, acts).st.Done? { DoneReturns(ANI_FSM, acts); }
  }

  /** Two configurations can follow each other without a reset from outside. */
  lemma AniTwice(first: AniJob, second: AniJob)
    ensures exists a, b, c :: InARow(ANI_FSM, Script(first), Script(second), a, b, c)
  {
    ScriptConforms(first);
    ScriptConforms(second);
    FlatScript(first);
    FlatScript(second);
    hide Conforms, AllAnswerable, Flat, Script, InARow;
    TwoInARow(ANI_FSM, Script(first), Script(second));
  }

  /** Every job can be completed: a session reaches aniStConfigDone when the ONU cooperates. */
  lemma AniCompletable(j: AniJob, tx: Option<Me>)
    ensures exists acts :: ReachesDone(ANI_FSM, Script(j), tx, acts)
  {
    ScriptConforms(j);
    FlatScript(j);
    hide Script, Whole, Flat, AllAnswerable, Conforms, ReachesDone;
    CompletableIffAnswerable(ANI_FSM, Script(j), tx);
  }

  lemma FsmIsRegular()
    ensures Regular(ANI_FSM)
  {
    var j := AniJob(0, 0, 0, 0, 0, [], [], map[]);
    SinglesConform(j);
    Reactions(MeOf(Create, GemIw, 0));
    assert HandMe(ANI_FSM, MeOf(Create, GemIw, 0)) && 3 in ANI_FSM.multi;
    forall i: nat | i < ANI_FSM.phases ensures PhaseUsable(ANI_FSM, i) {
      assert i == 0 || i == 1 || i == 2 || i == 3 || i == 4 || i == 5 || i == 6;
    }
    forall op, cls ensures ReactionUsable(ANI_FSM, op, cls) {
      if React(ANI_FSM, op, cls).Hand? { assert HandMe(ANI_FSM, MeOf(op, cls, 0)); }
    }
  }
}
