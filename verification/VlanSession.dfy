/** Configuring the VLAN handling of a UNI: the FSM of omci_vlan_config.go. */
module VlanSession {
  import opened Types
  import opened Session
  import opened SessionLoops
  import opened SessionSafety
  import opened SessionTheorems
  import opened SessionProgress
  import opened SessionExact
  import opened SessionCycle
  import opened VlanCompile

  // ---- the table as written ----

  datatype VlanSt =
    | StDisabled | StStarting | StWaitingTechProf | StConfigVtfd | StConfigEvtocd | StConfigDone
    | StCleanEvtocd | StCleanVtfd | StCleanupDone | StResetting

  datatype VlanEv =
    | EvStart | EvWaitTechProf | EvContinueConfig | EvStartConfig | EvRxConfigVtfd | EvRxConfigEvtocd
    | EvReset | EvRestart

  function VlanTable(ev: VlanEv, st: VlanSt): Option<VlanSt> {
    match ev
    case EvStart => if st == StDisabled then Some(StStarting) else None
    case EvWaitTechProf => if st == StStarting then Some(StWaitingTechProf) else None
    case EvContinueConfig => if st == StWaitingTechProf then Some(StConfigVtfd) else None
    case EvStartConfig => if st == StStarting then Some(StConfigVtfd) else None
    case EvRxConfigVtfd => if st == StConfigVtfd then Some(StConfigEvtocd) else None
    case EvRxConfigEvtocd => if st == StConfigEvtocd then Some(StConfigDone) else None
    case EvReset => if st != StDisabled && st != StResetting then Some(StResetting) else None
    case EvRestart => if st == StResetting then Some(StDisabled) else None
  }

  /** The cleanup states have rows out, but none in. */
  predicate Cleanup(st: VlanSt) { st == StCleanEvtocd || st == StCleanVtfd || st == StCleanupDone }

  function AbsSt(st: VlanSt): St
    requires !Cleanup(st)
  {
    match st
    case StDisabled => Disabled
    case StStarting => Starting
    case StWaitingTechProf => Waiting
    case StConfigVtfd => Phase(0)
    case StConfigEvtocd => Phase(1)
    case StConfigDone => Done
    case StResetting => Resetting
  }

  function AbsEv(ev: VlanEv): Ev {
    match ev
    case EvStart => Start
    case EvWaitTechProf => WaitTechProf
    case EvContinueConfig => Continue
    case EvStartConfig => StartConfig
    case EvRxConfigVtfd => Advance(0)
    case EvRxConfigEvtocd => Advance(1)
    case EvReset => Reset
    case EvRestart => Restart
  }

  const VLAN_REACTIONS: map<(Op, ClassId), Reaction> := map[(Create, Vtfd) := Fire(0), (Set, Evtocd) := Hand]

  const VLAN_FSM := Fsm(2, {1}, VLAN_REACTIONS, false, true, false)

  /** Outside the cleanup states, which no run reaches, the table is an instance of the generic one. */
  lemma TableAgrees(ev: VlanEv, st: VlanSt)
    ensures VlanTable(ev, st).Some? ==> !Cleanup(VlanTable(ev, st).value)
    ensures !Cleanup(st) ==>
              Target(VLAN_FSM, AbsSt(st), AbsEv(ev)) ==
              (if VlanTable(ev, st).Some? then Some(AbsSt(VlanTable(ev, st).value)) else None)
    ensures forall s, t | !Cleanup(s) && !Cleanup(t) :: AbsSt(s) == AbsSt(t) ==> s == t
  {
  }

  // ---- the script ----

  datatype VlanJob = VlanJob(macBpNo: uint8, entityID: uint16, tpID: uint16, cfg: Cfg)

  predicate ValidJob(j: VlanJob) { InRange(j.cfg) }

  function VtfdId(j: VlanJob): uint16 { (0x2102 + j.entityID + j.tpID) % 0x1_0000 }

  function EvtocdId(j: VlanJob): uint16 { 0x201 + j.macBpNo }

  /** Twelve filter entries of two octets, the first of them the VID. */
  function VlanFilterList(vid: uint16): seq<uint8> {
    [vid / 0x100, vid % 0x100] + seq(22, _ => 0)
  }

  function CreateVtfd(j: VlanJob): Me {
    Me(Create, Vtfd, VtfdId(j),
       map["VlanFilterList" := Octets(VlanFilterList(j.cfg.setVid)), "ForwardOperation" := Num(0x10),
           "NumberOfEntries" := Num(1)])
  }

  function SetTpids(j: VlanJob): Me {
    Me(Set, Evtocd, EvtocdId(j),
       map["InputTpid" := Num(0x8100), "OutputTpid" := Num(0x8100), "DownstreamMode" := Num(0)])
  }

  function SetEntry(j: VlanJob, entry: seq<uint8>): Me {
    Me(Set, Evtocd, EvtocdId(j), map["ReceivedFrameVlanTaggingOperationTable" := Octets(entry)])
  }

  function EntrySets(j: VlanJob, entries: seq<seq<uint8>>): seq<Me> {
    seq(|entries|, i requires 0 <= i < |entries| => SetEntry(j, entries[i]))
  }

  function EvtocdSets(j: VlanJob): seq<Me>
    requires ValidJob(j)
  {
    [SetTpids(j)] + EntrySets(j, Encoded(j.cfg))
  }

  /** A transparent setup needs no VLAN filter: that state is passed without a request. */
  function FilterStep(j: VlanJob): PhaseScript {
    if j.cfg.setVid == VlanFlow.VID_PRESENT then Skip else Single(CreateVtfd(j))
  }

  function Script(j: VlanJob): seq<PhaseScript>
    requires ValidJob(j)
  {
    [FilterStep(j), Multi(EvtocdSets(j))]
  }

  function Whole(j: VlanJob): seq<Me>
    requires ValidJob(j)
  {
    StepsOf(FilterStep(j)) + EvtocdSets(j)
  }

  lemma FlatScript(j: VlanJob)
    requires ValidJob(j)
    ensures Flat(Script(j)) == Whole(j)
  {
    var s := Script(j);
    assert UpTo(s, 1) == UpTo(s, 0) + StepsOf(s[0]) == StepsOf(FilterStep(j));
    assert UpTo(s, 2) == UpTo(s, 1) + StepsOf(s[1]);
  }

  lemma SetsConform(me: Me)
    requires me.op == Set && me.cls == Evtocd
    ensures MultiOk(VLAN_FSM, me) && Answerable(VLAN_FSM, me)
  {
  }

  lemma FilterConforms(j: VlanJob)
    ensures SingleOk(VLAN_FSM, 0, CreateVtfd(j)) && Answerable(VLAN_FSM, CreateVtfd(j))
  {
  }

  lemma ScriptConforms(j: VlanJob)
    requires ValidJob(j)
    ensures Conforms(VLAN_FSM, Script(j)) && AllAnswerable(VLAN_FSM, Whole(j))
  {
    hide SingleOk, MultiOk, Answerable, CreateVtfd, Encoded;
    FilterConforms(j);
    forall i | 0 <= i < |EvtocdSets(j)|
      ensures MultiOk(VLAN_FSM, EvtocdSets(j)[i]) && Answerable(VLAN_FSM, EvtocdSets(j)[i])
    {
      SetsConform(EvtocdSets(j)[i]);
    }
    hide EvtocdSets;
    AnswerableConcat(VLAN_FSM, StepsOf(FilterStep(j)), EvtocdSets(j));
  }

  lemma CleanInit()
    ensures Conserved(INIT) && Clean(VLAN_FSM, INIT) && INIT.st.Disabled? && INIT.sessions == 0
  {
  }

  // ---- what the setup consists of ----

  /** The filter lets the new VID pass; twelve entries of two octets, the others unused. */
  predicate IsFilter(me: Me, j: VlanJob) {
    me == Me(Create, Vtfd, (0x2102 + j.entityID + j.tpID) % 0x1_0000,
             map["VlanFilterList" := Octets([j.cfg.setVid / 0x100, j.cfg.setVid % 0x100] + seq(22, _ => 0)),
                 "ForwardOperation" := Num(0x10), "NumberOfEntries" := Num(1)])
  }

  predicate IsTpids(me: Me, j: VlanJob) {
    me == Me(Set, Evtocd, 0x201 + j.macBpNo,
             map["InputTpid" := Num(0x8100), "OutputTpid" := Num(0x8100), "DownstreamMode" := Num(0)])
  }

  predicate IsEntry(me: Me, j: VlanJob, octets: seq<uint8>) {
    me == Me(Set, Evtocd, 0x201 + j.macBpNo, map["ReceivedFrameVlanTaggingOperationTable" := Octets(octets)])
  }

  /** The filter unless transparent (VID 0x1000), the TPIDs and the table entries, in this order. */
  predicate IsSetup(mes: seq<Me>, j: VlanJob)
    requires ValidJob(j)
  {
    var n := if j.cfg.setVid == 0x1000 then 0 else 1;
    && |mes| == n + 1 + |Encoded(j.cfg)|
    && (n == 1 ==> IsFilter(mes[0], j))
    && IsTpids(mes[n], j)
    && forall k | 0 <= k < |Encoded(j.cfg)| :: IsEntry(mes[n + 1 + k], j, Encoded(j.cfg)[k])
  }

  lemma WholeIsSetup(j: VlanJob)
    requires ValidJob(j)
    ensures IsSetup(Whole(j), j)
  {
    hide Encoded;
    FilterIs(j);
    hide CreateVtfd, IsFilter;
  }

  lemma FilterIs(j: VlanJob)
    ensures IsFilter(CreateVtfd(j), j)
  {
  }

  lemma VlanTraffic(j: VlanJob, tx: Option<Me>, acts: seq<Act>)
    requires ValidJob(j)
    ensures var s := Run(VLAN_FSM, Step(VLAN_FSM, INIT, Begin(Script(j), tx)), acts);
            s.sessions == 1 && Live(s.st) ==>
              && s.trace <= Alternating(Whole(j))
              && (s.st.Done? ==> s.trace == Alternating(Whole(j)))
  {
    ScriptConforms(j);
    FlatScript(j);
    CleanInit();
    hide Script, Whole, Flat, Run, Step, Conforms, Conserved, Clean, AllAnswerable, Alternating;
    CleanSessionSound(VLAN_FSM, INIT, Script(j), tx, acts);
  }

  /** A VLAN FSM is thrown away after its first session, so nothing older can interfere: what it
      sent and got acknowledged is an initial part of the filter (unless transparent), the TPIDs and
      the table entries in order, and vlanStConfigDone means all of them. */
  lemma VlanSound(j: VlanJob, tx: Option<Me>, acts: seq<Act>)
    requires ValidJob(j)
    ensures var s := Run(VLAN_FSM, Step(VLAN_FSM, INIT, Begin(Script(j), tx)), acts);
            s.sessions == 1 && Live(s.st) ==>
              && (exists mes :: IsSetup(mes, j) && s.trace <= Alternating(mes))
              && (s.st.Done? ==> IsSetup(AckedMes(s.trace), j) && s.trace == Alternating(AckedMes(s.trace)))
  {
    VlanTraffic(j, tx, acts);
    hide Run, Step, Script, Whole, Alternating, AckedMes, IsSetup;
    WholeIsSetup(j);
    AckedOfAlternating(Whole(j));
  }

  /** Nothing but a reset from outside ends vlanStConfigDone: the configuration stays. */
  lemma VlanStaysDone(j: VlanJob, tx: Option<Me>, acts: seq<Act>, a: Act)
    requires ValidJob(j) && !a.ExternalReset?
    ensures var s := Run(VLAN_FSM, Step(VLAN_FSM, INIT, Begin(Script(j), tx)), acts);
            s.sessions == 1 && s.st.Done? ==> Reset !in s.posted && Step(VLAN_FSM, s, a).st.Done?
  {
    ScriptConforms(j);
    forall p | p in Script(j) ensures !GivesUp(p) {}
    hide Script, Run, Step, Conforms;
    StaysDone(VLAN_FSM, Script(j), tx, acts, a);
  }

  lemma Interrupted(script: seq<PhaseScript>, tx: Option<Me>) returns (s: Sys, b: Sys)
    ensures s == Run(VLAN_FSM, INIT, [Begin(script, tx), TechProfMissing]) && s.st.Waiting? && s.trace == []
    ensures Step(VLAN_FSM, s, TechProfDone) == Enter(VLAN_FSM, b)
    ensures Ready(b, script, 1) && b.runners == [] && b.st == Phase(0)
  {
    var s0 := Step(VLAN_FSM, INIT, Begin(script, tx));
    s := Step(VLAN_FSM, s0, TechProfMissing);
    assert s0.posted - multiset{StartConfig} == multiset{};
    b := s.(st := Phase(0));
    hide Run;
    RunTwo(VLAN_FSM, INIT, Begin(script, tx), TechProfMissing);
  }

  /** Without a tech profile the session waits, and sends nothing; when the ANI side is done it continues
      with its first request, and can be completed. */
  lemma VlanWaits(j: VlanJob, tx: Option<Me>)
    requires ValidJob(j)
    ensures var s := Run(VLAN_FSM, INIT, [Begin(Script(j), tx), TechProfMissing]);
            && s.st.Waiting? && s.trace == []
            && exists acts :: var t := Run(VLAN_FSM, s, [TechProfDone] + acts); t.st.Done? && t.sessions == 1
  {
    ScriptConforms(j);
    FlatScript(j);
    assert Script(j) != [];
    hide Script, Whole, Flat, AllAnswerable, Conforms, Step, Enter, VLAN_FSM;
    var s, b := Interrupted(Script(j), tx);
    var acts, d := PhasesComplete(VLAN_FSM, b, Script(j), 1, 0);
    EnterKeepsState(VLAN_FSM, d);
    assert ([TechProfDone] + acts)[1..] == acts;
    assert Run(VLAN_FSM, s, [TechProfDone] + acts) == Enter(VLAN_FSM, d);
  }

  /** While it waits, nothing has been sent, and only the report of the ANI side or a reset goes on. */
  lemma WaitingSendsNothing(j: VlanJob, tx: Option<Me>, acts: seq<Act>)
    requires ValidJob(j)
    ensures var s := Run(VLAN_FSM, Step(VLAN_FSM, INIT, Begin(Script(j), tx)), acts);
            s.sessions == 1 && s.st.Waiting? ==> s.trace == [] && Step(VLAN_FSM, s, TechProfDone).st == Phase(0)
  {
    ScriptConforms(j);
    CleanInit();
    var s1 := Step(VLAN_FSM, INIT, Begin(Script(j), tx));
    StepConserves(VLAN_FSM, INIT, Begin(Script(j), tx));
    assert Alternating([]) == [];
    hide Script, Conforms;
    assert Safe(VLAN_FSM, s1, Script(j), 1);
    RunSafe(VLAN_FSM, s1, Script(j), 1, acts);
  }

  lemma VlanCompletable(j: VlanJob, tx: Option<Me>)
    requires ValidJob(j)
    ensures exists acts :: ReachesDone(VLAN_FSM, Script(j), tx, acts)
  {
    ScriptConforms(j);
    FlatScript(j);
    hide Script, Whole, Flat, AllAnswerable, Conforms, ReachesDone;
    CompletableIffAnswerable(VLAN_FSM, Script(j), tx);
  }

  lemma FsmIsRegular()
    ensures Regular(VLAN_FSM)
  {
    FilterConforms(VlanJob(0, 0, 0, Cfg(false, 0, 0, 0, 0, 0)));
    SetsConform(MeOf(Set, Evtocd, 0));
    assert HandMe(VLAN_FSM, MeOf(Set, Evtocd, 0)) && 1 in VLAN_FSM.multi;
    forall op, cls ensures ReactionUsable(VLAN_FSM, op, cls) {
      if React(VLAN_FSM, op, cls).Hand? { assert HandMe(VLAN_FSM, MeOf(op, cls, 0)); }
    }
  }
}
