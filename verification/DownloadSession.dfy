/** The initial MIB download: mib_download.go and its table in onu_device_entry.go. */
module DownloadSession {
  import opened Types
  import opened Session
  import opened SessionLoops
  import opened SessionSafety
  import opened SessionTheorems
  import opened SessionProgress
  import opened SessionExact
  import opened SessionCycle

  // ---- the table as written ----

  datatype DlSt =
    | StDisabled | StStarting | StCreatingGal | StSettingOnu2g | StBridgeInit | StDownloaded | StResetting

  datatype DlEv =
    | EvStart | EvCreateGal | EvRxGalResp | EvRxOnu2gResp | EvRxBridgeResp
    | EvTimeoutSimple | EvTimeoutBridge | EvReset | EvRestart

  function DlTable(ev: DlEv, st: DlSt): Option<DlSt> {
    match ev
    case EvStart => if st == StDisabled then Some(StStarting) else None
    case EvCreateGal => if st == StStarting then Some(StCreatingGal) else None
    case EvRxGalResp => if st == StCreatingGal then Some(StSettingOnu2g) else None
    case EvRxOnu2gResp => if st == StSettingOnu2g then Some(StBridgeInit) else None
    case EvRxBridgeResp => if st == StBridgeInit then Some(StDownloaded) else None
    case EvTimeoutSimple => if st in {StCreatingGal, StSettingOnu2g} then Some(StStarting) else None
    case EvTimeoutBridge => if st == StBridgeInit then Some(StStarting) else None
    case EvReset =>
      if st in {StStarting, StCreatingGal, StSettingOnu2g, StBridgeInit, StDownloaded} then Some(StResetting) else None
    case EvRestart =>
      if st in {StStarting, StCreatingGal, StSettingOnu2g, StBridgeInit, StDownloaded, StResetting}
      then Some(StDisabled) else None
  }

  function AbsSt(st: DlSt): St {
    match st
    case StDisabled => Disabled
    case StStarting => Starting
    case StCreatingGal => Phase(0)
    case StSettingOnu2g => Phase(1)
    case StBridgeInit => Phase(2)
    case StDownloaded => Done
    case StResetting => Resetting
  }

  function AbsEv(ev: DlEv): Ev {
    match ev
    case EvStart => Start
    case EvCreateGal => StartConfig
    case EvRxGalResp => Advance(0)
    case EvRxOnu2gResp => Advance(1)
    case EvRxBridgeResp => Advance(2)
    case EvTimeoutSimple => TimeoutSimple
    case EvTimeoutBridge => TimeoutMulti
    case EvReset => Reset
    case EvRestart => Restart
  }

  const DL_REACTIONS: map<(Op, ClassId), Reaction> :=
    map[(Create, Gal) := Fire(0), (Create, Mbsp) := Hand, (Create, Mbpcd) := Hand, (Create, Evtocd) := Hand,
        (Set, Onu2G) := Fire(1)]

  const DL_FSM := Fsm(3, {2}, DL_REACTIONS, true, false, true)

  lemma TableAgrees(ev: DlEv, st: DlSt)
    ensures Target(DL_FSM, AbsSt(st), AbsEv(ev)) ==
            (if DlTable(ev, st).Some? then Some(AbsSt(DlTable(ev, st).value)) else None)
    ensures forall s, t :: AbsSt(s) == AbsSt(t) ==> s == t
  {
  }

  // ---- the script ----

  datatype UniPort = UniPort(macBpNo: uint8, portType: uint8, entityID: uint16)

  const UNI_VEIP: uint8 := 11

  const CREATE_GAL := Me(Create, Gal, 1, map["MaximumGemPayloadSize" := Num(48)])
  const SET_ONU2G := Me(Set, Onu2G, 0, map["CurrentConnectivityMode" := Num(5)])

  function CreateMbsp(p: UniPort): Me {
    Me(Create, Mbsp, 0x201 + p.macBpNo,
       map["Priority" := Num(0x8000), "MaxAge" := Num(20 * 256), "HelloTime" := Num(2 * 256),
           "ForwardDelay" := Num(15 * 256)])
  }

  function CreateMbpcd(p: UniPort): Me {
    Me(Create, Mbpcd, (0x2102 + p.entityID) % 0x1_0000,
       map["BridgeIdPointer" := Num(0x201 + p.macBpNo), "PortNum" := Num(p.macBpNo), "TpType" := Num(p.portType),
           "TpPointer" := Num(p.entityID)])
  }

  function CreateEvtocd(p: UniPort): Me {
    Me(Create, Evtocd, 0x201 + p.macBpNo,
       map["AssociationType" := Num(if p.portType == UNI_VEIP then 10 else 2),
           "AssociatedMePointer" := Num(p.entityID)])
  }

  function BridgeSteps(p: UniPort): seq<Me> { [CreateMbsp(p), CreateMbpcd(p), CreateEvtocd(p)] }

  /** The port loop, for one iteration order of the port map. */
  function BridgeSetup(ports: seq<UniPort>): seq<Me> {
    if ports == [] then [] else BridgeSteps(ports[0]) + BridgeSetup(ports[1..])
  }

  function Script(ports: seq<UniPort>): seq<PhaseScript> {
    [Single(CREATE_GAL), Single(SET_ONU2G), Multi(BridgeSetup(ports))]
  }

  function Whole(ports: seq<UniPort>): seq<Me> { [CREATE_GAL, SET_ONU2G] + BridgeSetup(ports) }

  lemma FlatScript(ports: seq<UniPort>)
    ensures Flat(Script(ports)) == Whole(ports)
  {
    var s := Script(ports);
    assert UpTo(s, 1) == UpTo(s, 0) + StepsOf(s[0]);
    assert UpTo(s, 2) == UpTo(s, 1) + StepsOf(s[1]);
    assert UpTo(s, 3) == UpTo(s, 2) + StepsOf(s[2]);
  }

  lemma BridgeStepOk(me: Me)
    requires me.op == Create && (me.cls == Mbsp || me.cls == Mbpcd || me.cls == Evtocd)
    ensures MultiOk(DL_FSM, me) && Answerable(DL_FSM, me)
  {
  }

  lemma {:induction false} BridgeSetupOk(ports: seq<UniPort>)
    ensures forall j | 0 <= j < |BridgeSetup(ports)| :: MultiOk(DL_FSM, BridgeSetup(ports)[j])
    ensures AllAnswerable(DL_FSM, BridgeSetup(ports))
  {
    if ports != [] {
      BridgeSetupOk(ports[1..]);
      BridgeStepOk(CreateMbsp(ports[0]));
      BridgeStepOk(CreateMbpcd(ports[0]));
      BridgeStepOk(CreateEvtocd(ports[0]));
      hide MultiOk, Answerable, CreateMbsp, CreateMbpcd, CreateEvtocd;
      AnswerableConcat(DL_FSM, BridgeSteps(ports[0]), BridgeSetup(ports[1..]));
    }
  }

  /** Bridge setup creates the three MEs of every port, each port's in the order MBSP, MBPCD, EVTOCD. */
  lemma {:induction false} BridgeSetupPerPort(ports: seq<UniPort>, k: nat)
    requires k < |ports|
    ensures |BridgeSetup(ports)| == 3 * |ports|
    ensures BridgeSetup(ports)[3 * k..3 * k + 3] == BridgeSteps(ports[k])
  {
    if |ports| == 1 {
      assert BridgeSetup(ports[1..]) == [];
    } else {
      BridgeSetupPerPort(ports[1..], if k == 0 then 0 else k - 1);
      if k > 0 {
        assert BridgeSetup(ports)[3 * k..3 * k + 3] == BridgeSetup(ports[1..])[3 * (k - 1)..3 * (k - 1) + 3];
      }
    }
  }

  lemma SinglesConform()
    ensures SingleOk(DL_FSM, 0, CREATE_GAL) && SingleOk(DL_FSM, 1, SET_ONU2G)
    ensures AllAnswerable(DL_FSM, [CREATE_GAL, SET_ONU2G])
  {
  }

  lemma ScriptConforms(ports: seq<UniPort>)
    ensures Conforms(DL_FSM, Script(ports)) && AllAnswerable(DL_FSM, Whole(ports))
  {
    hide SingleOk, MultiOk, Answerable, BridgeSetup, React;
    SinglesConform();
    BridgeSetupOk(ports);
    AnswerableConcat(DL_FSM, [CREATE_GAL, SET_ONU2G], BridgeSetup(ports));
  }

  ghost predicate DownloadBegins(acts: seq<Act>) {
    forall i | 0 <= i < |acts| && acts[i].Begin? :: exists ports :: acts[i].script == Script(ports)
  }

  // ---- what the download consists of ----

  /** The requests of one UNI port: the bridge, its port and the VLAN tagging table, with all their attributes. */
  predicate PortRequests(mbsp: Me, mbpcd: Me, evtocd: Me, p: UniPort) {
    && mbsp == Me(Create, Mbsp, 0x201 + p.macBpNo,
                  map["Priority" := Num(0x8000), "MaxAge" := Num(0x1400), "HelloTime" := Num(0x200),
                      "ForwardDelay" := Num(0xF00)])
    && mbpcd == Me(Create, Mbpcd, (0x2102 + p.entityID) % 0x1_0000,
                   map["BridgeIdPointer" := Num(0x201 + p.macBpNo), "PortNum" := Num(p.macBpNo),
                       "TpType" := Num(p.portType), "TpPointer" := Num(p.entityID)])
    && evtocd == Me(Create, Evtocd, 0x201 + p.macBpNo,
                    map["AssociationType" := Num(if p.portType == 11 then 10 else 2),
                        "AssociatedMePointer" := Num(p.entityID)])
  }

  /** The GAL profile, the connectivity mode and the requests of every port, in this order. */
  predicate IsDownload(mes: seq<Me>, ports: seq<UniPort>) {
    && |mes| == 2 + 3 * |ports|
    && mes[0] == Me(Create, Gal, 1, map["MaximumGemPayloadSize" := Num(48)])
    && mes[1] == Me(Set, Onu2G, 0, map["CurrentConnectivityMode" := Num(5)])
    && forall k | 0 <= k < |ports| :: PortRequests(mes[3 * k + 2], mes[3 * k + 3], mes[3 * k + 4], ports[k])
  }

  lemma StepsOfPort(p: UniPort)
    ensures PortRequests(BridgeSteps(p)[0], BridgeSteps(p)[1], BridgeSteps(p)[2], p)
  {
  }

  lemma WholeIsDownload(ports: seq<UniPort>)
    ensures IsDownload(Whole(ports), ports)
  {
    hide PortRequests, BridgeSteps, BridgeSetup;
    BridgeSetupLength(ports);
    var w := Whole(ports);
    forall k | 0 <= k < |ports| ensures PortRequests(w[3 * k + 2], w[3 * k + 3], w[3 * k + 4], ports[k]) {
      BridgeSetupPerPort(ports, k);
      StepsOfPort(ports[k]);
      var here := BridgeSetup(ports)[3 * k..3 * k + 3];
      assert w[3 * k + 2] == here[0] && w[3 * k + 3] == here[1] && w[3 * k + 4] == here[2];
    }
  }

  lemma BridgeSetupLength(ports: seq<UniPort>)
    ensures |BridgeSetup(ports)| == 3 * |ports|
  {
    if ports != [] { BridgeSetupPerPort(ports, 0); }
  }

  /** The FSM works on the download of these ports: what was sent and acknowledged is an initial part of
      its traffic; Done means all of it. */
  ghost predicate Downloads(s: Sys, ports: seq<UniPort>) {
    && s.script == Script(ports)
    && (exists mes :: IsDownload(mes, ports) && s.trace <= Alternating(mes))
    && (s.st.Done? ==> IsDownload(AckedMes(s.trace), ports) && s.trace == Alternating(AckedMes(s.trace)))
  }

  lemma DownloadsWhole(s: Sys, ports: seq<UniPort>)
    requires s.script == Script(ports) && s.trace <= Alternating(Whole(ports))
    requires s.st.Done? ==> s.trace == Alternating(Whole(ports))
    ensures Downloads(s, ports)
  {
    hide Script, Whole, Alternating, IsDownload, AckedMes;
    WholeIsDownload(ports);
    AckedOfAlternating(Whole(ports));
  }

  ghost predicate HasScript(s: Sys) { s.sessions > 0 ==> exists ports :: s.script == Script(ports) }

  lemma FireKeepsScript(s: Sys, ev: Ev)
    requires !ev.Start? && !ev.TimeoutSimple? && !ev.TimeoutMulti?
    ensures FireEvent(DL_FSM, s, ev).script == s.script && FireEvent(DL_FSM, s, ev).sessions == s.sessions
  {
  }

  lemma StepKeepsScript(s: Sys, a: Act)
    requires Conserved(s) && HasScript(s) && (a.Begin? ==> exists ports :: a.script == Script(ports))
    ensures HasScript(Step(DL_FSM, s, a))
  {
    hide FireEvent, Script;
    match a
    case Begin(script, tx) =>
      if s.st.Disabled? {
        assert FireEvent(DL_FSM, s.(script := script, lastTx := tx), Start).script == script by {
          BeginKeepsScript(s, a);
        }
      }
    case FirePosted(ev) => if ev in s.posted { FireKeepsScript(s.(posted := s.posted - multiset{ev}), ev); }
    case ExternalReset => FireKeepsScript(s, Reset);
    case Take =>
      if s.chan != [] && s.chan[0].Resp? && s.lastTx.Some? {
        var x := React(DL_FSM, s.chan[0].op, s.lastTx.value.cls);
        if x.Fire? { FireKeepsScript(s.(chan := s.chan[1..]), Advance(x.i)); }
      }
    case Go(r) =>
      if r < |s.runners| { FireKeepsScript(s.(runners := RemoveAt(s.runners, r)), Advance(s.runners[r].phase)); }
    case Expire(r) => if r < |s.runners| { FireKeepsScript(s.(runners := RemoveAt(s.runners, r)), Reset); }
    case _ =>
  }

  lemma BeginKeepsScript(s: Sys, a: Act)
    requires a.Begin?
    ensures FireEvent(DL_FSM, s.(script := a.script, lastTx := a.tx), Start).script == a.script
  {
  }

  lemma {:induction false} RunKeepsScript(s: Sys, acts: seq<Act>)
    requires Conserved(s) && HasScript(s) && DownloadBegins(acts)
    ensures HasScript(Run(DL_FSM, s, acts))
    decreases |acts|
  {
    hide Step, Conserved, HasScript, Script;
    if acts != [] {
      StepKeepsScript(s, acts[0]);
      StepConserves(DL_FSM, s, acts[0]);
      assert forall i | 0 <= i < |acts[1..]| :: acts[1..][i] == acts[i + 1];
      RunKeepsScript(Step(DL_FSM, s, acts[0]), acts[1..]);
    }
  }

  lemma {:induction false} LiveHasBegun(s: Sys, acts: seq<Act>)
    requires Conserved(s) && (Live(s.st) ==> s.sessions > 0)
    ensures Live(Run(DL_FSM, s, acts).st) ==> Run(DL_FSM, s, acts).sessions > 0
    decreases |acts|
  {
    if acts != [] {
      StepConserves(DL_FSM, s, acts[0]);
      LiveNeedsStart(s, acts[0]);
      hide Step, Conserved;
      LiveHasBegun(Step(DL_FSM, s, acts[0]), acts[1..]);
    }
  }

  lemma LiveNeedsStart(s: Sys, a: Act)
    requires Conserved(s) && (Live(s.st) ==> s.sessions > 0)
    ensures Live(Step(DL_FSM, s, a).st) ==> Step(DL_FSM, s, a).sessions > 0
  {
    StepFollows(DL_FSM, s, a);
    hide Step;
  }

  /** The first download of a device entry's life, under any interference: what was sent and
      acknowledged is an initial part of GAL, ONU2-G and the bridge setup of every port, each
      acknowledged before the next is sent, and dlStDownloaded means all of it. */
  lemma DownloadSound(acts: seq<Act>)
    requires DownloadBegins(acts)
    ensures var s := Run(DL_FSM, INIT, acts);
            s.sessions <= 1 && Live(s.st) ==> exists ports :: Downloads(s, ports)
  {
    forall i | 0 <= i < |acts| && acts[i].Begin? ensures Conforms(DL_FSM, acts[i].script) {
      var ports :| acts[i].script == Script(ports);
      ScriptConforms(ports);
    }
    FirstSessionSound(DL_FSM, acts);
    RunKeepsScript(INIT, acts);
    LiveHasBegun(INIT, acts);
    var s := Run(DL_FSM, INIT, acts);
    hide Run, Alternating, Script, Whole, Flat;
    if s.sessions <= 1 && Live(s.st) {
      var ports :| s.script == Script(ports);
      FlatScript(ports);
      DownloadsWhole(s, ports);
    }
  }

  /** The download that is started with these ports is the one of these ports. */
  lemma DownloadOfPorts(ports: seq<UniPort>, tx: Option<Me>, acts: seq<Act>)
    ensures var s := Run(DL_FSM, Step(DL_FSM, INIT, Begin(Script(ports), tx)), acts);
            s.sessions == 1 && Live(s.st) ==>
              && (exists mes :: IsDownload(mes, ports) && s.trace <= Alternating(mes))
              && (s.st.Done? ==> IsDownload(AckedMes(s.trace), ports) && s.trace == Alternating(AckedMes(s.trace)))
  {
    ScriptConforms(ports);
    FlatScript(ports);
    assert Conserved(INIT) && Clean(DL_FSM, INIT) && INIT.st.Disabled? && INIT.sessions == 0;
    hide Script, Whole, Flat, Run, Step, Conforms, Conserved, Clean, AllAnswerable, Alternating, IsDownload, AckedMes;
    CleanSessionSound(DL_FSM, INIT, Script(ports), tx, acts);
    WholeIsDownload(ports);
    AckedOfAlternating(Whole(ports));
  }

  /** dlStDownloaded resets itself: the FSM is disabled again without anybody's help. */
  lemma DownloadReturns(acts: seq<Act>)
    ensures var s := Run(DL_FSM, INIT, acts);
            s.st.Done? ==> Reset in s.posted && Run(DL_FSM, s, [FirePosted(Reset), FirePosted(Restart)]).st.Disabled?
  {
    hide Run;
    if Run(DL_FSM, INIT, acts).st.Done? { DoneReturns(DL_FSM, acts); }
  }

  /** Two downloads can follow each other without a reset from outside. */
  lemma DownloadTwice(first: seq<UniPort>, second: seq<UniPort>)
    ensures exists a, b, c :: InARow(DL_FSM, Script(first), Script(second), a, b, c)
  {
    ScriptConforms(first);
    ScriptConforms(second);
    FlatScript(first);
    FlatScript(second);
    hide Conforms, AllAnswerable, Flat, Script, InARow;
    TwoInARow(DL_FSM, Script(first), Script(second));
  }

  lemma DownloadCompletable(ports: seq<UniPort>, tx: Option<Me>)
    ensures exists acts :: ReachesDone(DL_FSM, Script(ports), tx, acts)
  {
    ScriptConforms(ports);
    FlatScript(ports);
    hide Script, Whole, Flat, AllAnswerable, Conforms, ReachesDone;
    CompletableIffAnswerable(DL_FSM, Script(ports), tx);
  }

  lemma FsmIsRegular()
    ensures Regular(DL_FSM)
  {
    SinglesConform();
    BridgeStepOk(MeOf(Create, Mbsp, 0));
    assert HandMe(DL_FSM, MeOf(Create, Mbsp, 0)) && 2 in DL_FSM.multi;
    forall op, cls ensures ReactionUsable(DL_FSM, op, cls) {
      if React(DL_FSM, op, cls).Hand? { assert HandMe(DL_FSM, MeOf(op, cls, 0)); }
    }
  }
}
