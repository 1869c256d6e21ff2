/** Locking and unlocking the UNI ports: uniportadmin.go. */
module LockSession {
  import opened Types
  import opened Session
  import opened SessionLoops
  import opened SessionSafety
  import opened SessionTheorems
  import opened SessionProgress
  import opened SessionExact
  import opened SessionCycle

  // ---- the tables as written ----

  datatype UniSt = StDisabled | StStarting | StSettingUnis | StSettingOnuG | StAdminDone | StResetting
  datatype UniEv =
    | EvStart | EvStartAdmin | EvRxUnisResp | EvRxOnugResp
    | EvTimeoutSimple | EvTimeoutUnis | EvReset | EvRestart

  function LockTable(ev: UniEv, st: UniSt): Option<UniSt> {
    match ev
    case EvStart => if st == StDisabled then Some(StStarting) else None
    case EvStartAdmin => if st == StStarting then Some(StSettingUnis) else None
    case EvRxUnisResp => if st == StSettingUnis then Some(StSettingOnuG) else None
    case EvRxOnugResp => if st == StSettingOnuG then Some(StAdminDone) else None
    case EvTimeoutSimple => if st == StSettingOnuG then Some(StStarting) else None
    case EvTimeoutUnis => if st == StSettingUnis then Some(StStarting) else None
    case EvReset =>
      if st in {StStarting, StSettingOnuG, StSettingUnis, StAdminDone} then Some(StResetting) else None
    case EvRestart =>
      if st in {StStarting, StSettingOnuG, StSettingUnis, StAdminDone, StResetting} then Some(StDisabled) else None
  }

  function UnlockTable(ev: UniEv, st: UniSt): Option<UniSt> {
    match ev
    case EvStartAdmin => if st == StStarting then Some(StSettingOnuG) else None
    case EvRxOnugResp => if st == StSettingOnuG then Some(StSettingUnis) else None
    case EvRxUnisResp => if st == StSettingUnis then Some(StAdminDone) else None
    case _ => LockTable(ev, st)
  }

  /** The names of the generic machine; `lock` tells which of the two FSMs is meant. */
  function AbsSt(lock: bool, st: UniSt): St {
    match st
    case StDisabled => Disabled
    case StStarting => Starting
    case StSettingUnis => if lock then Phase(0) else Phase(1)
    case StSettingOnuG => if lock then Phase(1) else Phase(0)
    case StAdminDone => Done
    case StResetting => Resetting
  }

  function AbsEv(lock: bool, ev: UniEv): Ev {
    match ev
    case EvStart => Start
    case EvStartAdmin => StartConfig
    case EvRxUnisResp => if lock then Advance(0) else Advance(1)
    case EvRxOnugResp => if lock then Advance(1) else Advance(0)
    case EvTimeoutSimple => TimeoutSimple
    case EvTimeoutUnis => TimeoutMulti
    case EvReset => Reset
    case EvRestart => Restart
  }

  const LOCK_FSM := Fsm(2, {0}, map[(Set, OnuG) := Fire(1), (Set, UniG) := Hand], true, false, true)
  const UNLOCK_FSM := Fsm(2, {1}, map[(Set, OnuG) := Fire(0), (Set, UniG) := Hand], true, false, true)

  function FsmOf(lock: bool): Fsm { if lock then LOCK_FSM else UNLOCK_FSM }

  /** Both tables are instances of the generic one. */
  lemma TablesAgree(lock: bool, ev: UniEv, st: UniSt)
    ensures var row := if lock then LockTable(ev, st) else UnlockTable(ev, st);
            Target(FsmOf(lock), AbsSt(lock, st), AbsEv(lock, ev)) ==
            (if row.Some? then Some(AbsSt(lock, row.value)) else None)
    ensures forall s, t :: AbsSt(lock, s) == AbsSt(lock, t) ==> s == t
  {
  }

  // ---- the scripts ----

  /** portType is uniPPTP, uniVEIP or something performUniPortAdminSet skips. */
  datatype PortType = Pptp | VeipPort | Unsupported
  datatype Port = Port(ptype: PortType, entity: uint16)

  function AdminAttr(lock: bool): map<string, Attr> { map["AdministrativeState" := Num(if lock then 1 else 0)] }

  function UniStep(lock: bool, port: Port): seq<Me> {
    match port.ptype
    case Pptp => [Me(Set, UniG, port.entity, AdminAttr(lock))]
    case VeipPort => [Me(Set, Veip, port.entity, AdminAttr(lock))]
    case Unsupported => []
  }

  /** The requests of the port loop, for one iteration order of the port map. */
  function UniSteps(lock: bool, ports: seq<Port>): seq<Me> {
    if ports == [] then [] else UniStep(lock, ports[0]) + UniSteps(lock, ports[1..])
  }

  function OnuGStep(lock: bool): Me { Me(Set, OnuG, 0, AdminAttr(lock)) }

  function Script(lock: bool, ports: seq<Port>): seq<PhaseScript> {
    if lock then [Multi(UniSteps(lock, ports)), Single(OnuGStep(lock))]
    else [Single(OnuGStep(lock)), Multi(UniSteps(lock, ports))]
  }

  lemma {:induction false} UniStepsShape(lock: bool, ports: seq<Port>)
    ensures forall j | 0 <= j < |UniSteps(lock, ports)| ::
              && UniSteps(lock, ports)[j].op.Set?
              && (UniSteps(lock, ports)[j].cls.UniG? || UniSteps(lock, ports)[j].cls.Veip?)
    ensures OnuGStep(lock) !in UniSteps(lock, ports)
  {
    if ports != [] { UniStepsShape(lock, ports[1..]); }
  }

  predicate HasVeip(ports: seq<Port>) { exists i :: 0 <= i < |ports| && ports[i].ptype.VeipPort? }

  lemma {:induction false} UniStepsAnswerable(lock: bool, ports: seq<Port>)
    ensures AllAnswerable(FsmOf(lock), UniSteps(lock, ports)) <==> !HasVeip(ports)
  {
    if ports != [] {
      var rest := ports[1..];
      UniStepsAnswerable(lock, rest);
      var f, head := FsmOf(lock), UniStep(lock, ports[0]);
      AnswerableConcat(f, head, UniSteps(lock, rest));
      assert AllAnswerable(f, head) <==> !ports[0].ptype.VeipPort? by {
        if ports[0].ptype.VeipPort? { assert !Answerable(f, head[0]); }
      }
      assert HasVeip(ports) <==> ports[0].ptype.VeipPort? || HasVeip(rest) by {
        assert forall i | 0 <= i < |rest| :: rest[i] == ports[i + 1];
        if HasVeip(rest) { var i :| 0 <= i < |rest| && rest[i].ptype.VeipPort?; assert ports[i + 1].ptype.VeipPort?; }
      }
    }
  }

  lemma ScriptConforms(lock: bool, ports: seq<Port>)
    ensures Conforms(FsmOf(lock), Script(lock, ports))
  {
    UniStepsShape(lock, ports);
    var f, steps := FsmOf(lock), UniSteps(lock, ports);
    forall j | 0 <= j < |steps| ensures MultiOk(f, steps[j]) {}
    assert SingleOk(f, if lock then 1 else 0, OnuGStep(lock));
  }

  /** All requests of a session, in order. */
  function Steps(lock: bool, ports: seq<Port>): seq<Me> {
    if lock then UniSteps(lock, ports) + [OnuGStep(lock)] else [OnuGStep(lock)] + UniSteps(lock, ports)
  }

  lemma FlatScript(lock: bool, ports: seq<Port>)
    ensures Flat(Script(lock, ports)) == Steps(lock, ports)
  {
    var s := Script(lock, ports);
    assert UpTo(s, 1) == UpTo(s, 0) + StepsOf(s[0]) == StepsOf(s[0]);
    assert UpTo(s, 2) == UpTo(s, 1) + StepsOf(s[1]);
  }

  // ---- ordering ----

  lemma LockTraffic(lock: bool, s0: Sys, ports: seq<Port>, tx: Option<Me>, acts: seq<Act>)
    requires Conserved(s0) && s0.st.Disabled? && Clean(FsmOf(lock), s0)
    ensures var s := Run(FsmOf(lock), Step(FsmOf(lock), s0, Begin(Script(lock, ports), tx)), acts);
            s.sessions == s0.sessions + 1 && Live(s.st) ==>
              && s.trace <= Alternating(Steps(lock, ports))
              && (s.st.Done? ==> s.trace == Alternating(Steps(lock, ports)))
  {
    ScriptConforms(lock, ports);
    FlatScript(lock, ports);
    hide Conforms, FsmOf, Steps, Flat, Script, Alternating, AllAnswerable;
    CleanSessionSound(FsmOf(lock), s0, Script(lock, ports), tx, acts);
  }

  /** The set of the administrative state: 1 is locked, 0 is unlocked. */
  predicate Admin(me: Me, cls: ClassId, inst: uint16, state: int) {
    me == Me(Set, cls, inst, map["AdministrativeState" := Num(state)])
  }

  predicate AdminOf(me: Me, p: Port, state: int) {
    (p.ptype.Pptp? && Admin(me, UniG, p.entity, state)) || (p.ptype.VeipPort? && Admin(me, Veip, p.entity, state))
  }

  ghost predicate ForSomePort(me: Me, ports: seq<Port>, state: int) {
    exists i :: 0 <= i < |ports| && AdminOf(me, ports[i], state)
  }

  /** The request for a port of the list, or the one for the ONU. */
  ghost predicate Expected(me: Me, ports: seq<Port>, state: int) {
    Admin(me, OnuG, 0, state) || ForSomePort(me, ports, state)
  }

  ghost predicate Requested(steps: seq<Me>, port: Port, state: int) {
    exists j :: 0 <= j < |steps| && AdminOf(steps[j], port, state)
  }

  lemma StepIs(lock: bool, port: Port)
    ensures var step := UniStep(lock, port);
            if port.ptype.Unsupported? then step == []
            else |step| == 1 && AdminOf(step[0], port, if lock then 1 else 0)
  {
  }

  lemma SomePortMore(me: Me, ports: seq<Port>, state: int)
    requires ports != [] && (AdminOf(me, ports[0], state) || ForSomePort(me, ports[1..], state))
    ensures ForSomePort(me, ports, state)
  {
    hide AdminOf;
    if !AdminOf(me, ports[0], state) {
      var i :| 0 <= i < |ports| - 1 && AdminOf(me, ports[1..][i], state);
      assert AdminOf(me, ports[i + 1], state);
    }
  }

  lemma RequestedMore(head: seq<Me>, tail: seq<Me>, port: Port, state: int)
    requires Requested(head, port, state) || Requested(tail, port, state)
    ensures Requested(head + tail, port, state)
  {
    hide AdminOf;
    if j :| 0 <= j < |head| && AdminOf(head[j], port, state) {
      assert AdminOf((head + tail)[j], port, state);
    } else {
      var j :| 0 <= j < |tail| && AdminOf(tail[j], port, state);
      assert AdminOf((head + tail)[j + |head|], port, state);
    }
  }

  /** The port loop sends the request of every supported port, and no other. */
  lemma {:induction false} UniStepsContents(lock: bool, ports: seq<Port>)
    ensures var state, steps := if lock then 1 else 0, UniSteps(lock, ports);
            && (forall j | 0 <= j < |steps| :: ForSomePort(steps[j], ports, state))
            && (forall i | 0 <= i < |ports| && !ports[i].ptype.Unsupported? :: Requested(steps, ports[i], state))
  {
    if ports != [] {
      var state, rest := if lock then 1 else 0, ports[1..];
      var head, tail, steps := UniStep(lock, ports[0]), UniSteps(lock, rest), UniSteps(lock, ports);
      UniStepsContents(lock, rest);
      StepIs(lock, ports[0]);
      hide UniStep, AdminOf, ForSomePort;
      forall j | 0 <= j < |tail| ensures ForSomePort(tail[j], rest, state) {}
      forall j | 0 <= j < |steps| ensures ForSomePort(steps[j], ports, state) {
        if j >= |head| {
          assert steps[j] == tail[j - |head|] && ForSomePort(tail[j - |head|], rest, state);
        } else {
          assert steps[j] == head[0] && AdminOf(head[0], ports[0], state);
        }
        SomePortMore(steps[j], ports, state);
      }
      forall i | 0 <= i < |ports| && !ports[i].ptype.Unsupported? ensures Requested(steps, ports[i], state) {
        if i > 0 { assert ports[i] == rest[i - 1]; } else { assert AdminOf(head[0], ports[0], state); }
        RequestedMore(head, tail, ports[i], state);
      }
    }
  }

  /** Each port is counted once. */
  lemma {:induction false} UniStepsCounts(lock: bool, ports: seq<Port>, me: Me, e: uint16)
    ensures Admin(me, UniG, e, if lock then 1 else 0) ==>
              multiset(UniSteps(lock, ports))[me] == multiset(ports)[Port(Pptp, e)]
    ensures Admin(me, Veip, e, if lock then 1 else 0) ==>
              multiset(UniSteps(lock, ports))[me] == multiset(ports)[Port(VeipPort, e)]
  {
    if ports != [] {
      UniStepsCounts(lock, ports[1..], me, e);
      assert ports == [ports[0]] + ports[1..];
      assert UniSteps(lock, ports) == UniStep(lock, ports[0]) + UniSteps(lock, ports[1..]);
    }
  }

  lemma OnuGIs(lock: bool)
    ensures Admin(OnuGStep(lock), OnuG, 0, if lock then 1 else 0)
  {
  }

  /** Exactly one set per supported port and one for the ONU was acknowledged. */
  ghost predicate AllSet(acked: seq<Me>, ports: seq<Port>, state: int) {
    && (forall k | 0 <= k < |acked| :: Expected(acked[k], ports, state))
    && (forall me | Admin(me, OnuG, 0, state) :: multiset(acked)[me] == 1)
    && (forall me, e: uint16 | Admin(me, UniG, e, state) :: multiset(acked)[me] == multiset(ports)[Port(Pptp, e)])
    && (forall me, e: uint16 | Admin(me, Veip, e, state) :: multiset(acked)[me] == multiset(ports)[Port(VeipPort, e)])
  }

  lemma StepsContents(lock: bool, ports: seq<Port>, k: nat)
    requires k < |Steps(lock, ports)|
    ensures Expected(Steps(lock, ports)[k], ports, if lock then 1 else 0)
    ensures Steps(lock, ports)[k].cls == OnuG <==> k == if lock then |Steps(lock, ports)| - 1 else 0
  {
    UniStepsContents(lock, ports);
    UniStepsShape(lock, ports);
    OnuGIs(lock);
    hide UniSteps, OnuGStep, ForSomePort;
    var n := if lock then k else k - 1;
    if 0 <= n < |UniSteps(lock, ports)| {
      assert Steps(lock, ports)[k] == UniSteps(lock, ports)[n];
    } else {
      assert Steps(lock, ports)[k] == OnuGStep(lock);
    }
  }

  lemma StepsAllSet(lock: bool, ports: seq<Port>)
    ensures AllSet(Steps(lock, ports), ports, if lock then 1 else 0)
  {
    var state, steps := if lock then 1 else 0, Steps(lock, ports);
    forall k | 0 <= k < |steps| ensures Expected(steps[k], ports, state) { StepsContents(lock, ports, k); }
    hide Expected, UniSteps;
    OnuGIs(lock);
    UniStepsShape(lock, ports);
    forall me, e: uint16
      ensures Admin(me, UniG, e, state) ==> multiset(steps)[me] == multiset(ports)[Port(Pptp, e)]
      ensures Admin(me, Veip, e, state) ==> multiset(steps)[me] == multiset(ports)[Port(VeipPort, e)]
    {
      UniStepsCounts(lock, ports, me, e);
    }
  }

  /** Before entry k of the traffic, the ONU acknowledged the request for each supported port. */
  ghost predicate PortsBefore(t: seq<Tr>, k: nat, ports: seq<Port>, state: int)
    requires k <= |t|
  {
    forall i | 0 <= i < |ports| && !ports[i].ptype.Unsupported? ::
      exists j :: 0 <= j < k && t[j].Acked? && AdminOf(t[j].me, ports[i], state)
  }

  ghost predicate OnuBefore(t: seq<Tr>, k: nat, state: int)
    requires k <= |t|
  {
    exists j :: 0 <= j < k && t[j].Acked? && Admin(t[j].me, OnuG, 0, state)
  }

  lemma LockFirst(ports: seq<Port>, t: seq<Tr>, k: nat)
    requires t <= Alternating(Steps(true, ports)) && k < |t| && t[k].me.cls == OnuG
    ensures PortsBefore(t, k, ports, 1)
  {
    var steps := Steps(true, ports);
    TrafficOf(steps, t);
    UniStepsContents(true, ports);
    StepsContents(true, ports, k / 2);
    hide UniSteps, AdminOf, Expected, ForSomePort, Alternating, OnuGStep;
    forall i | 0 <= i < |ports| && !ports[i].ptype.Unsupported?
      ensures exists j :: 0 <= j < k && t[j].Acked? && AdminOf(t[j].me, ports[i], 1)
    {
      assert Requested(UniSteps(true, ports), ports[i], 1);
      var j :| 0 <= j < |UniSteps(true, ports)| && AdminOf(UniSteps(true, ports)[j], ports[i], 1);
      assert steps[j] == UniSteps(true, ports)[j];
      assert t[2 * j + 1] == Acked(steps[j]);
    }
  }

  lemma UnlockFirst(ports: seq<Port>, t: seq<Tr>, k: nat)
    requires t <= Alternating(Steps(false, ports)) && k < |t| && t[k].me.cls != OnuG
    ensures OnuBefore(t, k, 0)
  {
    TrafficOf(Steps(false, ports), t);
    StepsContents(false, ports, k / 2);
    OnuGIs(false);
    hide UniSteps, Expected, Alternating;
    assert t[1] == Acked(OnuGStep(false));
  }

  /** What a lock session sends and gets acknowledged locks (state 1), in an unlock session it unlocks (0). A lock
      session touches ONU-G only after every supported port was acknowledged, an unlock session a port only after
      ONU-G was, for any port order; Done means exactly one set per supported port and one for ONU-G. */
  lemma LockOrder(lock: bool, s0: Sys, ports: seq<Port>, tx: Option<Me>, acts: seq<Act>)
    requires Conserved(s0) && s0.st.Disabled? && Clean(FsmOf(lock), s0)
    ensures var s := Run(FsmOf(lock), Step(FsmOf(lock), s0, Begin(Script(lock, ports), tx)), acts);
            var state := if lock then 1 else 0;
            s.sessions == s0.sessions + 1 && Live(s.st) ==>
              && (forall k | 0 <= k < |s.trace| :: Expected(s.trace[k].me, ports, state))
              && (forall k | 0 <= k < |s.trace| ::
                    if lock then s.trace[k].me.cls == OnuG ==> PortsBefore(s.trace, k, ports, state)
                    else s.trace[k].me.cls != OnuG ==> OnuBefore(s.trace, k, state))
              && (s.st.Done? ==> AllSet(AckedMes(s.trace), ports, state))
  {
    LockTraffic(lock, s0, ports, tx, acts);
    var s := Run(FsmOf(lock), Step(FsmOf(lock), s0, Begin(Script(lock, ports), tx)), acts);
    hide Run, Step, Script, Steps, Expected, PortsBefore, OnuBefore, AllSet, Alternating;
    if s.sessions == s0.sessions + 1 && Live(s.st) {
      TrafficOf(Steps(lock, ports), s.trace);
      forall k | 0 <= k < |s.trace|
        ensures Expected(s.trace[k].me, ports, if lock then 1 else 0)
        ensures lock && s.trace[k].me.cls == OnuG ==> PortsBefore(s.trace, k, ports, 1)
        ensures !lock && s.trace[k].me.cls != OnuG ==> OnuBefore(s.trace, k, 0)
      {
        StepsContents(lock, ports, k / 2);
        if lock && s.trace[k].me.cls == OnuG { LockFirst(ports, s.trace, k); }
        if !lock && s.trace[k].me.cls != OnuG { UnlockFirst(ports, s.trace, k); }
      }
      StepsAllSet(lock, ports);
      AckedOfAlternating(Steps(lock, ports));
    }
  }

  /** The VEIP defect: the handler waits for a class name the library does not use, so a lock or
      unlock session can reach Done if and only if the ONU has no VEIP port. */
  lemma CompletableIffNoVeip(lock: bool, ports: seq<Port>, tx: Option<Me>)
    ensures (exists acts :: ReachesDone(FsmOf(lock), Script(lock, ports), tx, acts)) <==> !HasVeip(ports)
  {
    var f, onug := FsmOf(lock), [OnuGStep(lock)];
    ScriptConforms(lock, ports);
    CompletableIffAnswerable(f, Script(lock, ports), tx);
    FlatScript(lock, ports);
    UniStepsAnswerable(lock, ports);
    assert AllAnswerable(f, onug);
    AnswerableConcat(f, UniSteps(lock, ports), onug);
    AnswerableConcat(f, onug, UniSteps(lock, ports));
  }

  /** Both FSMs are of the kind for which the exact condition of SessionExact holds. */
  lemma FsmIsRegular(lock: bool)
    ensures Regular(FsmOf(lock))
  {
    var f := FsmOf(lock);
    assert HandMe(f, MeOf(Set, UniG, 0));
    assert SingleOk(f, if lock then 1 else 0, OnuGStep(lock));
    assert (if lock then 0 else 1) in f.multi;
    forall op, cls ensures ReactionUsable(f, op, cls) {
      if React(f, op, cls).Hand? { assert HandMe(f, MeOf(op, cls, 0)); }
    }
  }

  // ---- what comes after ----

  /** uniStAdminDone resets itself: the FSM is disabled again without anybody's help. */
  lemma LockReturns(acts: seq<Act>)
    ensures var s := Run(LOCK_FSM, INIT, acts);
            s.st.Done? ==>
              Reset in s.posted && Run(LOCK_FSM, s, [FirePosted(Reset), FirePosted(Restart)]).st.Disabled?
    ensures var s := Run(UNLOCK_FSM, INIT, acts);
            s.st.Done? ==>
              Reset in s.posted && Run(UNLOCK_FSM, s, [FirePosted(Reset), FirePosted(Restart)]).st.Disabled?
  {
    hide Run;
    if Run(LOCK_FSM, INIT, acts).st.Done? { DoneReturns(LOCK_FSM, acts); }
    if Run(UNLOCK_FSM, INIT, acts).st.Done? { DoneReturns(UNLOCK_FSM, acts); }
  }

  /** Two locks, or two unlocks, can follow each other without a reset from outside. */
  lemma LockTwice(lock: bool, first: seq<Port>, second: seq<Port>)
    requires !HasVeip(first) && !HasVeip(second)
    ensures exists a, b, c :: InARow(FsmOf(lock), Script(lock, first), Script(lock, second), a, b, c)
  {
    forall ports | ports == first || ports == second
      ensures Conforms(FsmOf(lock), Script(lock, ports)) && AllAnswerable(FsmOf(lock), Flat(Script(lock, ports)))
    {
      ScriptConforms(lock, ports);
      FlatScript(lock, ports);
      UniStepsAnswerable(lock, ports);
      assert AllAnswerable(FsmOf(lock), [OnuGStep(lock)]);
      AnswerableConcat(FsmOf(lock), UniSteps(lock, ports), [OnuGStep(lock)]);
      AnswerableConcat(FsmOf(lock), [OnuGStep(lock)], UniSteps(lock, ports));
    }
    assert FsmOf(lock).autoReset;
    hide Conforms, AllAnswerable, Flat, Script, FsmOf, InARow;
    TwoInARow(FsmOf(lock), Script(lock, first), Script(lock, second));
  }
}
