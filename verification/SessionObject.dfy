/** The FSM objects themselves: the methods that run in the FSM's goroutines. Every object is valid, that
    is, in the state that its own history leads to, so the results about runs are results about objects. */
module SessionObject {
  import opened Types
  import opened Session
  import opened SessionLoops
  import opened SessionSafety
  import opened SessionTheorems
  import opened SessionLifetime
  import opened SessionExact

  // ---- a goroutine only waits while it has something to wait for ----

  predicate Waits(s: Sys) {
    forall i | 0 <= i < |s.runners| && s.runners[i].waiting :: s.runners[i].todo != []
  }

  lemma FireWaits(f: Fsm, s: Sys, ev: Ev)
    requires Waits(s)
    ensures Waits(FireEvent(f, s, ev))
  {
    var d := Target(f, s.st, ev);
    if d.Some? { EnterRunners(f, s.(st := d.value)); }
    hide Enter, Target;
  }

  lemma EnterRunners(f: Fsm, s: Sys)
    ensures Enter(f, s).runners == s.runners
            || exists i: nat, mes :: Enter(f, s).runners == s.runners + [Runner(i, mes, false)]
  {
  }

  lemma StepWaits(f: Fsm, s: Sys, a: Act)
    requires Waits(s)
    ensures Waits(Step(f, s, a))
  {
    hide FireEvent;
    match a
    case Begin(script, tx) => FireWaits(f, s.(script := script, lastTx := tx), Start);
    case FirePosted(ev) => FireWaits(f, s.(posted := s.posted - multiset{ev}), ev);
    case TechProfMissing => FireWaits(f, s.(posted := s.posted - multiset{StartConfig}), WaitTechProf);
    case TechProfDone => FireWaits(f, s, Continue);
    case ExternalReset => FireWaits(f, s, Reset);
    case Take =>
      if s.chan != [] && s.chan[0].Resp? && s.lastTx.Some? {
        var x := React(f, s.chan[0].op, s.lastTx.value.cls);
        if x.Fire? { FireWaits(f, s.(chan := s.chan[1..]), Advance(x.i)); }
      }
    case Go(r) =>
      if r < |s.runners| { FireWaits(f, s.(runners := RemoveAt(s.runners, r)), Advance(s.runners[r].phase)); }
    case Expire(r) => if r < |s.runners| { FireWaits(f, s.(runners := RemoveAt(s.runners, r)), Reset); }
    case _ =>
  }

  lemma {:induction false} RunWaits(f: Fsm, s: Sys, acts: seq<Act>)
    requires Waits(s)
    ensures Waits(Run(f, s, acts))
    decreases |acts|
  {
    hide Waits, Step;
    if acts != [] {
      StepWaits(f, s, acts[0]);
      RunWaits(f, Step(f, s, acts[0]), acts[1..]);
    }
  }

  // ---- the object ----

  class AdapterFsm {
    const table: Fsm
    var st: St
    var script: seq<PhaseScript>
    var posted: multiset<Ev>
    var commChan: seq<Msg>
    var loops: nat
    var handing: nat
    var runners: seq<Runner>
    var pLastTxMeInstance: Option<Me>
    // what the channel and the ONU have seen
    var reqs: seq<Req>
    var open: set<nat>
    var sessions: nat
    var trace: seq<Tr>
    /** Everything that happened to the object. */
    ghost var history: seq<Act>

    ghost predicate Valid()
      reads this
    {
      State() == Run(table, INIT, history)
    }

    function State(): Sys
      reads this
    {
      Sys(st, script, posted, commChan, loops, handing, runners, pLastTxMeInstance, reqs, open, sessions, trace)
    }

    constructor (table: Fsm)
      ensures this.table == table && Valid() && history == []
    {
      this.table, st, script, posted, commChan := table, Disabled, [], multiset{}, [];
      loops, handing, runners, pLastTxMeInstance := 0, 0, [], None;
      reqs, open, sessions, trace := [], {}, 0, [];
      history := [];
    }

    /** One of the send functions of omciCC, and the assignment of its result. */
    method Transmit(me: Me)
      modifies this
      ensures State() == Send(old(State()), me) && history == old(history)
    {
      pLastTxMeInstance := Some(me);
      open := open + {|reqs|};
      reqs := reqs + [Req(me, sessions)];
      trace := trace + [Sent(me)];
    }

    method EnterStarting()
      requires st.Starting?
      modifies this
      ensures State() == Enter(table, old(State())) && history == old(history)
    {
      loops := loops + 1;
      posted := posted + multiset{StartConfig};
      sessions := sessions + 1;
      trace := [];
    }

    method EnterPhase()
      requires st.Phase?
      modifies this
      ensures State() == Enter(table, old(State())) && history == old(history)
    {
      if st.i < |script| {
        match script[st.i] {
          case Skip => posted := posted + multiset{Advance(st.i)};
          case Single(me, givesUp) =>
            Transmit(me);
            if givesUp { posted := posted + multiset{Reset}; }
          case Multi(mes) => runners := runners + [Runner(st.i, mes, false)];
        }
      }
    }

    method EnterDone()
      requires st.Done?
      modifies this
      ensures State() == Enter(table, old(State())) && history == old(history)
    {
      if table.autoReset { posted := posted + multiset{Reset}; }
    }

    method EnterResetting()
      requires st.Resetting?
      modifies this
      ensures State() == Enter(table, old(State())) && history == old(history)
    {
      commChan := commChan + [Abort];
      posted := posted + multiset{Restart};
    }

    /** pFsm.Event: looks the event up, moves, and calls the enter function of the new state. */
    method Event(ev: Ev) returns (ok: bool)
      modifies this
      ensures State() == FireEvent(table, old(State()), ev) && history == old(history)
      ensures ok <==> Target(table, old(st), ev).Some?
    {
      var row := Target(table, st, ev);
      if row.None? { return false; }
      st := row.value;
      match st {
        case Starting => EnterStarting();
        case Phase(_) => EnterPhase();
        case Done => EnterDone();
        case Resetting => EnterResetting();
        case Disabled =>
        case Waiting =>
      }
      return true;
    }

    /** The response handlers: compare with the last transmitted ME, then proceed by its name. */
    method HandleResponse(m: Msg)
      requires m.Resp? && loops > 0
      modifies this
      ensures State() == Handle(table, old(State()), m) && history == old(history)
    {
      if !m.ok { return; }
      if pLastTxMeInstance.None? { return; }
      var me := pLastTxMeInstance.value;
      if m.cls == me.cls && m.inst == me.inst {
        match React(table, m.op, me.cls) {
          case Fire(i) => var _ := Event(Advance(i));
          case Hand => loops, handing := loops - 1, handing + 1;
          case Ignore =>
        }
      }
    }

    /** After an action, the history goes on with it. */
    twostate lemma Happened(a: Act)
      requires old(Valid()) && history == old(history) + [a] && State() == Step(table, old(State()), a)
      ensures Valid()
    {
      OneMore(table, INIT, old(history), old(State()), a);
    }

    /** The owner starts a session. */
    method StartSession(script: seq<PhaseScript>, tx: Option<Me>) returns (ok: bool)
      requires Valid()
      modifies this
      ensures Valid() && history == old(history) + [Begin(script, tx)]
      ensures State() == Step(table, old(State()), Begin(script, tx))
      ensures ok <==> old(st).Disabled?
    {
      hide FireEvent, Run;
      if st.Disabled? {
        this.script, pLastTxMeInstance := script, tx;
        ok := Event(Start);
      } else {
        ok := false;
      }
      history := history + [Begin(script, tx)];
      Happened(Begin(script, tx));
    }

    /** A goroutine fires the event it was started for. */
    method FireEventOf(ev: Ev)
      requires Valid() && ev in posted
      modifies this
      ensures Valid() && history == old(history) + [FirePosted(ev)]
      ensures State() == Step(table, old(State()), FirePosted(ev))
    {
      hide FireEvent, Run;
      posted := posted - multiset{ev};
      var _ := Event(ev);
      history := history + [FirePosted(ev)];
      Happened(FirePosted(ev));
    }

    /** The owner, or somebody else, resets the FSM. */
    method ResetFsm() returns (ok: bool)
      requires Valid()
      modifies this
      ensures Valid() && history == old(history) + [ExternalReset]
      ensures State() == Step(table, old(State()), ExternalReset) && (ok <==> Live(old(st)))
    {
      hide FireEvent, Run;
      ok := Event(Reset);
      history := history + [ExternalReset];
      Happened(ExternalReset);
    }

    /** VLAN only: the tech profile is looked for before configuring, or reported later. */
    method CheckTechProf(present: bool)
      requires Valid() && table.waits && (!present ==> StartConfig in posted)
      modifies this
      ensures Valid()
      ensures State() == Step(table, old(State()), if present then TechProfDone else TechProfMissing)
    {
      hide FireEvent, Run;
      if present {
        var _ := Event(Continue);
      } else {
        posted := posted - multiset{StartConfig};
        var _ := Event(WaitTechProf);
      }
      history := history + [if present then TechProfDone else TechProfMissing];
      Happened(if present then TechProfDone else TechProfMissing);
    }

    /** The response callback: the message goes to commChan; the trace notes a good answer to this session. */
    method ReceiveOmciResponse(req: nat, op: Op, ok: bool, cls: ClassId, inst: uint16)
      requires Valid() && req in open
      modifies this
      ensures Valid() && history == old(history) + [Reply(req, op, ok, cls, inst)]
      ensures State() == Step(table, old(State()), Reply(req, op, ok, cls, inst))
    {
      hide Run;
      open, commChan := open - {req}, commChan + [Resp(op, ok, cls, inst)];
      if req < |reqs| && reqs[req].session == sessions && Good(op, ok, cls, inst, reqs[req].me) {
        trace := trace + [Acked(reqs[req].me)];
      }
      history := history + [Reply(req, op, ok, cls, inst)];
      Happened(Reply(req, op, ok, cls, inst));
    }

    /** One round of the message loop. */
    method ProcessMessage()
      requires Valid() && loops > 0 && commChan != []
      modifies this
      ensures Valid() && history == old(history) + [Take]
      ensures State() == TakeMsg(table, old(State()))
    {
      hide Handle, Run;
      var message := commChan[0];
      commChan := commChan[1..];
      if message.Abort? { loops := loops - 1; } else { HandleResponse(message); }
      history := history + [Take];
      Happened(Take);
    }

    /** A script goroutine from one wait to the next: send the next ME, or report the end of the list. */
    method PerformNext(r: nat)
      requires Valid() && r < |runners| && !runners[r].waiting
      modifies this
      ensures Valid() && history == old(history) + [Go(r)]
      ensures State() == GoRunner(table, old(State()), r)
    {
      hide FireEvent, Run;
      var run := runners[r];
      if run.todo == [] {
        runners := RemoveAt(runners, r);
        var _ := Event(Advance(run.phase));
      } else {
        runners := runners[r := run.(waiting := true)];
        Transmit(run.todo[0]);
      }
      history := history + [Go(r)];
      Happened(Go(r));
    }

    /** waitforOmciResponse ends: with `true` from the blocked handler, or after the time is up. */
    method WaitforOmciResponse(r: nat, timeout: bool)
      requires Valid() && r < |runners| && runners[r].waiting && (!timeout ==> handing > 0)
      modifies this
      ensures Valid() && history == old(history) + [if timeout then Expire(r) else Rendezvous(r)]
      ensures State() == Step(table, old(State()), if timeout then Expire(r) else Rendezvous(r))
    {
      hide FireEvent, Run;
      assert runners[r].todo != [] by { RunWaits(table, INIT, history); }
      if timeout {
        runners := RemoveAt(runners, r);
        var _ := Event(Reset);
      } else {
        handing, loops := handing - 1, loops + 1;
        runners := runners[r := Runner(runners[r].phase, runners[r].todo[1..], false)];
      }
      history := history + [if timeout then Expire(r) else Rendezvous(r)];
      Happened(if timeout then Expire(r) else Rendezvous(r));
    }
  }

  // ---- what holds for every object ----

  /** Whatever its methods were called with: one message loop more than queued aborts exactly while the
      object is live, one restart on its way exactly while it is resetting, and no timeout event. */
  lemma ObjectConserves(o: AdapterFsm)
    requires o.Valid()
    ensures (o.loops + o.handing) - multiset(o.commChan)[Abort] == (if Live(o.st) then 1 else 0)
    ensures o.posted[Restart] == (if o.st.Resetting? then 1 else 0)
    ensures TimeoutSimple !in o.posted && TimeoutMulti !in o.posted
  {
    RunConserves(o.table, INIT, o.history);
    hide Run;
  }

  /** An object in its first session, or one none of whose sessions was cut short: Done means that
      everything of the running script was acknowledged, in order. */
  lemma DoneObject(o: AdapterFsm)
    requires o.Valid() && ConformingBegins(o.table, o.history)
    requires o.sessions <= 1 || Undisturbed(o.table, INIT, o.history)
    ensures Live(o.st) ==> o.trace <= Alternating(Flat(o.script))
    ensures o.st.Done? ==> o.trace == Alternating(Flat(o.script)) && AllAnswerable(o.table, Flat(o.script))
  {
    assert o.st.Done? ==> Live(o.st);
    hide *;
    StateIs(o);
    if o.sessions <= 1 {
      FirstSessionSound(o.table, o.history);
    } else {
      EverySessionSound(o.table, o.history);
    }
  }

  lemma StateIs(o: AdapterFsm)
    requires o.Valid()
    ensures o.State() == Run(o.table, INIT, o.history)
    ensures var s := o.State();
            s.st == o.st && s.sessions == o.sessions && s.trace == o.trace && s.script == o.script
  {
  }

  /** A disabled object can be started again without a care exactly when nothing is left over. */
  lemma DisabledObject(o: AdapterFsm)
    requires o.Valid() && o.st.Disabled? && Regular(o.table) && ConformingBegins(o.table, o.history)
    ensures NextSessionSound(o.table, o.State()) <==> Clean(o.table, o.State())
  {
    hide *;
    StateIs(o);
    NextSessionSoundIff(o.table, o.history);
  }
}
