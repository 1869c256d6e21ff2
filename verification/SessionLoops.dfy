/** What every run of every FSM conserves, whatever the ONU, the scheduler and the owners do. */
module SessionLoops {
  import opened Types
  import opened Session

  function B2N(b: bool): nat { if b then 1 else 0 }

  /** Running message loops minus abort messages still queued is 1 exactly while the FSM is
      live; a restart is posted exactly while it is resetting; no timeout event is ever posted. */
  ghost predicate Conserved(s: Sys) {
    && s.loops + s.handing == multiset(s.chan)[Abort] + B2N(Live(s.st))
    && s.posted[Restart] == B2N(s.st.Resetting?)
    && TimeoutSimple !in s.posted && TimeoutMulti !in s.posted && Start !in s.posted
  }

  /** Which rows start, end and leave a session. */
  lemma Rows(f: Fsm, st: St, ev: Ev)
    requires Target(f, st, ev).Some?
    ensures var d := Target(f, st, ev).value;
            && (d.Starting? <==> ev.Start? || ev.TimeoutSimple? || ev.TimeoutMulti?)
            && (d.Resetting? <==> ev.Reset?) && (d.Disabled? <==> ev.Restart?)
            && (ev.Start? ==> st.Disabled?) && (!ev.Start? && !ev.Restart? ==> Live(st))
  {
  }

  /** Entering Starting adds a message loop, entering Resetting an abort message and a restart. */
  lemma EnterCounts(f: Fsm, s: Sys)
    ensures var t := Enter(f, s);
            && t.st == s.st && t.handing == s.handing
            && t.loops == s.loops + B2N(s.st.Starting?)
            && multiset(t.chan)[Abort] == multiset(s.chan)[Abort] + B2N(s.st.Resetting?)
            && t.posted[Restart] == s.posted[Restart] + B2N(s.st.Resetting?)
            && (forall ev: Ev | ev.TimeoutSimple? || ev.TimeoutMulti? || ev.Start? :: t.posted[ev] == s.posted[ev])
  {
    assert multiset(s.chan + [Abort])[Abort] == multiset(s.chan)[Abort] + 1;
  }

  lemma FireConserves(f: Fsm, s: Sys, ev: Ev)
    requires s.loops + s.handing == multiset(s.chan)[Abort] + B2N(Live(s.st))
    requires s.posted[Restart] == (if ev.Restart? then 0 else B2N(s.st.Resetting?))
    requires ev.Restart? ==> s.st.Resetting?
    requires !ev.TimeoutSimple? && !ev.TimeoutMulti?
    requires TimeoutSimple !in s.posted && TimeoutMulti !in s.posted && Start !in s.posted
    ensures Conserved(FireEvent(f, s, ev))
  {
    hide Enter, Target;
    if Target(f, s.st, ev).Some? {
      Rows(f, s.st, ev);
      EnterCounts(f, s.(st := Target(f, s.st, ev).value));
    } else if ev.Restart? {
      RestartRow(f, s.st);
    }
  }

  lemma RestartRow(f: Fsm, st: St)
    requires st.Resetting?
    ensures Target(f, st, Restart) == Some(Disabled)
  {
  }

  lemma TakeConserves(f: Fsm, s: Sys)
    requires Conserved(s) && s.loops > 0 && s.chan != []
    ensures Conserved(TakeMsg(f, s))
  {
    var m, rest := s.chan[0], s.(chan := s.chan[1..]);
    assert s.chan == [m] + rest.chan;
    assert multiset(s.chan)[Abort] == multiset(rest.chan)[Abort] + B2N(m.Abort?);
    if m.Resp? {
      assert Conserved(rest);
      if s.lastTx.Some? {
        var x := React(f, m.op, s.lastTx.value.cls);
        if x.Fire? { FireConserves(f, rest, Advance(x.i)); }
      }
    }
  }

  lemma PostedConserves(f: Fsm, s: Sys, ev: Ev, fired: Ev)
    requires Conserved(s) && ev in s.posted && (fired == ev || (ev.StartConfig? && fired.WaitTechProf?))
    ensures Conserved(FireEvent(f, s.(posted := s.posted - multiset{ev}), fired))
  {
    FireConserves(f, s.(posted := s.posted - multiset{ev}), fired);
  }

  lemma StepConserves(f: Fsm, s: Sys, a: Act)
    requires Conserved(s)
    ensures Conserved(Step(f, s, a))
  {
    hide FireEvent, TakeMsg;
    match a
    case Begin(script, tx) => if s.st.Disabled? { FireConserves(f, s.(script := script, lastTx := tx), Start); }
    case FirePosted(ev) => if ev in s.posted { PostedConserves(f, s, ev, ev); }
    case TechProfMissing => if f.waits && StartConfig in s.posted { PostedConserves(f, s, StartConfig, WaitTechProf); }
    case TechProfDone => FireConserves(f, s, Continue);
    case ExternalReset => FireConserves(f, s, Reset);
    case Take => if s.loops > 0 && s.chan != [] { TakeConserves(f, s); }
    case Go(r) =>
      if r < |s.runners| && !s.runners[r].waiting && s.runners[r].todo == [] {
        FireConserves(f, s.(runners := RemoveAt(s.runners, r)), Advance(s.runners[r].phase));
      }
    case Expire(r) =>
      if r < |s.runners| && s.runners[r].waiting {
        FireConserves(f, s.(runners := RemoveAt(s.runners, r)), Reset);
      }
    case Rendezvous(r) =>
    case Reply(req, op, ok, cls, inst) =>
      if req in s.open {
        var m := Resp(op, ok, cls, inst);
        assert multiset(s.chan + [m])[Abort] == multiset(s.chan)[Abort];
      }
  }

  /** Loop/abort conservation over whole runs. */
  lemma {:induction false} RunConserves(f: Fsm, s: Sys, acts: seq<Act>)
    requires Conserved(s)
    ensures Conserved(Run(f, s, acts))
    decreases |acts|
  {
    if acts != [] {
      StepConserves(f, s, acts[0]);
      RunConserves(f, Step(f, s, acts[0]), acts[1..]);
    }
  }

  lemma LoopAbortConservation(f: Fsm, acts: seq<Act>)
    ensures var s := Run(f, INIT, acts);
            && (s.loops + s.handing) - multiset(s.chan)[Abort] == (if Live(s.st) then 1 else 0)
            && s.posted[Restart] == (if s.st.Resetting? then 1 else 0)
  {
    RunConserves(f, INIT, acts);
  }

  /** The restart that a reset posts never disables a live session. */
  lemma RestartOnlyEndsResetting(f: Fsm, acts: seq<Act>)
    ensures var s := Run(f, INIT, acts);
            Restart in s.posted ==> s.st.Resetting? && Step(f, s, FirePosted(Restart)).st.Disabled?
  {
    RunConserves(f, INIT, acts);
  }

  lemma TimeoutStarts(f: Fsm, s: Sys, ev: Ev)
    requires Conserved(s) && s.st.Phase? && (ev.TimeoutSimple? || ev.TimeoutMulti?) && Target(f, s.st, ev).Some?
    ensures var t := FireEvent(f, s, ev); t.st.Starting? && (t.loops + t.handing) - multiset(t.chan)[Abort] == 2
  {
    Rows(f, s.st, ev);
    EnterCounts(f, s.(st := Target(f, s.st, ev).value));
    hide Enter, Target;
  }

  /** Why no code may fire the timeout events of the tables: one would start a second
      message loop that no abort message is ever sent for. */
  lemma TimeoutWouldLeakALoop(f: Fsm, acts: seq<Act>)
    requires !f.waits && Run(f, INIT, acts).st.Phase? && Run(f, INIT, acts).st.i < f.phases
    ensures var s := Run(f, INIT, acts);
            var t := FireEvent(f, s, if s.st.i in f.multi then TimeoutMulti else TimeoutSimple);
            t.st.Starting? && (t.loops + t.handing) - multiset(t.chan)[Abort] == 2
  {
    RunConserves(f, INIT, acts);
    var s := Run(f, INIT, acts);
    hide Run, Conserved, FireEvent;
    TimeoutStarts(f, s, if s.st.i in f.multi then TimeoutMulti else TimeoutSimple);
  }
}
