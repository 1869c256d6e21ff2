/** What happens after a session: how an FSM gets from Done back to Disabled and through the next session. */
module SessionCycle {
  import opened Types
  import opened Session
  import opened SessionLoops
  import opened SessionSafety
  import opened SessionProgress

  // ---- a session that is done, or gives up, resets itself ----

  predicate GivesUp(p: PhaseScript) { p.Single? && p.givesUp }

  /** When the session is done, or in a phase that gives up, a reset is on its way. */
  ghost predicate ResetDue(f: Fsm, s: Sys) {
    && (s.st.Done? && f.autoReset ==> Reset in s.posted)
    && (s.st.Phase? && s.st.i < |s.script| && GivesUp(s.script[s.st.i]) ==> Reset in s.posted)
  }

  lemma FirePosts(f: Fsm, s: Sys, ev: Ev)
    requires ResetDue(f, s) || ev.Reset?
    ensures ResetDue(f, FireEvent(f, s, ev))
  {
    if Target(f, s.st, ev).Some? { hide Target; }
  }

  lemma TakePosts(f: Fsm, s: Sys)
    requires ResetDue(f, s) && s.loops > 0 && s.chan != []
    ensures ResetDue(f, TakeMsg(f, s))
  {
    hide FireEvent;
    if s.chan[0].Resp? && s.lastTx.Some? {
      var x := React(f, s.chan[0].op, s.lastTx.value.cls);
      if x.Fire? { FirePosts(f, s.(chan := s.chan[1..]), Advance(x.i)); }
    }
  }

  lemma GoPosts(f: Fsm, s: Sys, r: nat)
    requires ResetDue(f, s) && r < |s.runners| && !s.runners[r].waiting
    ensures ResetDue(f, GoRunner(f, s, r))
  {
    hide FireEvent;
    FirePosts(f, s.(runners := RemoveAt(s.runners, r)), Advance(s.runners[r].phase));
  }

  lemma StepPosts(f: Fsm, s: Sys, a: Act)
    requires ResetDue(f, s)
    ensures ResetDue(f, Step(f, s, a))
  {
    hide FireEvent, TakeMsg, GoRunner, RemoveAt;
    match a
    case Begin(script, tx) => if s.st.Disabled? { FirePosts(f, s.(script := script, lastTx := tx), Start); }
    case FirePosted(ev) => if ev in s.posted { FirePosts(f, s.(posted := s.posted - multiset{ev}), ev); }
    case TechProfMissing => FirePosts(f, s.(posted := s.posted - multiset{StartConfig}), WaitTechProf);
    case TechProfDone => FirePosts(f, s, Continue);
    case ExternalReset => FirePosts(f, s, Reset);
    case Take => if s.loops > 0 && s.chan != [] { TakePosts(f, s); }
    case Go(r) => if r < |s.runners| && !s.runners[r].waiting { GoPosts(f, s, r); }
    case Expire(r) => if r < |s.runners| { FirePosts(f, s.(runners := RemoveAt(s.runners, r)), Reset); }
    case _ =>
  }

  lemma {:induction false} RunPosts(f: Fsm, s: Sys, acts: seq<Act>)
    requires ResetDue(f, s)
    ensures ResetDue(f, Run(f, s, acts))
    decreases |acts|
  {
    hide ResetDue, Step;
    if acts != [] {
      StepPosts(f, s, acts[0]);
      RunPosts(f, Step(f, s, acts[0]), acts[1..]);
    }
  }

  lemma ResetEnters(f: Fsm, s: Sys)
    requires Live(s.st)
    ensures FireEvent(f, s, Reset) ==
            s.(st := Resetting, chan := s.chan + [Abort], posted := s.posted + multiset{Restart})
  {
  }

  lemma RestartEnters(f: Fsm, s: Sys)
    requires s.st.Resetting?
    ensures FireEvent(f, s, Restart) == s.(st := Disabled)
  {
  }

  /** A reset that is on its way takes the FSM to Disabled. */
  lemma ResetDisables(f: Fsm, s: Sys)
    requires Live(s.st) && Reset in s.posted
    ensures Run(f, s, [FirePosted(Reset), FirePosted(Restart)]) ==
            s.(st := Disabled, chan := s.chan + [Abort], posted := s.posted - multiset{Reset})
  {
    var u := s.(posted := s.posted - multiset{Reset});
    ResetEnters(f, u);
    var t := FireEvent(f, u, Reset);
    assert t.posted - multiset{Restart} == u.posted;
    RestartEnters(f, t.(posted := u.posted));
    hide FireEvent;
    assert Step(f, s, FirePosted(Reset)) == t;
    assert Step(f, t, FirePosted(Restart)) == FireEvent(f, t.(posted := u.posted), Restart);
    hide Step;
    RunTwo(f, s, FirePosted(Reset), FirePosted(Restart));
  }

  /** An FSM whose Done posts a reset always finds its way back from there by itself. */
  lemma DoneReturns(f: Fsm, acts: seq<Act>)
    requires f.autoReset && Run(f, INIT, acts).st.Done?
    ensures var s := Run(f, INIT, acts);
            Reset in s.posted && Run(f, s, [FirePosted(Reset), FirePosted(Restart)]).st.Disabled?
  {
    RunPosts(f, INIT, acts);
    hide Run;
    ResetDisables(f, Run(f, INIT, acts));
  }

  /** An expired wait, or a reset from outside, takes a live FSM to Disabled in every reachable state. */
  lemma LiveIsResettable(f: Fsm, acts: seq<Act>, r: nat)
    requires Live(Run(f, INIT, acts).st)
    ensures var s := Run(f, INIT, acts);
            && Run(f, s, [ExternalReset, FirePosted(Restart)]).st.Disabled?
            && (r < |s.runners| && s.runners[r].waiting ==>
                  var t := Run(f, s, [Expire(r), FirePosted(Restart)]);
                  t.st.Disabled? && |t.runners| == |s.runners| - 1)
  {
    var s := Run(f, INIT, acts);
    hide Run;
    ResetEnters(f, s);
    var t := Step(f, s, ExternalReset);
    RestartEnters(f, t.(posted := t.posted - multiset{Restart}));
    RunTwo(f, s, ExternalReset, FirePosted(Restart));
    if r < |s.runners| && s.runners[r].waiting {
      var u := s.(runners := RemoveAt(s.runners, r));
      ResetEnters(f, u);
      var v := Step(f, s, Expire(r));
      RestartEnters(f, v.(posted := v.posted - multiset{Restart}));
      hide FireEvent;
      RunTwo(f, s, Expire(r), FirePosted(Restart));
    }
  }

  // ---- an FSM that does not reset itself ----

  /** No reset is on its way, and none will be posted in the first session. */
  ghost predicate Patient(s: Sys) {
    && s.sessions >= 1
    && (s.sessions == 1 ==> Reset !in s.posted && forall p | p in s.script :: !GivesUp(p))
  }

  lemma FireStaysPatient(f: Fsm, s: Sys, ev: Ev)
    requires !f.autoReset && Patient(s) && !ev.Start?
    ensures Patient(FireEvent(f, s, ev))
  {
    var d := Target(f, s.st, ev);
    if d.Some? && d.value.Phase? && d.value.i < |s.script| { assert s.script[d.value.i] in s.script; }
  }

  lemma StartMakesPatient(f: Fsm, s: Sys, a: Act)
    requires Patient(s) && a.Begin?
    ensures Patient(Step(f, s, a))
  {
  }

  lemma StepStaysPatient(f: Fsm, s: Sys, a: Act)
    requires !f.autoReset && Conserved(s) && Patient(s)
    ensures Patient(Step(f, s, a))
  {
    hide FireEvent, Conserved;
    match a
    case Begin(_, _) => StartMakesPatient(f, s, a);
    case FirePosted(ev) =>
      if ev in s.posted {
        StartNotPosted(s);
        FireStaysPatient(f, s.(posted := s.posted - multiset{ev}), ev);
      }
    case TechProfMissing => FireStaysPatient(f, s.(posted := s.posted - multiset{StartConfig}), WaitTechProf);
    case TechProfDone => FireStaysPatient(f, s, Continue);
    case ExternalReset => FireStaysPatient(f, s, Reset);
    case Take =>
      if s.chan != [] && s.chan[0].Resp? && s.lastTx.Some? {
        var x := React(f, s.chan[0].op, s.lastTx.value.cls);
        if x.Fire? { FireStaysPatient(f, s.(chan := s.chan[1..]), Advance(x.i)); }
      }
    case Go(r) =>
      if r < |s.runners| { FireStaysPatient(f, s.(runners := RemoveAt(s.runners, r)), Advance(s.runners[r].phase)); }
    case Expire(r) => if r < |s.runners| { FireStaysPatient(f, s.(runners := RemoveAt(s.runners, r)), Reset); }
    case _ =>
  }

  lemma StartNotPosted(s: Sys)
    requires Conserved(s)
    ensures Start !in s.posted
  {
  }

  lemma {:induction false} RunStaysPatient(f: Fsm, s: Sys, acts: seq<Act>)
    requires !f.autoReset && Conserved(s) && Patient(s)
    ensures Patient(Run(f, s, acts))
    decreases |acts|
  {
    hide Patient, Step, Conserved;
    if acts != [] {
      StepStaysPatient(f, s, acts[0]);
      StepConserves(f, s, acts[0]);
      RunStaysPatient(f, Step(f, s, acts[0]), acts[1..]);
    }
  }

  lemma DoneIgnores(f: Fsm, s: Sys, ev: Ev)
    requires s.st.Done? && !ev.Reset? && (ev.Restart? ==> !f.restartAnywhere)
    ensures FireEvent(f, s, ev) == s
  {
  }

  lemma OnlyOutsideEndsDone(f: Fsm, s: Sys, a: Act)
    requires s.st.Done? && s.runners == [] && Reset !in s.posted && !f.restartAnywhere
    requires !a.ExternalReset?
    ensures Step(f, s, a).st.Done?
  {
    hide FireEvent;
    match a
    case FirePosted(ev) => if ev in s.posted { DoneIgnores(f, s.(posted := s.posted - multiset{ev}), ev); }
    case TechProfMissing => DoneIgnores(f, s.(posted := s.posted - multiset{StartConfig}), WaitTechProf);
    case TechProfDone => DoneIgnores(f, s, Continue);
    case Take =>
      if s.chan != [] && s.chan[0].Resp? && s.lastTx.Some? {
        var x := React(f, s.chan[0].op, s.lastTx.value.cls);
        if x.Fire? { DoneIgnores(f, s.(chan := s.chan[1..]), Advance(x.i)); }
      }
    case _ =>
  }

  /** In its first session, an FSM that does not reset itself stays done until somebody resets it. */
  lemma StaysDone(f: Fsm, script: seq<PhaseScript>, tx: Option<Me>, acts: seq<Act>, a: Act)
    requires !f.autoReset && !f.restartAnywhere && Conforms(f, script) && !a.ExternalReset?
    requires forall p | p in script :: !GivesUp(p)
    ensures var s := Run(f, Step(f, INIT, Begin(script, tx)), acts);
            s.sessions == 1 && s.st.Done? ==> Reset !in s.posted && Step(f, s, a).st.Done?
  {
    var s1 := Step(f, INIT, Begin(script, tx));
    StepConserves(f, INIT, Begin(script, tx));
    assert Alternating([]) == [];
    assert Safe(f, s1, script, 1) && Patient(s1);
    RunSafe(f, s1, script, 1, acts);
    RunStaysPatient(f, s1, acts);
    RunConserves(f, s1, acts);
    var s := Run(f, s1, acts);
    if s.sessions == 1 && s.st.Done? {
      hide Run, Step, Flat, Alternating, AllAnswerable, SkipsPosted, Conforms, Resps;
      assert s.runners == [];
      OnlyOutsideEndsDone(f, s, a);
    }
  }

  // ---- one session after the other ----

  /** Disabled, with nothing under way and no message left. */
  ghost predicate Resting(s: Sys) {
    && s.st.Disabled? && s.loops == 0 && s.handing == 0 && s.chan == [] && s.open == {} && s.runners == []
    && forall i: nat :: Advance(i) !in s.posted
  }

  /** With an ONU that cooperates, a resting FSM gets through any script its handler knows. */
  lemma Completes(f: Fsm, s: Sys, script: seq<PhaseScript>, tx: Option<Me>) returns (acts: seq<Act>, d: Sys)
    requires Resting(s) && Conforms(f, script) && AllAnswerable(f, Flat(script))
    ensures Run(f, s, [Begin(script, tx)] + acts) == Enter(f, d) && Unforced(acts)
    ensures Ready(d, script, s.sessions + 1) && d.runners == [] && d.st.Done?
  {
    assert script != [];
    hide AllAnswerable, Conforms, UpTo;
    var t := Step(f, s, Begin(script, tx));
    var b := t.(posted := s.posted, st := Phase(0));
    assert t.posted - multiset{StartConfig} == s.posted;
    assert Step(f, t, FirePosted(StartConfig)) == Enter(f, b);
    assert Ready(b, script, s.sessions + 1);
    var tail;
    tail, d := PhasesComplete(f, b, script, s.sessions + 1, 0);
    acts := [FirePosted(StartConfig)] + tail;
    hide Step, Enter;
    assert acts[1..] == tail && ([Begin(script, tx)] + acts)[1..] == acts;
  }

  lemma DoneIsEntered(f: Fsm, d: Sys)
    requires f.autoReset && d.st.Done?
    ensures Enter(f, d) == d.(posted := d.posted + multiset{Reset})
    ensures Enter(f, d).posted - multiset{Reset} == d.posted
  {
  }

  lemma TakesAbort(f: Fsm, t: Sys)
    requires t.chan == [Abort] && t.loops == 1
    ensures Step(f, t, Take) == t.(chan := [], loops := 0)
  {
    assert [Abort][1..] == [];
  }

  /** After Done, the FSM comes to rest by itself. */
  lemma Rests(f: Fsm, d: Sys, script: seq<PhaseScript>, n: nat) returns (acts: seq<Act>, s: Sys)
    requires f.autoReset && Ready(d, script, n) && d.runners == [] && d.st.Done?
    ensures Run(f, Enter(f, d), acts) == s && Unforced(acts)
    ensures Resting(s) && s.sessions == n
  {
    hide Step, Enter;
    var e := Enter(f, d);
    DoneIsEntered(f, d);
    ResetDisables(f, e);
    assert e.chan + [Abort] == [Abort];
    var t := e.(st := Disabled, chan := [Abort], posted := d.posted);
    TakesAbort(f, t);
    s := t.(chan := [], loops := 0);
    acts := [FirePosted(Reset), FirePosted(Restart)] + [Take];
    RunAppend(f, e, [FirePosted(Reset), FirePosted(Restart)], [Take]);
    assert Run(f, t, [Take]) == Run(f, s, []);
  }

  /** Apart from its start, nobody forces the session. */
  predicate ByItself(script: seq<PhaseScript>, acts: seq<Act>) {
    acts != [] && acts[0].Begin? && acts[0].script == script && Unforced(acts[1..])
  }

  /** a completes the first session and b, without any reset from outside, the second. */
  ghost predicate InARow(
    f: Fsm, first: seq<PhaseScript>, second: seq<PhaseScript>, a: seq<Act>, b: seq<Act>, c: seq<Act>)
  {
    var s := Run(f, INIT, a);
    var t := Run(f, Run(f, s, b), c);
    && ByItself(first, a) && s.st.Done? && s.sessions == 1
    && Unforced(b)
    && ByItself(second, c) && t.st.Done? && t.sessions == 2
  }

  lemma TwoInARow(f: Fsm, first: seq<PhaseScript>, second: seq<PhaseScript>)
    requires f.autoReset && Conforms(f, first) && Conforms(f, second)
    requires AllAnswerable(f, Flat(first)) && AllAnswerable(f, Flat(second))
    ensures exists a, b, c :: InARow(f, first, second, a, b, c)
  {
    hide Conforms, AllAnswerable, Flat, Run, Step, Enter;
    var a, d := Completes(f, INIT, first, None);
    EnterKeepsState(f, d);
    var b, s := Rests(f, d, first, 1);
    var c, e := Completes(f, s, second, None);
    EnterKeepsState(f, e);
    assert ([Begin(first, None)] + a)[1..] == a && ([Begin(second, None)] + c)[1..] == c;
    assert InARow(f, first, second, [Begin(first, None)] + a, b, [Begin(second, None)] + c);
  }
}
