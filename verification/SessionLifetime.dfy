/** FSMs that run session after session: while none of them is cut short with something outstanding,
    every session starts clean and is sound. */
module SessionLifetime {
  import opened Session
  import opened SessionLoops
  import opened SessionSafety
  import opened SessionTheorems

  /** A reset or an expired wait ends the session before it is done, and something is outstanding that
      the reset does not clear away: a registered request, an effective response, a handed `true`, a
      goroutine other than the one whose wait expired, or an event that moves the session on. */
  ghost predicate CutsShort(f: Fsm, s: Sys, a: Act) {
    && Live(s.st) && !s.st.Done?
    && Resets(a)
    && !Clean(f, Step(f, s, a))
  }

  /** The scripts fit the FSM and no session is cut short. */
  ghost predicate Undisturbed(f: Fsm, s: Sys, acts: seq<Act>)
    decreases |acts|
  {
    acts == [] ||
    (!CutsShort(f, s, acts[0]) && (acts[0].Begin? ==> Conforms(f, acts[0].script))
     && Undisturbed(f, Step(f, s, acts[0]), acts[1..]))
  }

  /** A live session is on its script; between sessions nothing is left over. */
  ghost predicate Orderly(f: Fsm, s: Sys) {
    Conserved(s) && if Live(s.st) then Conforms(f, s.script) && OnScript(f, s, s.script) else Clean(f, s)
  }

  lemma FireKeepsLive(f: Fsm, s: Sys, ev: Ev)
    requires Live(s.st) && !ev.Reset? && !ev.Restart? && !ev.TimeoutSimple? && !ev.TimeoutMulti?
    ensures var t := FireEvent(f, s, ev); Live(t.st) && t.sessions == s.sessions && t.script == s.script
  {
  }

  predicate Resets(a: Act) { a.ExternalReset? || a == FirePosted(Reset) || a.Expire? }

  /** A step that ends a session is a reset. */
  lemma EndsByReset(f: Fsm, s: Sys, a: Act)
    requires Conserved(s) && Live(s.st) && !Resets(a)
    ensures var t := Step(f, s, a); Live(t.st) && t.sessions == s.sessions && t.script == s.script
  {
    hide FireEvent;
    match a
    case Begin(_, _) =>
    case FirePosted(ev) => if ev in s.posted { FireKeepsLive(f, s.(posted := s.posted - multiset{ev}), ev); }
    case TechProfMissing =>
      if StartConfig in s.posted { FireKeepsLive(f, s.(posted := s.posted - multiset{StartConfig}), WaitTechProf); }
    case TechProfDone => FireKeepsLive(f, s, Continue);
    case Take =>
      if s.chan != [] && s.chan[0].Resp? && s.lastTx.Some? {
        var x := React(f, s.chan[0].op, s.lastTx.value.cls);
        if x.Fire? { FireKeepsLive(f, s.(chan := s.chan[1..]), Advance(x.i)); }
      }
    case Go(r) =>
      if r < |s.runners| { FireKeepsLive(f, s.(runners := RemoveAt(s.runners, r)), Advance(s.runners[r].phase)); }
    case _ =>
  }

  lemma FireReset(f: Fsm, s: Sys)
    requires Live(s.st)
    ensures FireEvent(f, s, Reset) ==
            s.(st := Resetting, chan := s.chan + [Abort], posted := s.posted + multiset{Restart})
  {
  }

  /** The reset of a session that is done leaves nothing over. */
  lemma DoneEndsClean(f: Fsm, s: Sys, a: Act)
    requires OnScript(f, s, s.script) && s.st.Done? && Resets(a)
    requires !Live(Step(f, s, a).st)
    ensures Clean(f, Step(f, s, a))
  {
    RespsSnoc(f, s.chan, Abort);
    FireReset(f, s);
    FireReset(f, s.(posted := s.posted - multiset{Reset}));
    hide FireEvent, Resps, Alternating, AllAnswerable;
  }

  lemma StaysOnScript(f: Fsm, s: Sys, a: Act)
    requires Conserved(s) && Live(s.st) && Conforms(f, s.script) && OnScript(f, s, s.script) && Live(Step(f, s, a).st)
    ensures var t := Step(f, s, a); t.script == s.script && OnScript(f, t, t.script)
  {
    LiveStep(f, s, s.script, s.sessions, a);
    KeepsSession(f, s, a);
    hide Step, OnScript, Conserved, Conforms;
  }

  lemma KeepsSession(f: Fsm, s: Sys, a: Act)
    requires Conserved(s) && Live(s.st) && Live(Step(f, s, a).st)
    ensures var t := Step(f, s, a); t.sessions == s.sessions && t.script == s.script
  {
    if !Resets(a) {
      EndsByReset(f, s, a);
    } else {
      FireReset(f, s);
      if a.FirePosted? { FireReset(f, s.(posted := s.posted - multiset{Reset})); }
      if a.Expire? && a.r < |s.runners| { FireReset(f, s.(runners := RemoveAt(s.runners, a.r))); }
      hide FireEvent;
    }
  }

  lemma FireBetween(f: Fsm, s: Sys, ev: Ev)
    requires !Live(s.st) && !ev.Start?
    ensures FireEvent(f, s, ev) == s || FireEvent(f, s, ev) == s.(st := Disabled)
  {
  }

  lemma TakesBetween(f: Fsm, s: Sys)
    requires Clean(f, s) && s.loops > 0 && s.chan != []
    ensures TakeMsg(f, s) == s.(chan := s.chan[1..], loops := if s.chan[0].Abort? then s.loops - 1 else s.loops)
    ensures Clean(f, TakeMsg(f, s))
  {
    if s.chan[0].Resp? && !Effective(f, s.chan[0]) {
      HandleIneffective(f, s.(chan := s.chan[1..]), s.chan[0]);
    }
    hide Handle;
  }

  /** An event between sessions takes the FSM from Resetting to Disabled or has no row. */
  lemma FiresBetween(f: Fsm, s: Sys, posted: multiset<Ev>, ev: Ev)
    requires !Live(s.st) && Clean(f, s) && !ev.Start? && posted <= s.posted
    ensures var t := FireEvent(f, s.(posted := posted), ev); !Live(t.st) && Clean(f, t)
  {
    FireBetween(f, s.(posted := posted), ev);
    hide FireEvent, Resps;
  }

  /** Between sessions nothing comes up by itself. */
  lemma StaysClean(f: Fsm, s: Sys, a: Act)
    requires Conserved(s) && !Live(s.st) && Clean(f, s) && !a.Begin?
    ensures var t := Step(f, s, a); !Live(t.st) && Clean(f, t)
  {
    NothingRuns(f, s);
    hide FireEvent, TakeMsg, Clean;
    assert s.(posted := s.posted) == s;
    match a
    case FirePosted(ev) => if ev in s.posted { FiresBetween(f, s, s.posted - multiset{ev}, ev); }
    case TechProfMissing => FiresBetween(f, s, s.posted - multiset{StartConfig}, WaitTechProf);
    case TechProfDone => FiresBetween(f, s, s.posted, Continue);
    case ExternalReset => FiresBetween(f, s, s.posted, Reset);
    case Take => if s.loops > 0 && s.chan != [] { TakesBetween(f, s); }
    case _ =>
  }

  lemma NothingRuns(f: Fsm, s: Sys)
    requires Clean(f, s)
    ensures s.runners == [] && s.open == {} && s.handing == 0
  {
  }

  lemma BeginsOnScript(f: Fsm, s: Sys, a: Act)
    requires Orderly(f, s) && a.Begin? && Conforms(f, a.script)
    ensures Orderly(f, Step(f, s, a))
  {
    StepConserves(f, s, a);
    if s.st.Disabled? {
      assert Alternating([]) == [];
    }
    hide Conserved, Conforms, Resps;
  }

  lemma OrderlyStep(f: Fsm, s: Sys, a: Act)
    requires Orderly(f, s) && !CutsShort(f, s, a) && (a.Begin? ==> Conforms(f, a.script))
    ensures Orderly(f, Step(f, s, a))
  {
    hide Step, Conforms, OnScript, Clean, Conserved;
    if a.Begin? {
      BeginsOnScript(f, s, a);
    } else {
      StepConserves(f, s, a);
      if !Live(s.st) {
        StaysClean(f, s, a);
      } else if Live(Step(f, s, a).st) {
        StaysOnScript(f, s, a);
        KeepsSession(f, s, a);
      } else {
        if !Resets(a) { EndsByReset(f, s, a); }
        if s.st.Done? { DoneEndsClean(f, s, a); }
      }
    }
  }

  lemma {:induction false} RunOrderly(f: Fsm, s: Sys, acts: seq<Act>)
    requires Orderly(f, s) && Undisturbed(f, s, acts)
    ensures Orderly(f, Run(f, s, acts))
    decreases |acts|
  {
    hide Orderly, Step, Conforms, CutsShort;
    if acts != [] {
      OrderlyStep(f, s, acts[0]);
      RunOrderly(f, Step(f, s, acts[0]), acts[1..]);
    }
  }

  /** Over the whole life of an FSM: as long as no reset and no expired wait hits a session that is not
      done while something of it is outstanding, every session starts clean and every Done is fully
      acknowledged. Resets of a disabled FSM, of a session that waits for nothing or of one whose
      request was refused do no harm. */
  lemma EverySessionSound(f: Fsm, acts: seq<Act>)
    requires Undisturbed(f, INIT, acts)
    ensures var s := Run(f, INIT, acts);
            && (s.st.Disabled? ==> Clean(f, s))
            && (Live(s.st) ==> s.trace <= Alternating(Flat(s.script)))
            && (s.st.Done? ==> s.trace == Alternating(Flat(s.script)) && AllAnswerable(f, Flat(s.script)))
  {
    assert Orderly(f, INIT);
    RunOrderly(f, INIT, acts);
    var s := Run(f, INIT, acts);
    hide Step, Run, Conserved, Clean;
    if Live(s.st) { TraceIsPrefix(f, s, s.script); }
  }
}
