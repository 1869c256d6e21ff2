/** Which scripts can be completed: exactly those whose every ME the response handler
    reacts to. The safety results are therefore about sessions that do reach Done. */
module SessionProgress {
  import opened Types
  import opened Session
  import opened SessionLoops
  import opened SessionSafety
  import opened SessionTheorems

  lemma {:induction false} RunAppend(f: Fsm, s: Sys, a: seq<Act>, b: seq<Act>)
    ensures Run(f, s, a + b) == Run(f, Run(f, s, a), b)
    decreases |a|
  {
    hide Step;
    if a == [] {
      assert a + b == b;
    } else {
      assert (a + b)[0] == a[0] && (a + b)[1..] == a[1..] + b;
      RunAppend(f, Step(f, s, a[0]), a[1..], b);
    }
  }

  lemma RunTwo(f: Fsm, s: Sys, a: Act, b: Act)
    ensures Run(f, s, [a, b]) == Step(f, Step(f, s, a), b)
  {
    hide Step;
    var t := Step(f, s, a);
    assert [a, b][1..] == [b];
    assert Run(f, t, [b]) == Run(f, Step(f, t, b), []);
  }

  /** One idle message loop and nothing under way: where phase i is entered or left. */
  ghost predicate Ready(s: Sys, script: seq<PhaseScript>, n: nat) {
    && s.sessions == n && s.script == script && s.loops == 1 && s.handing == 0
    && s.chan == [] && s.open == {} && forall i: nat :: Advance(i) !in s.posted
  }

  /** Nobody starts or resets the FSM from outside, and no wait expires. */
  predicate Unforced(acts: seq<Act>) { forall a | a in acts :: !a.Begin? && !a.ExternalReset? && !a.Expire? }

  function Success(me: Me, req: nat): Act { Reply(req, me.op, true, me.cls, me.inst) }

  lemma SingleCompletes(f: Fsm, b: Sys, script: seq<PhaseScript>, n: nat, i: nat, me: Me) returns (c: Sys)
    requires Ready(b, script, n) && b.runners == [] && b.st == Phase(i) && i < |script| == f.phases
    requires script[i].Single? && script[i].me == me && SingleOk(f, i, me)
    ensures Ready(c, script, n) && c.runners == [] && c.st == (if i + 1 == |script| then Done else Phase(i + 1))
    ensures Run(f, Enter(f, b), [Success(me, |b.reqs|), Take]) == Enter(f, c)
  {
    hide Conforms;
    var s := Enter(f, b);
    assert s == Send(b, me).(posted := s.posted);
    var t := Step(f, s, Success(me, |b.reqs|));
    var m := Resp(me.op, true, me.cls, me.inst);
    assert t.open == {} && t.chan == [m];
    c := t.(chan := [], st := if i + 1 == |script| then Done else Phase(i + 1));
    TakeSuccess(f, t, me, m, i);
    hide Step, Enter;
    RunTwo(f, s, Success(me, |b.reqs|), Take);
  }

  lemma TakeSuccess(f: Fsm, t: Sys, me: Me, m: Msg, i: nat)
    requires t.chan == [m] && m == Resp(me.op, true, me.cls, me.inst) && t.loops == 1 && t.lastTx == Some(me)
    requires React(f, me.op, me.cls) == Fire(i) && t.st == Phase(i) && i < f.phases
    ensures Step(f, t, Take) == Enter(f, t.(chan := [], st := if i + 1 == f.phases then Done else Phase(i + 1)))
  {
    hide Enter;
    assert t.chan[1..] == [];
    assert Step(f, t, Take) == FireEvent(f, t.(chan := []), Advance(i));
  }

  /** The goroutine sends the next ME, the ONU accepts it, the handler hands `true` over. */
  lemma MeCompletes(f: Fsm, s: Sys, script: seq<PhaseScript>, n: nat, i: nat, todo: seq<Me>)
    returns (acts: seq<Act>, c: Sys)
    requires Ready(s, script, n) && s.st == Phase(i) && todo != [] && s.runners == [Runner(i, todo, false)]
    requires MultiOk(f, todo[0]) && Answerable(f, todo[0])
    ensures Run(f, s, acts) == c && Unforced(acts)
    ensures Ready(c, script, n) && c.st == Phase(i) && c.runners == [Runner(i, todo[1..], false)]
  {
    var me, req := todo[0], |s.reqs|;
    var m := Resp(me.op, true, me.cls, me.inst);
    var s1 := Step(f, s, Go(0));
    assert s1 == Send(s.(runners := [Runner(i, todo, true)]), me);
    var s2 := Step(f, s1, Success(me, req));
    assert s2.open == {} && s2.chan == [m] && s2.runners == s1.runners && s2.lastTx == Some(me);
    RunTwo(f, s, Go(0), Success(me, req));
    hide Good;
    assert React(f, me.op, me.cls) == Hand;
    var s3 := Step(f, s2, Take);
    assert s2.chan[1..] == [];
    assert s3 == s2.(chan := [], loops := 0, handing := 1);
    c := Step(f, s3, Rendezvous(0));
    RunTwo(f, s2, Take, Rendezvous(0));
    acts := [Go(0), Success(me, req)] + [Take, Rendezvous(0)];
    RunAppend(f, s, [Go(0), Success(me, req)], [Take, Rendezvous(0)]);
  }

  lemma {:induction false} ListCompletes(f: Fsm, s: Sys, script: seq<PhaseScript>, n: nat, i: nat, todo: seq<Me>)
    returns (acts: seq<Act>, c: Sys)
    requires Ready(s, script, n) && s.st == Phase(i) && i < |script| == f.phases
    requires s.runners == [Runner(i, todo, false)]
    requires AllAnswerable(f, todo) && forall j | 0 <= j < |todo| :: MultiOk(f, todo[j])
    ensures Ready(c, script, n) && c.runners == [] && c.st == (if i + 1 == |script| then Done else Phase(i + 1))
    ensures Run(f, s, acts) == Enter(f, c) && Unforced(acts)
    decreases |todo|
  {
    if todo == [] {
      c := s.(runners := [], st := if i + 1 == |script| then Done else Phase(i + 1));
      assert RemoveAt(s.runners, 0) == [];
      acts := [Go(0)];
      assert Run(f, s, acts) == Run(f, Step(f, s, Go(0)), []);
      assert Step(f, s, Go(0)) == FireEvent(f, s.(runners := []), Advance(i));
    } else {
      var head, s1 := MeCompletes(f, s, script, n, i, todo);
      var tail, c1 := ListCompletes(f, s1, script, n, i, todo[1..]);
      acts, c := head + tail, c1;
      RunAppend(f, s, head, tail);
    }
  }

  /** A phase that needs no request is passed, whatever else is going on. */
  predicate Passing(p: PhaseScript) { p.Skip? || p == Multi([]) }

  function At(f: Fsm, i: nat): St { if i == f.phases then Done else Phase(i) }

  function PassAct(b: Sys, i: nat): Act
    requires i < |b.script|
  {
    if b.script[i].Skip? then FirePosted(Advance(i)) else Go(|b.runners|)
  }

  lemma AdvanceEnters(f: Fsm, b: Sys, i: nat)
    requires b.st == Phase(i) && i < f.phases
    ensures FireEvent(f, b, Advance(i)) == Enter(f, b.(st := At(f, i + 1)))
  {
    hide Enter;
  }

  lemma PassesSkip(f: Fsm, b: Sys, i: nat)
    requires b.st == Phase(i) && i < |b.script| == f.phases && b.script[i].Skip?
    ensures Step(f, Enter(f, b), FirePosted(Advance(i))) == FireEvent(f, b, Advance(i))
  {
    var s := Enter(f, b);
    assert s == b.(posted := b.posted + multiset{Advance(i)});
    hide Enter, FireEvent;
    assert s.posted - multiset{Advance(i)} == b.posted;
  }

  lemma PassesEmpty(f: Fsm, b: Sys, i: nat)
    requires b.st == Phase(i) && i < |b.script| == f.phases && b.script[i] == Multi([])
    ensures Step(f, Enter(f, b), Go(|b.runners|)) == FireEvent(f, b, Advance(i))
  {
    var s := Enter(f, b);
    assert s == b.(runners := b.runners + [Runner(i, [], false)]);
    hide Enter, FireEvent;
    assert RemoveAt(s.runners, |b.runners|) == b.runners;
  }

  lemma PassesPhase(f: Fsm, b: Sys, i: nat)
    requires b.st == Phase(i) && i < |b.script| == f.phases && Passing(b.script[i])
    ensures Run(f, Enter(f, b), [PassAct(b, i)]) == Enter(f, b.(st := At(f, i + 1)))
  {
    AdvanceEnters(f, b, i);
    if b.script[i].Skip? { PassesSkip(f, b, i); } else { PassesEmpty(f, b, i); }
    hide Enter, FireEvent, Step;
    var s, a := Enter(f, b), PassAct(b, i);
    assert Run(f, s, [a]) == Run(f, Step(f, s, a), []);
  }

  lemma {:induction false} PhasesComplete(f: Fsm, b: Sys, script: seq<PhaseScript>, n: nat, i: nat)
    returns (acts: seq<Act>, d: Sys)
    requires Conforms(f, script) && AllAnswerable(f, Flat(script)) && i <= |script|
    requires Ready(b, script, n) && b.runners == [] && b.st == (if i == |script| then Done else Phase(i))
    ensures Run(f, Enter(f, b), acts) == Enter(f, d) && Unforced(acts)
    ensures Ready(d, script, n) && d.runners == [] && d.st.Done?
    decreases |script| - i
  {
    hide Step, Enter, SingleOk, MultiOk, AllAnswerable;
    if i == |script| {
      acts, d := [], b;
    } else {
      assert PhaseOk(f, i, script[i]);
      var head: seq<Act>, c: Sys;
      match script[i] {
        case Skip =>
          head := [PassAct(b, i)];
          c := b.(st := At(f, i + 1));
          PassesPhase(f, b, i);
        case Single(me, _) =>
          head := [Success(me, |b.reqs|), Take];
          c := SingleCompletes(f, b, script, n, i, me);
        case Multi(mes) =>
          PartAnswerable(f, script, i, mes);
          EnterList(f, b, script, n, i, mes);
          head, c := ListCompletes(f, Enter(f, b), script, n, i, mes);
      }
      var tail, last := PhasesComplete(f, c, script, n, i + 1);
      acts, d := head + tail, last;
      RunAppend(f, Enter(f, b), head, tail);
    }
  }

  lemma PartAnswerable(f: Fsm, script: seq<PhaseScript>, i: nat, mes: seq<Me>)
    requires AllAnswerable(f, Flat(script)) && i < |script| && script[i] == Multi(mes)
    ensures AllAnswerable(f, mes)
  {
    hide Answerable;
    UpToPrefix(script, i + 1);
    assert UpTo(script, i + 1) == UpTo(script, i) + mes;
    forall j | 0 <= j < |mes| ensures Answerable(f, mes[j]) {
      assert mes[j] == Flat(script)[|UpTo(script, i)| + j];
    }
  }

  lemma EnterKeepsState(f: Fsm, b: Sys)
    requires !b.st.Starting?
    ensures Enter(f, b).st == b.st && Enter(f, b).sessions == b.sessions
  {
  }

  lemma EnterList(f: Fsm, b: Sys, script: seq<PhaseScript>, n: nat, i: nat, mes: seq<Me>)
    requires Ready(b, script, n) && b.runners == [] && b.st == Phase(i) && i < |script| && script[i] == Multi(mes)
    ensures Ready(Enter(f, b), script, n) && Enter(f, b).st == Phase(i)
    ensures Enter(f, b).runners == [Runner(i, mes, false)]
  {
    assert Enter(f, b) == b.(runners := b.runners + [Runner(i, mes, false)]);
  }

  /** A new FSM can complete a script if and only if its handler reacts to every ME of it. */
  lemma CompletableIffAnswerable(f: Fsm, script: seq<PhaseScript>, tx: Option<Me>)
    requires Conforms(f, script)
    ensures (exists acts :: ReachesDone(f, script, tx, acts)) <==> AllAnswerable(f, Flat(script))
  {
    if AllAnswerable(f, Flat(script)) {
      hide AllAnswerable, Conforms, UpTo;
      var s := Step(f, INIT, Begin(script, tx));
      var b := s.(posted := s.posted - multiset{StartConfig}, st := Phase(0));
      assert b.posted == multiset{};
      assert Step(f, s, FirePosted(StartConfig)) == Enter(f, b);
      var tail, d := PhasesComplete(f, b, script, 1, 0);
      EnterKeepsState(f, d);
      var acts := [FirePosted(StartConfig)] + tail;
      assert acts[1..] == tail;
      assert ReachesDone(f, script, tx, acts);
    }
    forall acts | ReachesDone(f, script, tx, acts) ensures AllAnswerable(f, Flat(script)) {
      assert Conserved(INIT) && Clean(f, INIT);
      CleanSessionSound(f, INIT, script, tx, acts);
    }
  }

  /** Some run of the first session ends in Done. */
  ghost predicate ReachesDone(f: Fsm, script: seq<PhaseScript>, tx: Option<Me>, acts: seq<Act>) {
    var s := Run(f, Step(f, INIT, Begin(script, tx)), acts);
    s.st.Done? && s.sessions == 1
  }
}
