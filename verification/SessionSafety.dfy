/** Sessions that start clean reach Done only with every ME of their script acknowledged,
    once each and in order. */
module SessionSafety {
  import opened Types
  import opened Session
  import opened SessionLoops

  function StepsOf(p: PhaseScript): seq<Me> {
    match p case Skip => [] case Single(me, _) => [me] case Multi(mes) => mes
  }

  /** The MEs of the first i phases, in the order they are to be sent. */
  function UpTo(script: seq<PhaseScript>, i: nat): seq<Me>
    requires i <= |script|
  {
    if i == 0 then [] else UpTo(script, i - 1) + StepsOf(script[i - 1])
  }

  function Flat(script: seq<PhaseScript>): seq<Me> { UpTo(script, |script|) }

  /** Send, acknowledge, send, acknowledge: nothing is sent before its predecessor was acknowledged. */
  function Alternating(mes: seq<Me>): seq<Tr>
    decreases |mes|
  {
    if mes == [] then []
    else Alternating(mes[..|mes| - 1]) + [Sent(mes[|mes| - 1]), Acked(mes[|mes| - 1])]
  }

  lemma AlternatingSnoc(mes: seq<Me>, me: Me)
    ensures Alternating(mes + [me]) == Alternating(mes) + [Sent(me)] + [Acked(me)]
  {
    assert (mes + [me])[..|mes|] == mes;
  }

  lemma AnswerableSnoc(f: Fsm, mes: seq<Me>, me: Me)
    requires AllAnswerable(f, mes) && Answerable(f, me)
    ensures AllAnswerable(f, mes + [me])
  {
  }

  lemma AnswerableConcat(f: Fsm, a: seq<Me>, b: seq<Me>)
    ensures AllAnswerable(f, a + b) <==> AllAnswerable(f, a) && AllAnswerable(f, b)
  {
    var c := a + b;
    assert forall j | 0 <= j < |a| :: a[j] == c[j];
    assert forall j | 0 <= j < |b| :: b[j] == c[|a| + j];
  }

  /** Which ME triggers which reaction of the handler: a single-ME phase is left only by
      the response to its own action, a multi-ME phase is never left by a response. */
  ghost predicate Conforms(f: Fsm, script: seq<PhaseScript>) {
    0 < |script| == f.phases && forall i | 0 <= i < |script| :: PhaseOk(f, i, script[i])
  }

  ghost predicate PhaseOk(f: Fsm, i: nat, p: PhaseScript) {
    match p
    case Skip => i !in f.multi
    case Single(me, _) => i !in f.multi && SingleOk(f, i, me)
    case Multi(mes) => i in f.multi && forall j | 0 <= j < |mes| :: MultiOk(f, mes[j])
  }

  ghost predicate SingleOk(f: Fsm, i: nat, me: Me) {
    forall op :: (React(f, op, me.cls) == Fire(i) <==> op == me.op) && React(f, op, me.cls) != Hand
  }

  ghost predicate MultiOk(f: Fsm, me: Me) {
    forall op :: (React(f, op, me.cls) == Hand ==> op == me.op) && !React(f, op, me.cls).Fire?
  }

  /** The handler lets a session proceed after this ME was acknowledged. */
  predicate Answerable(f: Fsm, me: Me) { !React(f, me.op, me.cls).Ignore? }

  predicate AllAnswerable(f: Fsm, mes: seq<Me>) { forall j | 0 <= j < |mes| :: Answerable(f, mes[j]) }

  /** A queued response the handler can react to at all. */
  predicate Effective(f: Fsm, m: Msg) { m.Resp? && m.ok && !React(f, m.op, m.cls).Ignore? }

  /** The effective responses in commChan. */
  function Resps(f: Fsm, chan: seq<Msg>): seq<Msg> {
    if chan == [] then []
    else if Effective(f, chan[0]) then [chan[0]] + Resps(f, chan[1..]) else Resps(f, chan[1..])
  }

  lemma {:induction false} RespsSnoc(f: Fsm, chan: seq<Msg>, m: Msg)
    ensures Resps(f, chan + [m]) == Resps(f, chan) + (if Effective(f, m) then [m] else [])
  {
    hide Effective;
    if chan == [] {
      assert chan + [m] == [m];
    } else {
      assert (chan + [m])[1..] == chan[1..] + [m];
      RespsSnoc(f, chan[1..], m);
    }
  }

  /** Nothing of an earlier session is left over that could interfere: no unanswered request, no
      effective response, no blocked handler, no script goroutine, no event that moves a session on. */
  ghost predicate Clean(f: Fsm, s: Sys) {
    && Idle(f, s) && s.runners == []
    && forall i: nat :: Advance(i) !in s.posted
  }

  ghost predicate Idle(f: Fsm, s: Sys) { s.open == {} && Resps(f, s.chan) == [] && s.handing == 0 }

  /** The current request `me` was sent after `before`; its response is outstanding, queued,
      used up without effect, or being handed to the waiting goroutine. */
  ghost predicate InFlight(f: Fsm, s: Sys, before: seq<Me>, me: Me, multi: bool) {
    && s.lastTx == Some(me)
    && s.reqs != [] && s.reqs[|s.reqs| - 1] == Req(me, s.sessions)
    && (s.trace == Alternating(before) + [Sent(me)] || s.trace == Alternating(before) + [Sent(me)] + [Acked(me)])
    && if s.open != {} then
         s.open == {|s.reqs| - 1} && Resps(f, s.chan) == [] && s.handing == 0
         && s.trace == Alternating(before) + [Sent(me)]
       else if Resps(f, s.chan) != [] then
         |Resps(f, s.chan)| == 1 && s.handing == 0
         && (var r := Resps(f, s.chan)[0];
             Effective(f, r)
             && (Good(r.op, r.ok, r.cls, r.inst, me) ==> s.trace == Alternating(before) + [Sent(me)] + [Acked(me)]))
       else s.handing == 0
            || (multi && s.handing == 1 && Answerable(f, me)
                && s.trace == Alternating(before) + [Sent(me)] + [Acked(me)])
  }

  /** A goroutine is working through the MEs of a phase; `before` is what was acknowledged earlier. */
  ghost predicate InList(f: Fsm, s: Sys, i: nat, before: seq<Me>, mes: seq<Me>) {
    && |s.runners| == 1 && s.runners[0].phase == i && |s.runners[0].todo| <= |mes|
    && (var todo := s.runners[0].todo;
        var done := before + mes[..|mes| - |todo|];
        && todo == mes[|mes| - |todo|..]
        && AllAnswerable(f, done)
        && if s.runners[0].waiting then todo != [] && InFlight(f, s, done, todo[0], true)
           else Idle(f, s) && s.trace == Alternating(done))
  }

  ghost predicate InPhase(f: Fsm, s: Sys, i: nat, before: seq<Me>, p: PhaseScript) {
    match p
    case Skip => Between(f, s, before)
    case Single(me, _) => s.runners == [] && InFlight(f, s, before, me, false)
    case Multi(mes) => InList(f, s, i, before, mes)
  }

  /** No request is under way and `before` is exactly what was sent and acknowledged. */
  ghost predicate Between(f: Fsm, s: Sys, before: seq<Me>) {
    Idle(f, s) && s.runners == [] && s.trace == Alternating(before)
  }

  ghost predicate Located(f: Fsm, s: Sys, script: seq<PhaseScript>) {
    match s.st
    case Starting => Between(f, s, [])
    case Waiting => Between(f, s, [])
    case Phase(i) =>
      i < |script| && AllAnswerable(f, UpTo(script, i)) && InPhase(f, s, i, UpTo(script, i), script[i])
    case Done => Between(f, s, Flat(script)) && AllAnswerable(f, Flat(script))
    case _ => true
  }

  ghost predicate SkipsPosted(s: Sys) {
    forall i: nat | Advance(i) in s.posted ::
      s.st == Phase(i) && i < |s.script| && s.script[i].Skip? && s.posted[Advance(i)] == 1
  }

  /** Where a live session that started clean can be. */
  ghost predicate OnScript(f: Fsm, s: Sys, script: seq<PhaseScript>) {
    s.script == script && SkipsPosted(s) && Located(f, s, script)
  }

  /** The invariant of session number n: as long as it is the latest and live, it is on script. */
  ghost predicate Safe(f: Fsm, s: Sys, script: seq<PhaseScript>, n: nat) {
    && n <= s.sessions
    && (s.sessions == n && Live(s.st) ==> OnScript(f, s, script))
  }

  /** Phase i - 1 is complete: entering the next state keeps the session on script. */
  lemma EnterNext(f: Fsm, s: Sys, script: seq<PhaseScript>, i: nat)
    requires Conforms(f, script) && i <= |script| && s.script == script
    requires s.st == (if i == |script| then Done else Phase(i))
    requires Between(f, s, UpTo(script, i)) && AllAnswerable(f, UpTo(script, i))
    requires forall j: nat :: Advance(j) !in s.posted
    ensures OnScript(f, Enter(f, s), script) && Enter(f, s).sessions == s.sessions
  {
    var t := Enter(f, s);
    if i < |script| {
      var before := UpTo(script, i);
      match script[i]
      case Skip => assert t.posted[Advance(i)] == 1;
      case Single(me, _) => assert InFlight(f, t, before, me, false);
      case Multi(mes) =>
        assert mes[..0] == [] && before + mes[..0] == before;
        assert InList(f, t, i, before, mes);
    }
  }

  lemma AdvanceFrom(f: Fsm, s: Sys, script: seq<PhaseScript>, i: nat)
    requires Conforms(f, script) && i < |script| && s.script == script && s.st == Phase(i)
    requires Between(f, s, UpTo(script, i + 1)) && AllAnswerable(f, UpTo(script, i + 1))
    requires forall j: nat :: Advance(j) !in s.posted
    ensures OnScript(f, FireEvent(f, s, Advance(i)), script)
    ensures FireEvent(f, s, Advance(i)).sessions == s.sessions
  {
    hide Enter, Resps, Alternating, UpTo, AllAnswerable, OnScript;
    var t := s.(st := if i + 1 == |script| then Done else Phase(i + 1));
    EnterNext(f, t, script, i + 1);
  }

  /** Events that find no row in the table, or that end the session, are harmless. */
  lemma OtherEvents(f: Fsm, s: Sys, script: seq<PhaseScript>, n: nat, ev: Ev)
    requires Safe(f, s, script, n)
    requires Target(f, s.st, ev).None? || Target(f, s.st, ev).value.Resetting? || Target(f, s.st, ev).value.Disabled?
    ensures Safe(f, FireEvent(f, s, ev), script, n)
  {
  }

  lemma Configure(f: Fsm, s: Sys, script: seq<PhaseScript>, ev: Ev)
    requires Conforms(f, script) && OnScript(f, s, script)
    requires (ev.StartConfig? && s.st.Starting?) || (f.waits && ev.Continue? && s.st.Waiting?)
    ensures OnScript(f, FireEvent(f, s, ev), script) && FireEvent(f, s, ev).sessions == s.sessions
  {
    assert FireEvent(f, s, ev) == Enter(f, s.(st := Phase(0)));
    EnterNext(f, s.(st := Phase(0)), script, 0);
  }

  lemma PostedAdvance(f: Fsm, s: Sys, script: seq<PhaseScript>, i: nat)
    requires Conforms(f, script) && OnScript(f, s, script) && Advance(i) in s.posted
    ensures var t := FireEvent(f, s.(posted := s.posted - multiset{Advance(i)}), Advance(i));
            OnScript(f, t, script) && t.sessions == s.sessions
  {
    assert UpTo(script, i + 1) == UpTo(script, i);
    AdvanceFrom(f, s.(posted := s.posted - multiset{Advance(i)}), script, i);
  }

  lemma OtherSafe(f: Fsm, s: Sys, script: seq<PhaseScript>, n: nat, ev: Ev)
    requires Conforms(f, script) && OnScript(f, s, script) && n == s.sessions && Live(s.st)
    requires !ev.Advance? && !ev.TimeoutSimple? && !ev.TimeoutMulti?
    ensures Safe(f, FireEvent(f, s, ev), script, n)
  {
    if (ev.StartConfig? && s.st.Starting?) || (f.waits && ev.Continue? && s.st.Waiting?) {
      Configure(f, s, script, ev);
    } else if !(ev.WaitTechProf? && f.waits && s.st.Starting?) {
      OtherEvents(f, s, script, n, ev);
    }
  }

  /** Where the session is does not depend on the posted events, nor on idle message loops. */
  lemma Reframe(f: Fsm, s: Sys, t: Sys, script: seq<PhaseScript>)
    requires Located(f, s, script)
    requires t == s.(posted := t.posted, loops := t.loops, chan := t.chan) && Resps(f, t.chan) == Resps(f, s.chan)
    ensures Located(f, t, script)
  {
    if s.st.Phase? {
      var i := s.st.i;
      var before := UpTo(script, i);
      assert InPhase(f, s, i, before, script[i]);
      match script[i]
      case Skip =>
      case Single(me, _) => assert InFlight(f, t, before, me, false);
      case Multi(mes) =>
        assert t.runners == s.runners && InList(f, s, i, before, mes);
        var done := before + mes[..|mes| - |s.runners[0].todo|];
        if s.runners[0].waiting { assert InFlight(f, t, done, s.runners[0].todo[0], true); }
        assert InList(f, t, i, before, mes);
    }
  }

  lemma PostedSafe(f: Fsm, s: Sys, script: seq<PhaseScript>, n: nat, ev: Ev)
    requires Conforms(f, script) && OnScript(f, s, script) && n == s.sessions && Live(s.st)
    requires Conserved(s) && ev in s.posted
    ensures Safe(f, FireEvent(f, s.(posted := s.posted - multiset{ev}), ev), script, n)
  {
    if ev.Advance? {
      PostedAdvance(f, s, script, ev.i);
    } else {
      var t := s.(posted := s.posted - multiset{ev});
      Reframe(f, s, t, script);
      assert SkipsPosted(t) by {
        assert forall i: nat :: t.posted[Advance(i)] == s.posted[Advance(i)];
      }
      OtherSafe(f, t, script, n, ev);
    }
  }

  // ---- the response path ----

  /** A Success response that matches the outstanding request was taken from commChan. */
  lemma HandleSafe(f: Fsm, s: Sys, script: seq<PhaseScript>, n: nat, m: Msg)
    requires Conforms(f, script) && OnScript(f, s.(chan := [m] + s.chan), script) && n == s.sessions && Live(s.st)
    requires Effective(f, m) && s.loops > 0
    ensures Safe(f, Handle(f, s, m), script, n)
  {
    hide Handle, Enter, FireEvent, Alternating, UpTo, AllAnswerable, Conforms;
    var u := s.(chan := [m] + s.chan);
    assert u.chan[1..] == s.chan;
    assert Resps(f, u.chan) == [m] + Resps(f, s.chan);
    hide Resps;
    var i := s.st.i;
    var before := UpTo(script, i);
    match script[i]
    case Single(me, _) =>
      assert InFlight(f, u, before, me, false);
      assert Resps(f, s.chan) == [];
      assert InFlight(f, s, before, me, false);
      HandleSingle(f, s, script, i, me, m);
    case Multi(mes) =>
      assert InList(f, u, i, before, mes);
      var done := before + mes[..|mes| - |s.runners[0].todo|];
      assert InFlight(f, u, done, s.runners[0].todo[0], true);
      assert Resps(f, s.chan) == [];
      assert InFlight(f, s, done, s.runners[0].todo[0], true);
      assert InList(f, s, i, before, mes);
      HandleMulti(f, s, script, i, mes, m);
  }

  /** A refusal, or a response to something no handler waits for. */
  lemma HandleIneffective(f: Fsm, s: Sys, m: Msg)
    requires m.Resp? && s.loops > 0 && !Effective(f, m)
    ensures Handle(f, s, m) == s
  {
  }

  lemma HandleSingle(f: Fsm, s: Sys, script: seq<PhaseScript>, i: nat, me: Me, m: Msg)
    requires Conforms(f, script) && s.script == script && SkipsPosted(s)
    requires s.st == Phase(i) && i < |script| && script[i].Single? && script[i].me == me && s.runners == []
    requires m.Resp? && s.loops > 0 && Resps(f, s.chan) == [] && s.open == {} && s.handing == 0
    requires AllAnswerable(f, UpTo(script, i)) && InFlight(f, s, UpTo(script, i), me, false)
    requires Good(m.op, m.ok, m.cls, m.inst, me) ==> s.trace == Alternating(UpTo(script, i)) + [Sent(me)] + [Acked(me)]
    ensures OnScript(f, Handle(f, s, m), script) && Handle(f, s, m).sessions == s.sessions
  {
    hide Enter, Resps, Alternating, AllAnswerable;
    assert PhaseOk(f, i, script[i]);
    if m.ok && m.cls == me.cls && m.inst == me.inst && m.op == me.op {
      AlternatingSnoc(UpTo(script, i), me);
      assert UpTo(script, i + 1) == UpTo(script, i) + [me];
      assert React(f, m.op, me.cls) == Fire(i);
      assert Between(f, s, UpTo(script, i + 1));
      assert AllAnswerable(f, UpTo(script, i + 1)) by { AnswerableSnoc(f, UpTo(script, i), me); }
      assert forall j: nat :: Advance(j) !in s.posted;
      assert Handle(f, s, m) == FireEvent(f, s, Advance(i));
      AdvanceFrom(f, s, script, i);
    } else {
      assert Handle(f, s, m) == s;
    }
  }

  lemma HandleMulti(f: Fsm, s: Sys, script: seq<PhaseScript>, i: nat, mes: seq<Me>, m: Msg)
    requires Conforms(f, script) && s.script == script && SkipsPosted(s)
    requires s.st == Phase(i) && i < |script| && script[i] == Multi(mes)
    requires m.Resp? && s.loops > 0 && Resps(f, s.chan) == [] && s.open == {} && s.handing == 0
    requires AllAnswerable(f, UpTo(script, i)) && InList(f, s, i, UpTo(script, i), mes) && s.runners[0].waiting
    requires var done := UpTo(script, i) + mes[..|mes| - |s.runners[0].todo|];
             var me := s.runners[0].todo[0];
             Good(m.op, m.ok, m.cls, m.inst, me) ==> s.trace == Alternating(done) + [Sent(me)] + [Acked(me)]
    ensures OnScript(f, Handle(f, s, m), script) && Handle(f, s, m).sessions == s.sessions
  {
    hide Enter, FireEvent, Resps, Alternating, UpTo, AllAnswerable;
    assert PhaseOk(f, i, script[i]);
    var me := s.runners[0].todo[0];
    assert me == mes[|mes| - |s.runners[0].todo|];
    assert MultiOk(f, me);
    var t := Handle(f, s, m);
    var done := UpTo(script, i) + mes[..|mes| - |s.runners[0].todo|];
    if m.ok && m.cls == me.cls && m.inst == me.inst && React(f, m.op, me.cls).Hand? {
      assert t == s.(loops := s.loops - 1, handing := 1);
      assert InFlight(f, t, done, me, true);
      assert InList(f, t, i, UpTo(script, i), mes);
    } else {
      assert t == s;
    }
  }

  lemma TakeSafe(f: Fsm, s: Sys, script: seq<PhaseScript>, n: nat)
    requires Conforms(f, script) && OnScript(f, s, script) && n == s.sessions && Live(s.st)
    requires s.loops > 0 && s.chan != []
    ensures Safe(f, TakeMsg(f, s), script, n)
  {
    hide Handle, Located, UpTo, Alternating;
    var rest := s.(chan := s.chan[1..]);
    if s.chan[0].Abort? {
      Reframe(f, s, rest.(loops := s.loops - 1), script);
    } else if Effective(f, s.chan[0]) {
      assert s.chan == [s.chan[0]] + rest.chan;
      HandleSafe(f, rest, script, n, s.chan[0]);
    } else {
      HandleIneffective(f, rest, s.chan[0]);
      Reframe(f, s, rest, script);
    }
  }

  // ---- the script goroutine ----

  lemma GoSafe(f: Fsm, s: Sys, script: seq<PhaseScript>, r: nat)
    requires Conforms(f, script) && OnScript(f, s, script) && Live(s.st)
    requires r < |s.runners| && !s.runners[r].waiting
    ensures OnScript(f, GoRunner(f, s, r), script) && GoRunner(f, s, r).sessions == s.sessions
  {
    hide Enter, FireEvent, Resps, Alternating, AllAnswerable;
    var i := s.st.i;
    var mes, before := script[i].mes, UpTo(script, i);
    var todo := s.runners[0].todo;
    var done := before + mes[..|mes| - |todo|];
    if todo == [] {
      var t := s.(runners := []);
      assert RemoveAt(s.runners, 0) == [];
      assert mes[..|mes|] == mes && done == before + mes && UpTo(script, i + 1) == done;
      AdvanceFrom(f, t, script, i);
    } else {
      var t := GoRunner(f, s, r);
      assert InFlight(f, t, done, todo[0], true);
      assert InList(f, t, i, before, mes);
    }
  }

  lemma RendezvousSafe(f: Fsm, s: Sys, script: seq<PhaseScript>, r: nat)
    requires Conforms(f, script) && OnScript(f, s, script) && Live(s.st)
    requires r < |s.runners| && s.runners[r].waiting && s.handing > 0
    ensures s.runners[r].todo != []
    ensures var t := Step(f, s, Rendezvous(r)); OnScript(f, t, script) && t.sessions == s.sessions
  {
    hide Enter, FireEvent, Resps, Alternating, AllAnswerable, Conforms;
    var i := s.st.i;
    var mes, before := script[i].mes, UpTo(script, i);
    var todo := s.runners[0].todo;
    var done := before + mes[..|mes| - |todo|];
    var t := Step(f, s, Rendezvous(r));
    AlternatingSnoc(done, todo[0]);
    AnswerableSnoc(f, done, todo[0]);
    assert todo[0] == mes[|mes| - |todo|];
    assert before + mes[..|mes| - |todo| + 1] == done + [todo[0]];
    assert t.runners == [Runner(i, todo[1..], false)];
    assert InList(f, t, i, before, mes);
  }

  lemma ReplySafe(f: Fsm, s: Sys, script: seq<PhaseScript>, req: nat, m: Msg)
    requires OnScript(f, s, script) && Live(s.st)
    requires req in s.open && m.Resp?
    ensures OnScript(f, ReplyTo(s, req, m), script) && ReplyTo(s, req, m).sessions == s.sessions
  {
    hide Enter, FireEvent, Alternating, AllAnswerable, UpTo;
    var t := ReplyTo(s, req, m);
    var i := s.st.i;
    RespsSnoc(f, s.chan, m);
    hide Resps;
    var before := UpTo(script, i);
    match script[i]
    case Single(me, _) => assert InFlight(f, t, before, me, false);
    case Multi(mes) =>
      var done := before + mes[..|mes| - |s.runners[0].todo|];
      assert InFlight(f, t, done, s.runners[0].todo[0], true);
      assert InList(f, t, i, before, mes);
  }

  // ---- whole runs ----

  /** An ended session is only followed by a new one. */
  ghost predicate Follows(s: Sys, t: Sys) {
    t.sessions > s.sessions || (t.sessions == s.sessions && (Live(t.st) ==> Live(s.st)))
  }

  lemma FireFollows(f: Fsm, s: Sys, ev: Ev)
    ensures Follows(s, FireEvent(f, s, ev))
  {
  }

  lemma StepFollows(f: Fsm, s: Sys, a: Act)
    ensures Follows(s, Step(f, s, a))
  {
    hide FireEvent;
    match a
    case Begin(script, tx) => FireFollows(f, s.(script := script, lastTx := tx), Start);
    case FirePosted(ev) => if ev in s.posted { FireFollows(f, s.(posted := s.posted - multiset{ev}), ev); }
    case TechProfMissing =>
      if StartConfig in s.posted { FireFollows(f, s.(posted := s.posted - multiset{StartConfig}), WaitTechProf); }
    case TechProfDone => FireFollows(f, s, Continue);
    case ExternalReset => FireFollows(f, s, Reset);
    case Take =>
      if s.chan != [] && s.chan[0].Resp? && s.lastTx.Some? {
        var x := React(f, s.chan[0].op, s.lastTx.value.cls);
        if x.Fire? { FireFollows(f, s.(chan := s.chan[1..]), Advance(x.i)); }
      }
    case Go(r) =>
      if r < |s.runners| { FireFollows(f, s.(runners := RemoveAt(s.runners, r)), Advance(s.runners[r].phase)); }
    case Expire(r) => if r < |s.runners| { FireFollows(f, s.(runners := RemoveAt(s.runners, r)), Reset); }
    case _ =>
  }

  lemma StepSafe(f: Fsm, s: Sys, script: seq<PhaseScript>, n: nat, a: Act)
    requires Conforms(f, script) && Conserved(s) && Safe(f, s, script, n)
    ensures Safe(f, Step(f, s, a), script, n)
  {
    hide Step, Conserved, Conforms, OnScript;
    StepFollows(f, s, a);
    if s.sessions == n && Live(s.st) { LiveStep(f, s, script, n, a); }
  }

  lemma LiveStep(f: Fsm, s: Sys, script: seq<PhaseScript>, n: nat, a: Act)
    requires Conforms(f, script) && Conserved(s) && OnScript(f, s, script) && n == s.sessions && Live(s.st)
    ensures Safe(f, Step(f, s, a), script, n)
  {
    hide FireEvent, OnScript, Conserved, Conforms, TakeMsg, GoRunner, ReplyTo;
    match a
    case Begin(_, _) =>
    case FirePosted(ev) => if ev in s.posted { PostedSafe(f, s, script, n, ev); }
    case TechProfMissing => if f.waits && StartConfig in s.posted { MissingSafe(f, s, script, n); }
    case TechProfDone => if f.waits { OtherSafe(f, s, script, n, Continue); }
    case ExternalReset => OtherSafe(f, s, script, n, Reset);
    case Take => if s.loops > 0 && s.chan != [] { TakeSafe(f, s, script, n); }
    case Go(r) => if r < |s.runners| && !s.runners[r].waiting { GoSafe(f, s, script, r); }
    case Rendezvous(r) =>
      if r < |s.runners| && s.runners[r].waiting && s.handing > 0 { RendezvousSafe(f, s, script, r); }
    case Expire(r) =>
      if r < |s.runners| && s.runners[r].waiting { ResetEnds(f, s.(runners := RemoveAt(s.runners, r)), script); }
    case Reply(req, op, ok, cls, inst) =>
      if req in s.open { ReplySafe(f, s, script, req, Resp(op, ok, cls, inst)); }
  }

  lemma ResetEnds(f: Fsm, s: Sys, script: seq<PhaseScript>)
    requires Live(s.st)
    ensures FireEvent(f, s, Reset).st.Resetting? && FireEvent(f, s, Reset).sessions == s.sessions
  {
  }

  lemma MissingSafe(f: Fsm, s: Sys, script: seq<PhaseScript>, n: nat)
    requires Conforms(f, script) && OnScript(f, s, script) && n == s.sessions && Live(s.st)
    requires f.waits && StartConfig in s.posted
    ensures Safe(f, FireEvent(f, s.(posted := s.posted - multiset{StartConfig}), WaitTechProf), script, n)
  {
    var t := s.(posted := s.posted - multiset{StartConfig});
    Reframe(f, s, t, script);
    assert SkipsPosted(t) by {
      assert forall i: nat :: t.posted[Advance(i)] == s.posted[Advance(i)];
    }
    OtherSafe(f, t, script, n, WaitTechProf);
  }

  lemma {:induction false} RunSafe(f: Fsm, s: Sys, script: seq<PhaseScript>, n: nat, acts: seq<Act>)
    requires Conforms(f, script) && Conserved(s) && Safe(f, s, script, n)
    ensures Safe(f, Run(f, s, acts), script, n)
    decreases |acts|
  {
    hide Step, Conforms, Conserved, Safe;
    if acts != [] {
      StepConserves(f, s, acts[0]);
      StepSafe(f, s, script, n, acts[0]);
      RunSafe(f, Step(f, s, acts[0]), script, n, acts[1..]);
    }
  }
}
