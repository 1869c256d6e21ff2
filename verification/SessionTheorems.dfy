/** The main results about scripted sessions, for every FSM, script, scheduler and ONU. */
module SessionTheorems {
  import opened Types
  import opened Session
  import opened SessionLoops
  import opened SessionSafety

  // ---- a session that starts clean ----

  lemma {:induction false} AlternatingPrefix(a: seq<Me>, b: seq<Me>)
    ensures Alternating(a) <= Alternating(a + b)
    decreases |b|
  {
    if b == [] {
      assert a + b == a;
    } else {
      var front, last := b[..|b| - 1], b[|b| - 1];
      AlternatingPrefix(a, front);
      assert a + b == (a + front) + [last];
      AlternatingSnoc(a + front, last);
    }
  }

  lemma {:induction false} UpToPrefix(script: seq<PhaseScript>, i: nat)
    requires i <= |script|
    ensures UpTo(script, i) <= Flat(script)
    decreases |script| - i
  {
    if i < |script| { UpToPrefix(script, i + 1); }
  }

  lemma NextPrefix(done: seq<Me>, todo: seq<Me>, flat: seq<Me>)
    requires done + todo <= flat
    ensures Alternating(done) <= Alternating(flat)
    ensures todo != [] ==> Alternating(done) + [Sent(todo[0])] <= Alternating(flat)
    ensures todo != [] ==> Alternating(done) + [Sent(todo[0])] + [Acked(todo[0])] <= Alternating(flat)
  {
    hide Alternating;
    assert done <= flat by { assert done == (done + todo)[..|done|]; }
    var rest := flat[|done|..];
    assert done + rest == flat;
    AlternatingPrefix(done, rest);
    if todo != [] {
      assert todo[0] == (done + todo)[|done|] == flat[|done|];
      assert done + [todo[0]] + rest[1..] == flat;
      AlternatingSnoc(done, todo[0]);
      AlternatingPrefix(done + [todo[0]], rest[1..]);
    }
  }

  lemma ListTraceIsPrefix(f: Fsm, s: Sys, i: nat, before: seq<Me>, mes: seq<Me>, flat: seq<Me>)
    requires InList(f, s, i, before, mes) && before + mes <= flat
    ensures s.trace <= Alternating(flat)
  {
    hide AllAnswerable, Resps, Alternating;
    var todo := s.runners[0].todo;
    var done := before + mes[..|mes| - |todo|];
    assert mes == mes[..|mes| - |todo|] + todo;
    assert done + todo == before + mes;
    NextPrefix(done, todo, flat);
  }

  lemma TraceIsPrefix(f: Fsm, s: Sys, script: seq<PhaseScript>)
    requires OnScript(f, s, script) && Live(s.st)
    ensures s.trace <= Alternating(Flat(script))
  {
    hide AllAnswerable, SkipsPosted, Resps, Alternating, InList;
    if s.st.Phase? {
      var i := s.st.i;
      UpToPrefix(script, i + 1);
      var before, mes := UpTo(script, i), StepsOf(script[i]);
      assert UpTo(script, i + 1) == before + mes;
      hide UpTo;
      match script[i]
      case Skip => NextPrefix(before, [], Flat(script));
      case Single(me, _) => NextPrefix(before, [me], Flat(script));
      case Multi(_) => ListTraceIsPrefix(f, s, i, before, mes, Flat(script));
    } else {
      NextPrefix([], [], Flat(script));
      NextPrefix(Flat(script), [], Flat(script));
    }
  }

  /** A session that starts clean: at every moment of its life, what it sent and what the ONU
      acknowledged is an initial part of send/ack/send/ack along the script, and Done means
      the whole script, once each and in order. Resets, expired waits, refusals, lost and
      repeated frames may happen at any time. */
  lemma CleanSessionSound(f: Fsm, s0: Sys, script: seq<PhaseScript>, tx: Option<Me>, acts: seq<Act>)
    requires Conserved(s0) && s0.st.Disabled? && Clean(f, s0) && Conforms(f, script)
    ensures var s := Run(f, Step(f, s0, Begin(script, tx)), acts);
            s.sessions == s0.sessions + 1 ==>
              && (Live(s.st) ==> s.trace <= Alternating(Flat(script)))
              && (s.st.Done? ==> s.trace == Alternating(Flat(script)) && AllAnswerable(f, Flat(script)))
  {
    var s1 := Step(f, s0, Begin(script, tx));
    StepConserves(f, s0, Begin(script, tx));
    assert Alternating([]) == [];
    assert Safe(f, s1, script, s1.sessions);
    RunSafe(f, s1, script, s1.sessions, acts);
    var s := Run(f, s1, acts);
    if s.sessions == s1.sessions && Live(s.st) { TraceIsPrefix(f, s, script); }
  }

  lemma {:induction false} AlternatingTraffic(mes: seq<Me>)
    ensures |Alternating(mes)| == 2 * |mes|
    ensures forall j | 0 <= j < |mes| ::
              Alternating(mes)[2 * j] == Sent(mes[j]) && Alternating(mes)[2 * j + 1] == Acked(mes[j])
    decreases |mes|
  {
    if mes != [] { AlternatingTraffic(mes[..|mes| - 1]); }
  }

  /** What the ONU acknowledged, in order. */
  function AckedMes(t: seq<Tr>): seq<Me>
    decreases |t|
  {
    if t == [] then []
    else AckedMes(t[..|t| - 1]) + if t[|t| - 1].Acked? then [t[|t| - 1].me] else []
  }

  lemma {:induction false} AckedOfAlternating(mes: seq<Me>)
    ensures AckedMes(Alternating(mes)) == mes
    decreases |mes|
  {
    if mes != [] {
      var front, me := mes[..|mes| - 1], mes[|mes| - 1];
      AckedOfAlternating(front);
      var t := Alternating(front);
      assert Alternating(mes) == t + [Sent(me)] + [Acked(me)];
      assert (t + [Sent(me)] + [Acked(me)])[..|t| + 1] == t + [Sent(me)] && (t + [Sent(me)])[..|t|] == t;
    }
  }

  /** Traffic along a list consists of its requests and their acknowledgements, in order. */
  lemma TrafficOf(mes: seq<Me>, t: seq<Tr>)
    requires t <= Alternating(mes)
    ensures |t| <= 2 * |mes|
    ensures forall k | 0 <= k < |t| :: t[k] == if k % 2 == 0 then Sent(mes[k / 2]) else Acked(mes[k / 2])
  {
    AlternatingTraffic(mes);
    hide Alternating;
    forall k | 0 <= k < |t| ensures t[k] == if k % 2 == 0 then Sent(mes[k / 2]) else Acked(mes[k / 2]) {
      var j := k / 2;
      assert k == 2 * j || k == 2 * j + 1;
    }
  }

  /** Whoever sees `me` sent has seen everything before it sent and acknowledged. */
  lemma SentNeedsPredecessors(before: seq<Me>, me: Me, after: seq<Me>, t: seq<Tr>)
    requires t <= Alternating(before + [me] + after) && me !in before && Sent(me) in t
    ensures Alternating(before) <= t
  {
    var flat := before + [me] + after;
    AlternatingTraffic(flat);
    AlternatingTraffic(before);
    AlternatingPrefix(before, [me] + after);
    assert before + ([me] + after) == flat;
    var k :| 0 <= k < |t| && t[k] == Sent(me);
    var j := k / 2;
    assert k == 2 * j || k == 2 * j + 1;
    assert flat[j] == me;
    assert forall i | 0 <= i < |before| :: flat[i] == before[i] && before[i] in before;
  }

  // ---- an FSM that is started once: download and VLAN ----

  ghost predicate ConformingBegins(f: Fsm, acts: seq<Act>) {
    forall i | 0 <= i < |acts| && acts[i].Begin? :: Conforms(f, acts[i].script)
  }

  lemma InitIdles(f: Fsm, a: Act)
    requires !a.Begin?
    ensures Step(f, INIT, a) == INIT
  {
  }

  /** The first session of an FSM needs no assumption at all. */
  lemma {:induction false} FirstSessionSound(f: Fsm, acts: seq<Act>)
    requires ConformingBegins(f, acts)
    ensures var s := Run(f, INIT, acts);
            s.sessions <= 1 && Live(s.st) ==>
              && s.trace <= Alternating(Flat(s.script))
              && (s.st.Done? ==> s.trace == Alternating(Flat(s.script)) && AllAnswerable(f, Flat(s.script)))
    decreases |acts|
  {
    if acts != [] {
      var a, rest := acts[0], acts[1..];
      assert ConformingBegins(f, rest) by {
        forall i | 0 <= i < |rest| && rest[i].Begin? ensures Conforms(f, rest[i].script) {
          assert rest[i] == acts[i + 1];
        }
      }
      if a.Begin? {
        var s1 := Step(f, INIT, a);
        assert Run(f, INIT, acts) == Run(f, s1, rest);
        assert Conserved(INIT) && Clean(f, INIT);
        CleanSessionSound(f, INIT, a.script, a.tx, rest);
        StepConserves(f, INIT, a);
        assert Alternating([]) == [];
        RunSafe(f, s1, a.script, 1, rest);
      } else {
        InitIdles(f, a);
        FirstSessionSound(f, rest);
      }
    }
  }
}
