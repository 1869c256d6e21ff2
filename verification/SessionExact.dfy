/** Exactly when the next session is sound: a disabled FSM guarantees it if and only if nothing
    of an earlier session is left over. */
module SessionExact {
  import opened Types
  import opened Session
  import opened SessionLoops
  import opened SessionSafety
  import opened SessionTheorems
  import opened SessionProgress

  // ---- what is claimed ----

  /** The state s of a session that began in s0 keeps the promise. */
  ghost predicate SoundAt(s0: Sys, script: seq<PhaseScript>, s: Sys) {
    s.sessions == s0.sessions + 1 ==>
      && (Live(s.st) ==> s.trace <= Alternating(Flat(script)))
      && (s.st.Done? ==> s.trace == Alternating(Flat(script)))
  }

  /** Whatever script that fits the FSM is begun in s0, and whatever happens then. */
  ghost predicate NextSessionSound(f: Fsm, s0: Sys) {
    forall script, tx, acts | Conforms(f, script) ::
      SoundAt(s0, script, Run(f, Step(f, s0, Begin(script, tx)), acts))
  }

  /** A run of the next session that breaks the promise. */
  ghost predicate Breaks(f: Fsm, s0: Sys, script: seq<PhaseScript>, acts: seq<Act>) {
    Conforms(f, script) && !SoundAt(s0, script, Run(f, Step(f, s0, Begin(script, None)), acts))
  }

  // ---- what every reachable state and every one of the five FSMs satisfies ----

  predicate RunnersOk(f: Fsm, runners: seq<Runner>) {
    forall r | r in runners :: r.phase in f.multi && r.phase < f.phases && (r.waiting ==> r.todo != [])
  }

  ghost predicate RequestsOk(s: Sys) {
    && (forall q | q in s.open :: q < |s.reqs|)
    && (forall k | 0 <= k < |s.reqs| :: s.reqs[k].session <= s.sessions)
  }

  ghost predicate AdvancesOk(f: Fsm, posted: multiset<Ev>) { forall i: nat | Advance(i) in posted :: i < f.phases }

  /** Goroutines, requests and events are of the kinds the FSM produces. */
  ghost predicate Plausible(f: Fsm, s: Sys) {
    && RunnersOk(f, s.runners) && RequestsOk(s) && AdvancesOk(f, s.posted)
    && (Live(s.st) ==> Conforms(f, s.script))
    && (s.st.Phase? ==> s.st.i < f.phases)
  }

  lemma EnterPhasePlausible(f: Fsm, s: Sys)
    requires Plausible(f, s) && s.st.Phase?
    ensures Plausible(f, Enter(f, s))
  {
    var i := s.st.i;
    assert PhaseOk(f, i, s.script[i]);
    hide Conforms;
    match s.script[i]
    case Skip =>
    case Single(me, _) =>
    case Multi(mes) =>
  }

  lemma FirePlausible(f: Fsm, s: Sys, ev: Ev)
    requires Plausible(f, s) && (ev.Start? ==> Conforms(f, s.script))
    ensures Plausible(f, FireEvent(f, s, ev))
  {
    var d := Target(f, s.st, ev);
    if d.Some? {
      TargetInRange(f, s.st, ev);
      var t := s.(st := d.value);
      if d.value.Phase? {
        hide Enter, Conforms, Target, RunnersOk, RequestsOk, AdvancesOk;
        EnterPhasePlausible(f, t);
      } else {
        hide Conforms, RunnersOk, Target;
      }
    }
  }

  lemma TargetInRange(f: Fsm, st: St, ev: Ev)
    requires Target(f, st, ev).Some? && (st.Phase? ==> st.i < f.phases)
    ensures var d := Target(f, st, ev).value;
            (d.Phase? ==> d.i < f.phases || d.i == 0) && (Live(d) ==> Live(st) || ev.Start?)
  {
  }

  lemma StepPlausible(f: Fsm, s: Sys, a: Act)
    requires Conserved(s) && Plausible(f, s) && (a.Begin? ==> Conforms(f, a.script))
    ensures Plausible(f, Step(f, s, a))
  {
    hide FireEvent, Conforms, TakeMsg, GoRunner, ReplyTo;
    match a
    case Begin(script, tx) => if s.st.Disabled? { FirePlausible(f, s.(script := script, lastTx := tx), Start); }
    case FirePosted(ev) => if ev in s.posted { FirePlausible(f, s.(posted := s.posted - multiset{ev}), ev); }
    case TechProfMissing => FirePlausible(f, s.(posted := s.posted - multiset{StartConfig}), WaitTechProf);
    case TechProfDone => FirePlausible(f, s, Continue);
    case ExternalReset => FirePlausible(f, s, Reset);
    case Take => if s.loops > 0 && s.chan != [] { TakePlausible(f, s); }
    case Go(r) => if r < |s.runners| && !s.runners[r].waiting { GoPlausible(f, s, r); }
    case Expire(r) => if r < |s.runners| { FirePlausible(f, s.(runners := RemoveAt(s.runners, r)), Reset); }
    case Rendezvous(r) => RendezvousPlausible(f, s, r);
    case Reply(req, op, ok, cls, inst) => ReplyPlausible(f, s, a);
  }

  lemma RendezvousPlausible(f: Fsm, s: Sys, r: nat)
    requires Plausible(f, s)
    ensures Plausible(f, Step(f, s, Rendezvous(r)))
  {
    hide AdvancesOk, Conforms;
  }

  lemma ReplyPlausible(f: Fsm, s: Sys, a: Act)
    requires Plausible(f, s) && a.Reply?
    ensures Plausible(f, Step(f, s, a))
  {
    hide RunnersOk, AdvancesOk, Conforms;
  }

  lemma TakePlausible(f: Fsm, s: Sys)
    requires Plausible(f, s) && s.loops > 0 && s.chan != []
    ensures Plausible(f, TakeMsg(f, s))
  {
    hide FireEvent, Conforms, RunnersOk, AdvancesOk;
    if s.chan[0].Resp? && s.lastTx.Some? {
      var x := React(f, s.chan[0].op, s.lastTx.value.cls);
      if x.Fire? { FirePlausible(f, s.(chan := s.chan[1..]), Advance(x.i)); }
    }
  }

  lemma GoPlausible(f: Fsm, s: Sys, r: nat)
    requires Plausible(f, s) && r < |s.runners| && !s.runners[r].waiting
    ensures Plausible(f, GoRunner(f, s, r))
  {
    hide FireEvent, Conforms, AdvancesOk;
    assert s.runners[r] in s.runners;
    if s.runners[r].todo == [] {
      FirePlausible(f, s.(runners := RemoveAt(s.runners, r)), Advance(s.runners[r].phase));
    }
  }

  lemma {:induction false} RunPlausible(f: Fsm, s: Sys, acts: seq<Act>)
    requires Conserved(s) && Plausible(f, s) && ConformingBegins(f, acts)
    ensures Plausible(f, Run(f, s, acts))
    decreases |acts|
  {
    hide Plausible, Step, Conforms, Conserved;
    if acts != [] {
      StepPlausible(f, s, acts[0]);
      StepConserves(f, s, acts[0]);
      assert forall i | 0 <= i < |acts[1..]| :: acts[1..][i] == acts[i + 1];
      RunPlausible(f, Step(f, s, acts[0]), acts[1..]);
    }
  }

  /** A phase that can be given an ME, and a reaction that some ME of its class provokes. */
  ghost predicate PhaseUsable(f: Fsm, i: nat) {
    if i in f.multi then exists me :: HandMe(f, me) else exists me :: SingleOk(f, i, me)
  }

  ghost predicate HandMe(f: Fsm, me: Me) { MultiOk(f, me) && React(f, me.op, me.cls) == Hand }

  function MeOf(op: Op, cls: ClassId, inst: uint16): Me { Me(op, cls, inst, map[]) }

  ghost predicate ReactionUsable(f: Fsm, op: Op, cls: ClassId) {
    match React(f, op, cls)
    case Ignore => true
    case Hand => HandMe(f, MeOf(op, cls, 0))
    case Fire(i) => i < f.phases && i !in f.multi && SingleOk(f, i, MeOf(op, cls, 0))
  }

  /** The table has a state for several MEs, and every state and every reaction has a use. */
  ghost predicate Regular(f: Fsm) {
    && f.phases > 0 && (exists m :: m in f.multi && m < f.phases)
    && (forall i: nat | i < f.phases :: PhaseUsable(f, i))
    && (forall op, cls :: ReactionUsable(f, op, cls))
  }

  // ---- scripts that use one phase only ----

  function Pass(f: Fsm, i: nat): PhaseScript { if i in f.multi then Multi([]) else Skip }

  function Only(f: Fsm, k: nat, p: PhaseScript): seq<PhaseScript> {
    seq(f.phases, i requires 0 <= i < f.phases => if i == k then p else Pass(f, i))
  }

  lemma OnlyAt(f: Fsm, k: nat, p: PhaseScript, i: nat)
    requires i < f.phases
    ensures Only(f, k, p)[i] == (if i == k then p else Pass(f, i))
    ensures i != k ==> Passing(Only(f, k, p)[i]) && StepsOf(Only(f, k, p)[i]) == [] && PhaseOk(f, i, Only(f, k, p)[i])
  {
  }

  lemma OnlyLength(f: Fsm, k: nat, p: PhaseScript)
    ensures |Only(f, k, p)| == f.phases
  {
  }

  lemma {:induction false} OnlyUpTo(f: Fsm, k: nat, p: PhaseScript, i: nat)
    requires i <= f.phases
    ensures UpTo(Only(f, k, p), i) == if k < i then StepsOf(p) else []
  {
    hide Only, StepsOf, PhaseOk, Passing, Pass;
    if i > 0 {
      OnlyAt(f, k, p, i - 1);
      OnlyUpTo(f, k, p, i - 1);
      assert |Only(f, k, p)| == f.phases by { OnlyLength(f, k, p); }
    }
  }

  lemma OnlyFits(f: Fsm, k: nat, p: PhaseScript)
    requires k < f.phases && PhaseOk(f, k, p)
    ensures Conforms(f, Only(f, k, p)) && Flat(Only(f, k, p)) == StepsOf(p)
    ensures forall i | 0 <= i < f.phases && i != k :: Passing(Only(f, k, p)[i])
  {
    OnlyUpTo(f, k, p, f.phases);
    var script := Only(f, k, p);
    forall i | 0 <= i < |script|
      ensures PhaseOk(f, i, script[i]) && (i != k ==> Passing(script[i]))
    {
      OnlyAt(f, k, p, i);
    }
    hide PhaseOk, Passing;
  }

  // ---- getting to a phase, whatever is left over ----

  function Aborts(chan: seq<Msg>): nat { multiset(chan)[Abort] }

  function Takes(n: nat): seq<Act> { seq(n, _ => Take) }

  /** While no request was sent, responses are dropped and abort messages end message loops. */
  lemma {:induction false} Drains(f: Fsm, s: Sys, n: nat)
    requires n <= |s.chan| && s.lastTx.None? && Aborts(s.chan[..n]) < s.loops
    ensures Run(f, s, Takes(n)) == s.(chan := s.chan[n..], loops := s.loops - Aborts(s.chan[..n]))
    decreases n
  {
    hide Step;
    if n == 0 {
      assert s.chan[..0] == [] && s.chan[0..] == s.chan;
    } else {
      var t := s.(chan := s.chan[1..], loops := if s.chan[0].Abort? then s.loops - 1 else s.loops);
      assert s.chan[..n] == [s.chan[0]] + s.chan[1..][..n - 1];
      assert Takes(n)[1..] == Takes(n - 1) && Takes(n)[0] == Take;
      DrainsOne(f, s);
      Drains(f, t, n - 1);
      assert t.chan[n - 1..] == s.chan[n..];
    }
  }

  lemma DrainsOne(f: Fsm, s: Sys)
    requires s.lastTx.None? && s.loops > 0 && s.chan != []
    ensures Step(f, s, Take) == s.(chan := s.chan[1..], loops := if s.chan[0].Abort? then s.loops - 1 else s.loops)
  {
  }

  /** Session s0.sessions + 1 with `script`, after the first n queued messages were dropped. */
  function Base(s0: Sys, script: seq<PhaseScript>, n: nat): Sys
    requires n <= |s0.chan| && Aborts(s0.chan[..n]) <= s0.loops
  {
    s0.(script := script, lastTx := None, loops := s0.loops + 1 - Aborts(s0.chan[..n]), chan := s0.chan[n..],
        sessions := s0.sessions + 1, trace := [])
  }

  lemma Configures(f: Fsm, t: Sys, posted: multiset<Ev>)
    requires t.st.Starting? && t.posted == posted + multiset{StartConfig}
    ensures Run(f, t, [FirePosted(StartConfig)]) == Enter(f, t.(st := Phase(0), posted := posted))
  {
    hide Enter;
    assert t.posted - multiset{StartConfig} == posted;
    var u := Step(f, t, FirePosted(StartConfig));
    assert u == Enter(f, t.(st := Phase(0), posted := posted));
    assert Run(f, t, [FirePosted(StartConfig)]) == Run(f, u, []);
  }

  lemma BeginsBase(f: Fsm, s0: Sys, script: seq<PhaseScript>)
    requires s0.st.Disabled?
    ensures Step(f, s0, Begin(script, None)) ==
            s0.(st := Starting, script := script, lastTx := None, loops := s0.loops + 1,
                posted := s0.posted + multiset{StartConfig}, sessions := s0.sessions + 1, trace := [])
  {
  }

  lemma Starts(f: Fsm, s0: Sys, script: seq<PhaseScript>, n: nat)
    requires s0.st.Disabled? && n <= |s0.chan| && Aborts(s0.chan[..n]) <= s0.loops
    ensures Run(f, Step(f, s0, Begin(script, None)), Takes(n) + [FirePosted(StartConfig)]) ==
            Enter(f, Base(s0, script, n).(st := Phase(0)))
  {
    var s := Step(f, s0, Begin(script, None));
    BeginsBase(f, s0, script);
    var t := Base(s0, script, n).(st := Starting, posted := s0.posted + multiset{StartConfig});
    hide Step, Enter;
    assert Run(f, s, Takes(n)) == t by { Drains(f, s, n); }
    Configures(f, t, s0.posted);
    RunAppend(f, s, Takes(n), [FirePosted(StartConfig)]);
    hide Run;
  }

  lemma {:induction false} Walks(f: Fsm, b: Sys, i: nat, k: nat) returns (acts: seq<Act>)
    requires i <= k <= f.phases == |b.script| && b.st == At(f, i)
    requires forall j | i <= j < k :: Passing(b.script[j])
    ensures Run(f, Enter(f, b), acts) == Enter(f, b.(st := At(f, k)))
    decreases k - i
  {
    hide Enter, Step;
    acts := [];
    if i < k {
      PassesPhase(f, b, i);
      var rest := Walks(f, b.(st := At(f, i + 1)), i + 1, k);
      acts := [PassAct(b, i)] + rest;
      RunAppend(f, Enter(f, b), [PassAct(b, i)], rest);
    }
  }

  /** The next session can enter any phase first. */
  lemma Reaches(f: Fsm, s0: Sys, k: nat, p: PhaseScript, n: nat) returns (acts: seq<Act>)
    requires s0.st.Disabled? && n <= |s0.chan| && Aborts(s0.chan[..n]) <= s0.loops
    requires k < f.phases && PhaseOk(f, k, p)
    ensures var script := Only(f, k, p);
            Run(f, Step(f, s0, Begin(script, None)), acts) == Enter(f, Base(s0, script, n).(st := Phase(k)))
  {
    var script := Only(f, k, p);
    OnlyFits(f, k, p);
    Starts(f, s0, script, n);
    hide Step, Enter, PhaseOk;
    var b := Base(s0, script, n).(st := Phase(0));
    var walk := Walks(f, b, 0, k);
    acts := Takes(n) + [FirePosted(StartConfig)] + walk;
    RunAppend(f, Step(f, s0, Begin(script, None)), Takes(n) + [FirePosted(StartConfig)], walk);
  }

  lemma EnterDone(f: Fsm, b: Sys)
    requires b.st.Done?
    ensures var s := Enter(f, b); s.st.Done? && s.sessions == b.sessions && s.trace == b.trace
  {
  }

  /** Once phase k is left before its time, the session is done before its time. */
  lemma Finishes(f: Fsm, s0: Sys, k: nat, p: PhaseScript, acts: seq<Act>, b: Sys)
    requires s0.st.Disabled? && k < f.phases && PhaseOk(f, k, p) && b.script == Only(f, k, p)
    requires Run(f, Step(f, s0, Begin(Only(f, k, p), None)), acts) == Enter(f, b.(st := At(f, k + 1)))
    requires b.sessions == s0.sessions + 1 && b.trace != Alternating(StepsOf(p))
    ensures exists more :: Breaks(f, s0, Only(f, k, p), more)
  {
    OnlyFits(f, k, p);
    hide Step, Enter, PhaseOk, Only, Conforms, Alternating;
    var c := b.(st := At(f, k + 1));
    var walk := Walks(f, c, k + 1, f.phases);
    EnterDone(f, c.(st := Done));
    RunAppend(f, Step(f, s0, Begin(Only(f, k, p), None)), acts, walk);
    assert Breaks(f, s0, Only(f, k, p), acts + walk);
  }

  lemma OneMore(f: Fsm, s: Sys, acts: seq<Act>, t: Sys, a: Act)
    requires Run(f, s, acts) == t
    ensures Run(f, s, acts + [a]) == Step(f, t, a)
  {
    hide Step;
    RunAppend(f, s, acts, [a]);
    assert Run(f, t, [a]) == Run(f, Step(f, t, a), []);
  }

  lemma Traces(me: Me, other: Me)
    ensures Alternating([]) == [] && Alternating([me]) == [Sent(me), Acked(me)]
    ensures Alternating([me, other]) == [Sent(me), Acked(me), Sent(other), Acked(other)]
  {
    assert [me][..0] == [] && [me, other][..1] == [me];
  }

  // ---- each kind of left-over breaks a session ----

  /** An event that moves the session on. */
  lemma PendingAdvanceBreaks(f: Fsm, s0: Sys, i: nat)
    requires Regular(f) && s0.st.Disabled? && Advance(i) in s0.posted && i < f.phases
    ensures exists script, acts :: Breaks(f, s0, script, acts)
  {
    assert PhaseUsable(f, i);
    var me :| if i in f.multi then HandMe(f, me) else SingleOk(f, i, me);
    var p := if i in f.multi then Multi([me]) else Single(me);
    hide Regular, PhaseUsable, HandMe, SingleOk, MultiOk, Alternating;
    assert s0.chan[..0] == [] && s0.chan[0..] == s0.chan;
    var acts := Reaches(f, s0, i, p, 0);
    var b := Base(s0, Only(f, i, p), 0).(st := Phase(i));
    var c := EntersAndAdvances(f, b, i, p);
    Traces(me, me);
    hide Step, Enter, Only;
    OneMore(f, Step(f, s0, Begin(Only(f, i, p), None)), acts, Enter(f, b), FirePosted(Advance(i)));
    Finishes(f, s0, i, p, acts + [FirePosted(Advance(i))], c);
  }

  lemma EntersAndAdvances(f: Fsm, b: Sys, i: nat, p: PhaseScript) returns (c: Sys)
    requires b.st == Phase(i) && i < |b.script| == f.phases && b.script[i] == p && Advance(i) in b.posted
    requires p.Multi? || (p.Single? && !p.givesUp)
    ensures Step(f, Enter(f, b), FirePosted(Advance(i))) == Enter(f, c.(st := At(f, i + 1)))
    ensures c.script == b.script && c.sessions == b.sessions
    ensures c.trace == b.trace + if p.Single? then [Sent(p.me)] else []
  {
    var s := Enter(f, b);
    c := s.(posted := s.posted - multiset{Advance(i)});
    assert s.st == b.st && s.posted == b.posted;
    AdvanceEnters(f, c, i);
    hide Enter;
  }

  /** The new goroutine of phase k has sent its only ME. */
  ghost predicate Asking(v: Sys, k: nat, me: Me, earlier: seq<Runner>) {
    && v.st == Phase(k) && v.runners == earlier + [Runner(k, [me], true)]
    && v.lastTx == Some(me) && v.trace == [Sent(me)]
  }

  lemma SendsFirst(f: Fsm, b: Sys, k: nat, mes: seq<Me>)
    requires b.st == Phase(k) && k < |b.script| && b.script[k] == Multi(mes) && mes != []
    ensures Step(f, Enter(f, b), Go(|b.runners|)) == Send(b.(runners := b.runners + [Runner(k, mes, true)]), mes[0])
  {
    var s := Enter(f, b);
    assert s == b.(runners := b.runners + [Runner(k, mes, false)]);
    hide Enter;
    assert s.runners[|b.runners| := Runner(k, mes, true)] == b.runners + [Runner(k, mes, true)];
  }

  lemma Asks(f: Fsm, s0: Sys, k: nat, mes: seq<Me>, n: nat) returns (acts: seq<Act>)
    requires s0.st.Disabled? && n <= |s0.chan| && Aborts(s0.chan[..n]) <= s0.loops
    requires k < f.phases && PhaseOk(f, k, Multi(mes)) && mes != []
    ensures var script := Only(f, k, Multi(mes));
            var b := Base(s0, script, n).(st := Phase(k));
            Run(f, Step(f, s0, Begin(script, None)), acts) ==
            Send(b.(runners := s0.runners + [Runner(k, mes, true)]), mes[0])
  {
    var p := Multi(mes);
    var script := Only(f, k, p);
    var reach := Reaches(f, s0, k, p, n);
    var b := Base(s0, script, n).(st := Phase(k));
    SendsFirst(f, b, k, mes);
    hide Step, Enter, Run, Only, PhaseOk;
    acts := reach + [Go(|s0.runners|)];
    OneMore(f, Step(f, s0, Begin(script, None)), reach, Enter(f, b), Go(|s0.runners|));
  }

  lemma Passes(f: Fsm, v: Sys, k: nat, me: Me, earlier: seq<Runner>) returns (c: Sys)
    requires Asking(v, k, me, earlier) && v.handing > 0 && k < f.phases
    ensures Step(f, Step(f, v, Rendezvous(|earlier|)), Go(|earlier|)) == Enter(f, c.(st := At(f, k + 1)))
    ensures c.script == v.script && c.sessions == v.sessions && c.trace == v.trace
  {
    var u := Step(f, v, Rendezvous(|earlier|));
    assert [me][1..] == [];
    assert u.runners == earlier + [Runner(k, [], false)];
    assert u.st == v.st && u.trace == v.trace && u.script == v.script && u.sessions == v.sessions;
    c := u.(runners := earlier);
    assert RemoveAt(u.runners, |earlier|) == earlier;
    AdvanceEnters(f, c, k);
    hide Enter, FireEvent;
  }

  /** A handed `true` that is not the answer to the ME completes its phase. */
  lemma HandedBreaks(f: Fsm, s0: Sys, k: nat, me: Me, acts: seq<Act>, v: Sys, earlier: seq<Runner>)
    requires s0.st.Disabled? && k < f.phases && k in f.multi && HandMe(f, me)
    requires v.script == Only(f, k, Multi([me])) && v.sessions == s0.sessions + 1
    requires Run(f, Step(f, s0, Begin(v.script, None)), acts) == v
    requires Asking(v, k, me, earlier) && v.handing > 0
    ensures exists script, more :: Breaks(f, s0, script, more)
  {
    var c := Passes(f, v, k, me, earlier);
    Traces(me, me);
    assert PhaseOk(f, k, Multi([me]));
    hide Step, Enter, Run, Only, HandMe, Alternating, PhaseOk, Breaks;
    var s := Step(f, s0, Begin(v.script, None));
    OneMore(f, s, acts, v, Rendezvous(|earlier|));
    OneMore(f, s, acts + [Rendezvous(|earlier|)], Step(f, v, Rendezvous(|earlier|)), Go(|earlier|));
    Finishes(f, s0, k, Multi([me]), acts + [Rendezvous(|earlier|)] + [Go(|earlier|)], c);
  }

  lemma Usable(f: Fsm) returns (m: nat, me: Me)
    requires Regular(f)
    ensures m in f.multi && m < f.phases && HandMe(f, me)
  {
    m :| m in f.multi && m < f.phases;
    assert PhaseUsable(f, m);
    me :| HandMe(f, me);
  }

  /** A blocked handler. */
  lemma HandedTrueBreaks(f: Fsm, s0: Sys)
    requires Regular(f) && s0.st.Disabled? && s0.handing > 0
    ensures exists script, acts :: Breaks(f, s0, script, acts)
  {
    var k, me := Usable(f);
    hide Regular, HandMe;
    assert s0.chan[..0] == [] && s0.chan[0..] == s0.chan;
    var acts := Asks(f, s0, k, [me], 0);
    var script := Only(f, k, Multi([me]));
    var b := Base(s0, script, 0).(st := Phase(k));
    var v := Send(b.(runners := s0.runners + [Runner(k, [me], true)]), me);
    hide Run, Only;
    HandedBreaks(f, s0, k, me, acts, v, s0.runners);
  }

  lemma AllAborts(s0: Sys)
    requires Conserved(s0) && s0.st.Disabled? && s0.handing == 0
    ensures forall n | 0 <= n <= |s0.chan| :: Aborts(s0.chan[..n]) <= s0.loops
    ensures Aborts(s0.chan[..|s0.chan|]) == s0.loops
  {
    forall n | 0 <= n <= |s0.chan| ensures Aborts(s0.chan[..n]) <= s0.loops {
      assert s0.chan == s0.chan[..n] + s0.chan[n..];
    }
    assert s0.chan[..|s0.chan|] == s0.chan;
  }

  lemma TakesHand(f: Fsm, v: Sys, me: Me, m: Msg)
    requires v.lastTx == Some(me) && v.chan != [] && v.chan[0] == m && v.loops > 0
    requires m == Resp(me.op, true, me.cls, me.inst) && React(f, me.op, me.cls) == Hand
    ensures Step(f, v, Take) == v.(chan := v.chan[1..], loops := v.loops - 1, handing := v.handing + 1)
  {
  }

  /** A request of an earlier session that may still be answered. */
  lemma OpenRequestBreaks(f: Fsm, s0: Sys, req: nat)
    requires Regular(f) && Conserved(s0) && Plausible(f, s0) && s0.st.Disabled? && s0.handing == 0 && req in s0.open
    ensures exists script, acts :: Breaks(f, s0, script, acts)
  {
    var k, me := Usable(f);
    AllAborts(s0);
    var n := |s0.chan|;
    hide Regular, Conserved;
    var asks := Asks(f, s0, k, [me], n);
    var script := Only(f, k, Multi([me]));
    var b := Base(s0, script, n).(st := Phase(k));
    var v := Send(b.(runners := s0.runners + [Runner(k, [me], true)]), me);
    hide Only, Run;
    var reply := Reply(req, me.op, true, me.cls, me.inst);
    var w := Step(f, v, reply);
    assert req < |s0.reqs| && v.reqs[req] == s0.reqs[req];
    assert w == v.(open := v.open - {req}, chan := [Resp(me.op, true, me.cls, me.inst)]);
    TakesHand(f, w, me, w.chan[0]);
    var u := Step(f, w, Take);
    OneMore(f, Step(f, s0, Begin(script, None)), asks, v, reply);
    OneMore(f, Step(f, s0, Begin(script, None)), asks + [reply], w, Take);
    hide Step, HandMe;
    HandedBreaks(f, s0, k, me, asks + [reply] + [Take], u, s0.runners);
  }

  lemma {:induction false} QueuedAt(f: Fsm, chan: seq<Msg>) returns (n: nat)
    requires Resps(f, chan) != []
    ensures n < |chan| && Effective(f, chan[n])
    decreases |chan|
  {
    if Effective(f, chan[0]) {
      n := 0;
    } else {
      n := QueuedAt(f, chan[1..]);
      n := n + 1;
    }
  }

  lemma TakesFire(f: Fsm, v: Sys, me: Me, m: Msg, i: nat)
    requires v.lastTx == Some(me) && v.chan != [] && v.chan[0] == m && v.loops > 0
    requires m == Resp(me.op, true, me.cls, me.inst) && React(f, me.op, me.cls) == Fire(i)
    requires v.st == Phase(i) && i < f.phases
    ensures Step(f, v, Take) == Enter(f, v.(chan := v.chan[1..], st := At(f, i + 1)))
  {
    AdvanceEnters(f, v.(chan := v.chan[1..]), i);
    hide Enter;
  }

  /** The reaction of a queued response is one of the FSM's. */
  lemma QueuedReaction(f: Fsm, m: Msg)
    requires Regular(f) && Effective(f, m)
    ensures React(f, m.op, m.cls) == Hand ==> HandMe(f, MeOf(m.op, m.cls, m.inst))
    ensures React(f, m.op, m.cls).Fire? ==>
              var i := React(f, m.op, m.cls).i;
              i < f.phases && i !in f.multi && SingleOk(f, i, MeOf(m.op, m.cls, m.inst))
  {
    assert ReactionUsable(f, m.op, m.cls);
  }

  lemma QueuedHandBreaks(f: Fsm, s0: Sys, n: nat, k: nat)
    requires Conserved(s0) && s0.st.Disabled? && s0.handing == 0 && n < |s0.chan| && Effective(f, s0.chan[n])
    requires k in f.multi && k < f.phases && HandMe(f, MeOf(s0.chan[n].op, s0.chan[n].cls, s0.chan[n].inst))
    ensures exists script, acts :: Breaks(f, s0, script, acts)
  {
    var m := s0.chan[n];
    var me := MeOf(m.op, m.cls, m.inst);
    AllAborts(s0);
    hide Conserved;
    var asks := Asks(f, s0, k, [me], n);
    var script := Only(f, k, Multi([me]));
    var b := Base(s0, script, n).(st := Phase(k));
    var v := Send(b.(runners := s0.runners + [Runner(k, [me], true)]), me);
    hide Only, Run;
    TakesHand(f, v, me, m);
    OneMore(f, Step(f, s0, Begin(script, None)), asks, v, Take);
    hide Step, HandMe;
    HandedBreaks(f, s0, k, me, asks + [Take], v.(chan := v.chan[1..], loops := v.loops - 1, handing := v.handing + 1),
                 s0.runners);
  }

  lemma EntersSingle(f: Fsm, b: Sys, i: nat, me: Me)
    requires b.st == Phase(i) && i < |b.script| && b.script[i] == Single(me)
    ensures Enter(f, b) == Send(b, me)
  {
  }

  lemma QueuedFireBreaks(f: Fsm, s0: Sys, n: nat, i: nat)
    requires Conserved(s0) && s0.st.Disabled? && s0.handing == 0 && n < |s0.chan| && Effective(f, s0.chan[n])
    requires React(f, s0.chan[n].op, s0.chan[n].cls) == Fire(i) && i < f.phases && i !in f.multi
    requires SingleOk(f, i, MeOf(s0.chan[n].op, s0.chan[n].cls, s0.chan[n].inst))
    ensures exists script, acts :: Breaks(f, s0, script, acts)
  {
    var m := s0.chan[n];
    var me := MeOf(m.op, m.cls, m.inst);
    var p := Single(me);
    AllAborts(s0);
    hide Conserved, SingleOk;
    var reach := Reaches(f, s0, i, p, n);
    var script := Only(f, i, p);
    var b := Base(s0, script, n).(st := Phase(i));
    EntersSingle(f, b, i, me);
    var v := Send(b, me);
    TakesFire(f, v, me, m, i);
    Traces(me, me);
    hide Step, Enter, Only, Run, Alternating;
    OneMore(f, Step(f, s0, Begin(script, None)), reach, v, Take);
    Finishes(f, s0, i, p, reach + [Take], v.(chan := v.chan[1..]));
  }

  /** A queued response some handler reacts to. */
  lemma QueuedResponseBreaks(f: Fsm, s0: Sys)
    requires Regular(f) && Conserved(s0) && s0.st.Disabled? && s0.handing == 0 && Resps(f, s0.chan) != []
    ensures exists script, acts :: Breaks(f, s0, script, acts)
  {
    var n := QueuedAt(f, s0.chan);
    var m := s0.chan[n];
    var k, me := Usable(f);
    QueuedReaction(f, m);
    hide Regular, Conserved, HandMe, SingleOk, Breaks, Resps;
    if React(f, m.op, m.cls).Hand? {
      QueuedHandBreaks(f, s0, n, k);
    } else {
      QueuedFireBreaks(f, s0, n, React(f, m.op, m.cls).i);
    }
  }

  // ---- left-over goroutines ----

  lemma OffScript(t: seq<Tr>, flat: seq<Me>)
    requires t <= Alternating(flat)
    ensures |t| <= 2 * |flat| && (t != [] ==> t[0] == Sent(flat[0]))
  {
    AlternatingTraffic(flat);
  }

  /** One that is about to send an ME of its own list. */
  lemma SendingRunnerBreaks(f: Fsm, s0: Sys, r: nat)
    requires Regular(f) && s0.st.Disabled? && r < |s0.runners| && !s0.runners[r].waiting && s0.runners[r].todo != []
    ensures exists script, acts :: Breaks(f, s0, script, acts)
  {
    var m, me := Usable(f);
    var p := Multi([]);
    var script := Only(f, m, p);
    OnlyFits(f, m, p);
    var s := Step(f, s0, Begin(script, None));
    BeginsBase(f, s0, script);
    var t := Step(f, s, Go(r));
    assert t.trace == [Sent(s0.runners[r].todo[0])] && t.st.Starting? && t.sessions == s0.sessions + 1;
    hide Step, Only, Conforms, Regular;
    OneMore(f, s, [], s, Go(r));
    if t.trace <= Alternating(Flat(script)) { OffScript(t.trace, Flat(script)); }
    assert Breaks(f, s0, script, [] + [Go(r)]);
  }

  lemma GoesOn(f: Fsm, v: Sys, r: nat)
    requires r < |v.runners| && !v.runners[r].waiting && v.runners[r].todo == []
    requires v.st == Phase(v.runners[r].phase) && v.runners[r].phase < f.phases
    ensures Step(f, v, Go(r)) ==
            Enter(f, v.(runners := RemoveAt(v.runners, r), st := At(f, v.runners[r].phase + 1)))
  {
    hide Enter, Step, FireEvent, At, RemoveAt;
    var u := v.(runners := RemoveAt(v.runners, r));
    GoEnds(f, v, r);
    AdvanceEnters(f, u, v.runners[r].phase);
  }

  lemma GoEnds(f: Fsm, v: Sys, r: nat)
    requires r < |v.runners| && !v.runners[r].waiting && v.runners[r].todo == []
    ensures Step(f, v, Go(r)) == FireEvent(f, v.(runners := RemoveAt(v.runners, r)), Advance(v.runners[r].phase))
  {
    hide FireEvent;
  }

  /** Goroutine r leaves phase k before the phase's own list was acknowledged. */
  lemma LeavesEarly(f: Fsm, s0: Sys, k: nat, mes: seq<Me>, acts: seq<Act>, x: Sys, r: nat)
    requires s0.st.Disabled? && k < f.phases && PhaseOk(f, k, Multi(mes)) && x.script == Only(f, k, Multi(mes))
    requires Run(f, Step(f, s0, Begin(x.script, None)), acts) == x && x.sessions == s0.sessions + 1
    requires x.st == Phase(k) && x.trace != Alternating(mes)
    requires r < |x.runners| && x.runners[r].phase == k && !x.runners[r].waiting && x.runners[r].todo == []
    ensures exists script, more :: Breaks(f, s0, script, more)
  {
    hide Step, Enter, Only, Run, Alternating, PhaseOk, Conforms, Breaks, RemoveAt, At;
    GoesOn(f, x, r);
    OneMore(f, Step(f, s0, Begin(x.script, None)), acts, x, Go(r));
    Finishes(f, s0, k, Multi(mes), acts + [Go(r)], x.(runners := RemoveAt(x.runners, r)));
  }

  /** One that is about to report the end of its list. */
  lemma EndingRunnerBreaks(f: Fsm, s0: Sys, r: nat)
    requires Regular(f) && s0.st.Disabled? && r < |s0.runners| && !s0.runners[r].waiting && s0.runners[r].todo == []
    requires s0.runners[r].phase in f.multi && s0.runners[r].phase < f.phases
    ensures exists script, acts :: Breaks(f, s0, script, acts)
  {
    var m, me := Usable(f);
    var k := s0.runners[r].phase;
    assert PhaseOk(f, k, Multi([me]));
    Traces(me, me);
    assert s0.chan[..0] == [] && s0.chan[0..] == s0.chan;
    hide Regular, PhaseOk, HandMe, Alternating, Breaks;
    var reach := Reaches(f, s0, k, Multi([me]), 0);
    var script := Only(f, k, Multi([me]));
    var b := Base(s0, script, 0).(st := Phase(k));
    EntersMulti(f, b, k, [me]);
    hide Step, Enter, Only, Run;
    LeavesEarly(f, s0, k, [me], reach, b.(runners := s0.runners + [Runner(k, [me], false)]), r);
  }

  lemma EntersMulti(f: Fsm, b: Sys, k: nat, mes: seq<Me>)
    requires b.st == Phase(k) && k < |b.script| && b.script[k] == Multi(mes)
    ensures Enter(f, b) == b.(runners := b.runners + [Runner(k, mes, false)])
  {
  }

  /** The answer to the new session's first ME is in the hands of the old goroutine r. */
  lemma Steals(f: Fsm, v: Sys, k: nat, me: Me, r: nat, req: nat) returns (x: Sys)
    requires v.chan == [] && v.loops == 1 && v.handing == 0 && v.lastTx == Some(me) && v.trace == [Sent(me)]
    requires req in v.open && req < |v.reqs| && v.reqs[req] == Req(me, v.sessions) && HandMe(f, me)
    requires r < |v.runners| && v.runners[r].waiting && v.runners[r].todo != []
    ensures Run(f, v, [Success(me, req), Take] + [Rendezvous(r)]) == x
    ensures x.st == v.st && x.script == v.script && x.sessions == v.sessions && x.trace == [Sent(me), Acked(me)]
    ensures x.runners == v.runners[r := Runner(v.runners[r].phase, v.runners[r].todo[1..], false)]
  {
    var w := Step(f, v, Success(me, req));
    var m := Resp(me.op, true, me.cls, me.inst);
    assert w == v.(open := v.open - {req}, chan := [m], trace := v.trace + [Acked(me)]);
    TakesHand(f, w, me, m);
    var u := Step(f, w, Take);
    x := Step(f, u, Rendezvous(r));
    hide Step, HandMe;
    RunTwo(f, v, Success(me, req), Take);
    OneMore(f, v, [Success(me, req), Take], u, Rendezvous(r));
  }

  /** One that still waits: it takes over the answer meant for the new session's own goroutine. */
  lemma WaitingRunnerBreaks(f: Fsm, s0: Sys, r: nat)
    requires Regular(f) && Conserved(s0) && s0.st.Disabled? && s0.handing == 0
    requires r < |s0.runners| && s0.runners[r].waiting && s0.runners[r].todo != []
    requires s0.runners[r].phase in f.multi && s0.runners[r].phase < f.phases
    ensures exists script, acts :: Breaks(f, s0, script, acts)
  {
    var m, me := Usable(f);
    var k, n := s0.runners[r].phase, |s0.chan|;
    var todo := s0.runners[r].todo[1..];
    var mes := if todo == [] then [me, me] else [me];
    AllAborts(s0);
    assert PhaseOk(f, k, Multi(mes));
    hide Regular, Conserved, PhaseOk;
    var asks := Asks(f, s0, k, mes, n);
    var script := Only(f, k, Multi(mes));
    var b := Base(s0, script, n).(st := Phase(k));
    var v := Send(b.(runners := s0.runners + [Runner(k, mes, true)]), me);
    hide Only, Run;
    var x := Steals(f, v, k, me, r, |s0.reqs|);
    var acts := asks + ([Success(me, |s0.reqs|), Take] + [Rendezvous(r)]);
    RunAppend(f, Step(f, s0, Begin(script, None)), asks, [Success(me, |s0.reqs|), Take] + [Rendezvous(r)]);
    OnlyFits(f, k, Multi(mes));
    StolenBreaks(f, s0, k, me, mes, acts, x, r);
  }

  lemma StolenBreaks(f: Fsm, s0: Sys, k: nat, me: Me, mes: seq<Me>, acts: seq<Act>, x: Sys, r: nat)
    requires s0.st.Disabled? && k < f.phases && PhaseOk(f, k, Multi(mes)) && x.script == Only(f, k, Multi(mes))
    requires Run(f, Step(f, s0, Begin(x.script, None)), acts) == x && x.sessions == s0.sessions + 1
    requires x.st == Phase(k) && x.trace == [Sent(me), Acked(me)]
    requires r < |x.runners| && x.runners[r].phase == k && !x.runners[r].waiting
    requires mes == if x.runners[r].todo == [] then [me, me] else [me]
    ensures exists script, more :: Breaks(f, s0, script, more)
  {
    hide Step, Only, Run, PhaseOk, Breaks, Conforms, Flat;
    if x.runners[r].todo == [] {
      Traces(me, me);
      hide Alternating;
      LeavesEarly(f, s0, k, mes, acts, x, r);
    } else {
      OnlyFits(f, k, Multi(mes));
      GoesOffScript(f, s0, acts, x, r);
    }
  }

  /** Goroutine r sends an ME after another one was sent and acknowledged: three entries end in a request
      that the script of a single ME has no room for. */
  lemma GoesOffScript(f: Fsm, s0: Sys, acts: seq<Act>, x: Sys, r: nat)
    requires Conforms(f, x.script) && Live(x.st) && x.sessions == s0.sessions + 1 && |Flat(x.script)| == 1
    requires Run(f, Step(f, s0, Begin(x.script, None)), acts) == x && |x.trace| == 2
    requires r < |x.runners| && !x.runners[r].waiting && x.runners[r].todo != []
    ensures Breaks(f, s0, x.script, acts + [Go(r)])
  {
    hide Step, Run, Conforms, Alternating, Flat;
    GoSends(f, x, r);
    OneMore(f, Step(f, s0, Begin(x.script, None)), acts, x, Go(r));
    var t := Step(f, x, Go(r));
    if t.trace <= Alternating(Flat(x.script)) { OffScript(t.trace, Flat(x.script)); }
  }

  lemma GoSends(f: Fsm, v: Sys, r: nat)
    requires r < |v.runners| && !v.runners[r].waiting && v.runners[r].todo != []
    ensures var t := Step(f, v, Go(r));
            t.st == v.st && t.sessions == v.sessions && t.trace == v.trace + [Sent(v.runners[r].todo[0])]
  {
  }

  // ---- the result ----

  lemma LeftOverBreaks(f: Fsm, s0: Sys)
    requires Regular(f) && Conserved(s0) && Plausible(f, s0) && s0.st.Disabled? && !Clean(f, s0)
    ensures exists script, acts :: Breaks(f, s0, script, acts)
  {
    hide Regular, Conserved, Breaks, Resps;
    if s0.handing > 0 {
      HandedTrueBreaks(f, s0);
    } else if s0.open != {} {
      var req :| req in s0.open;
      OpenRequestBreaks(f, s0, req);
    } else if Resps(f, s0.chan) != [] {
      QueuedResponseBreaks(f, s0);
    } else if s0.runners != [] {
      assert s0.runners[0] in s0.runners;
      if s0.runners[0].waiting {
        WaitingRunnerBreaks(f, s0, 0);
      } else if s0.runners[0].todo == [] {
        EndingRunnerBreaks(f, s0, 0);
      } else {
        SendingRunnerBreaks(f, s0, 0);
      }
    } else {
      var i: nat :| Advance(i) in s0.posted;
      PendingAdvanceBreaks(f, s0, i);
    }
  }

  /** In every reachable disabled state: every next session, with any script that fits the FSM and under
      anything that may happen, keeps the promise if and only if no registered request, no response some
      handler reacts to, no handed `true`, no script goroutine and no event that moves a session on is
      left over from the sessions before. */
  lemma NextSessionSoundIff(f: Fsm, life: seq<Act>)
    requires Regular(f) && ConformingBegins(f, life) && Run(f, INIT, life).st.Disabled?
    ensures NextSessionSound(f, Run(f, INIT, life)) <==> Clean(f, Run(f, INIT, life))
  {
    var s0 := Run(f, INIT, life);
    RunConserves(f, INIT, life);
    assert Plausible(f, INIT);
    RunPlausible(f, INIT, life);
    hide Run, Step, Regular, Conserved, Plausible, Clean, Conforms, Flat, Alternating, AllAnswerable;
    if Clean(f, s0) {
      forall script, tx, acts | Conforms(f, script)
        ensures SoundAt(s0, script, Run(f, Step(f, s0, Begin(script, tx)), acts))
      {
        CleanSessionSound(f, s0, script, tx, acts);
      }
    } else {
      LeftOverBreaks(f, s0);
      var script, acts :| Breaks(f, s0, script, acts);
    }
  }
}
