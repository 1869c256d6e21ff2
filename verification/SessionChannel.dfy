/** A session over the OMCI channel it shares with others: its requests draw wrapping transaction IDs, and
    its answers are frames that find a callback under their ID. */
module SessionChannel {
  import opened Types
  import S = Session
  import C = OmciChannel
  import opened SessionSafety
  import opened SessionLifetime

  /** `owner` says which requests of the channel are the session's, and which of its own they are. */
  datatype Wired = Wired(sys: S.Sys, chan: C.Channel, owner: map<nat, nat>)

  datatype Act =
    | Move(a: S.Act)                  // a step of the FSM, its goroutines or its owner
    | Foreign(high: bool)             // somebody else sends a request
    | Transmit(n: nat)                // the transmit loop gets n frames through
    | Arrive(frame: C.RxFrame, op: Op, ok: bool, cls: ClassId, inst: uint16)

  const INIT := Wired(S.INIT, C.NEW, map[])

  function SendRequest(c: C.Channel, high: bool): C.Channel {
    C.Send(C.DrawId(c, high), |c.draws|)
  }

  /** The FSM moves on to `sys`; if it sent a request, that request goes through the channel. */
  function Moved(w: Wired, sys: S.Sys): Wired {
    if |sys.reqs| == |w.sys.reqs| then w.(sys := sys)
    else Wired(sys, SendRequest(w.chan, true), w.owner[|w.chan.draws| := |w.sys.reqs|])
  }

  /** The request of the session whose callback the frame finds. */
  function Addressed(w: Wired, f: C.RxFrame): Option<nat> {
    if C.TakenForResponse(f) && f.tid in w.chan.rxSchedulerMap && w.chan.rxSchedulerMap[f.tid] in w.owner
    then Some(w.owner[w.chan.rxSchedulerMap[f.tid]]) else None
  }

  function Step(f: S.Fsm, w: Wired, a: Act): Wired {
    match a
    case Move(m) => if m.Reply? then w else Moved(w, S.Step(f, w.sys, m))
    case Foreign(high) => w.(chan := SendRequest(w.chan, high))
    case Transmit(n) => w.(chan := C.Step(w.chan, C.APump(n)))
    case Arrive(frame, op, ok, cls, inst) =>
      var sys := if Addressed(w, frame).Some?
                 then S.Step(f, w.sys, S.Reply(Addressed(w, frame).value, op, ok, cls, inst)) else w.sys;
      Wired(sys, C.Receive(w.chan, frame), w.owner)
  }

  function Run(f: S.Fsm, w: Wired, acts: seq<Act>): Wired
    decreases |acts|
  {
    if acts == [] then w else Run(f, Step(f, w, acts[0]), acts[1..])
  }

  /** What the FSM sees of a step. */
  function Seen(w: Wired, a: Act): seq<S.Act> {
    match a
    case Move(m) => if m.Reply? then [] else [m]
    case Foreign(_) => []
    case Transmit(_) => []
    case Arrive(frame, op, ok, cls, inst) =>
      if Addressed(w, frame).Some? then [S.Reply(Addressed(w, frame).value, op, ok, cls, inst)] else []
  }

  function Projected(f: S.Fsm, w: Wired, acts: seq<Act>): seq<S.Act>
    decreases |acts|
  {
    if acts == [] then [] else Seen(w, acts[0]) + Projected(f, Step(f, w, acts[0]), acts[1..])
  }

  // ---- the channel never does to a session what the session model does not allow for ----

  lemma {:induction false} RunsThrough(f: S.Fsm, w: Wired, acts: seq<Act>)
    ensures S.Run(f, w.sys, Projected(f, w, acts)) == Run(f, w, acts).sys
    decreases |acts|
  {
    hide S.Step, Moved, Addressed;
    if acts != [] {
      RunsThrough(f, Step(f, w, acts[0]), acts[1..]);
      SeenStep(f, w, acts[0]);
      var rest := Projected(f, Step(f, w, acts[0]), acts[1..]);
      if Seen(w, acts[0]) != [] {
        assert (Seen(w, acts[0]) + rest)[1..] == rest;
      } else {
        assert [] + rest == rest;
      }
    }
  }

  lemma SeenStep(f: S.Fsm, w: Wired, a: Act)
    ensures |Seen(w, a)| <= 1
    ensures Step(f, w, a).sys == if Seen(w, a) == [] then w.sys else S.Step(f, w.sys, Seen(w, a)[0])
  {
    hide S.Step, Addressed;
  }

  // ---- which callbacks are registered ----

  /** A request of the session is open exactly while the channel has not delivered its answer. */
  ghost predicate Matched(w: Wired) {
    && (forall d | d in w.owner :: d in w.chan.sent && w.owner[d] < |w.sys.reqs|)
    && (forall d | d in w.owner :: d < |w.chan.draws| && w.chan.draws[d].high)
    && (forall d, e | d in w.owner && e in w.owner && w.owner[d] == w.owner[e] :: d == e)
    && (forall d | d in w.owner :: w.owner[d] in w.sys.open <==> d !in w.chan.delivered)
    && (forall r | r in w.sys.open :: r in w.owner.Values)
  }

  ghost predicate Inv(w: Wired) { C.Inv(w.chan) && C.Exact(w.chan) && Matched(w) }

  lemma EnterSends(f: S.Fsm, s: S.Sys)
    ensures Sends(s, S.Enter(f, s))
  {
  }

  /** At most one request is sent, and registered. */
  predicate Sends(s: S.Sys, t: S.Sys) {
    (t.reqs == s.reqs && t.open == s.open) || (|t.reqs| == |s.reqs| + 1 && t.open == s.open + {|s.reqs|})
  }

  lemma FireSends(f: S.Fsm, s: S.Sys, ev: S.Ev)
    ensures Sends(s, S.FireEvent(f, s, ev))
  {
    var d := S.Target(f, s.st, ev);
    if d.Some? { EnterSends(f, s.(st := d.value)); }
    hide S.Enter, S.Target;
  }

  lemma StepSends(f: S.Fsm, s: S.Sys, a: S.Act)
    requires !a.Reply?
    ensures Sends(s, S.Step(f, s, a))
  {
    hide S.FireEvent, S.React, S.RemoveAt;
    match a
    case Begin(script, tx) => FireSends(f, s.(script := script, lastTx := tx), S.Start);
    case FirePosted(ev) => FireSends(f, s.(posted := s.posted - multiset{ev}), ev);
    case TechProfMissing => FireSends(f, s.(posted := s.posted - multiset{S.StartConfig}), S.WaitTechProf);
    case TechProfDone => FireSends(f, s, S.Continue);
    case ExternalReset => FireSends(f, s, S.Reset);
    case Take =>
      if s.chan != [] && s.chan[0].Resp? && s.lastTx.Some? {
        var x := S.React(f, s.chan[0].op, s.lastTx.value.cls);
        if x.Fire? { FireSends(f, s.(chan := s.chan[1..]), S.Advance(x.i)); }
      }
    case Go(r) =>
      if r < |s.runners| {
        FireSends(f, s.(runners := S.RemoveAt(s.runners, r)), S.Advance(s.runners[r].phase));
      }
    case Expire(r) => if r < |s.runners| { FireSends(f, s.(runners := S.RemoveAt(s.runners, r)), S.Reset); }
    case _ =>
  }

  lemma ChannelSends(c: C.Channel, high: bool)
    requires C.Inv(c) && C.Exact(c)
    ensures var d := SendRequest(c, high);
            && C.Inv(d) && C.Exact(d) && d.delivered == c.delivered && d.sent == c.sent + [|c.draws|]
            && |d.draws| == |c.draws| + 1 && d.draws[..|c.draws|] == c.draws && d.draws[|c.draws|].high == high
            && |c.draws| !in c.sent && |c.draws| !in c.delivered
  {
    hide C.Numbered, C.Conserves, C.Exact, C.Latest, C.AfterHigh, C.AfterLow;
    C.InvParts(c);
    var e := C.DrawId(c, high);
    C.DrawKeeps(c, high);
    C.DrawExact(c, high);
    C.InvParts(e);
    C.SendKeeps(e, |c.draws|);
    C.SendExact(e, |c.draws|);
  }

  lemma MovedKeeps(w: Wired, sys: S.Sys)
    requires Inv(w) && Sends(w.sys, sys)
    ensures Inv(Moved(w, sys))
  {
    hide C.Inv, C.Exact;
    ChannelSends(w.chan, true);
    hide SendRequest;
    if |sys.reqs| != |w.sys.reqs| {
      var v, n := Moved(w, sys), |w.chan.draws|;
      assert n !in w.owner && v.owner[n] == |w.sys.reqs|;
      assert forall r | r in w.sys.open :: r in v.owner.Values by {
        forall r | r in w.sys.open ensures r in v.owner.Values {
          var d :| d in w.owner && w.owner[d] == r;
          assert v.owner[d] == r;
        }
      }
    }
  }

  lemma ForeignKeeps(w: Wired, high: bool)
    requires Inv(w)
    ensures Inv(w.(chan := SendRequest(w.chan, high)))
  {
    hide C.Inv, C.Exact;
    ChannelSends(w.chan, high);
    hide SendRequest;
  }

  lemma ArriveKeeps(f: S.Fsm, w: Wired, a: Act)
    requires Inv(w) && a.Arrive?
    ensures Inv(Step(f, w, a))
  {
    hide C.Numbered, C.Conserves, C.Latest, C.TakenForResponse;
    C.ReceiveKeeps(w.chan, a.frame);
    C.ReceiveExact(w.chan, a.frame);
    var c := C.Receive(w.chan, a.frame);
    if c != w.chan {
      var d := w.chan.rxSchedulerMap[a.frame.tid];
      assert c.delivered == w.chan.delivered + [d] && d !in w.chan.delivered;
      hide C.Receive, C.Exact, C.Inv;
      if d in w.owner { OpenReply(f, w.sys, S.Reply(w.owner[d], a.op, a.ok, a.cls, a.inst)); }
      hide S.Step;
    }
  }

  lemma OpenReply(f: S.Fsm, s: S.Sys, a: S.Act)
    requires a.Reply?
    ensures S.Step(f, s, a).open == s.open - {a.req} && S.Step(f, s, a).reqs == s.reqs
  {
  }

  lemma TransmitKeeps(w: Wired, n: nat)
    requires Inv(w)
    ensures Inv(w.(chan := C.Step(w.chan, C.APump(n))))
  {
    hide C.Inv, C.Exact, C.Registered;
    C.InvParts(w.chan);
    C.StepKeeps(w.chan, C.APump(n));
    C.StepExact(w.chan, C.APump(n));
  }

  lemma StepKeeps(f: S.Fsm, w: Wired, a: Act)
    requires Inv(w)
    ensures Inv(Step(f, w, a))
  {
    hide Inv, S.Step, C.Step, SendRequest, C.Receive, Moved, Sends, Addressed;
    match a
    case Move(m) =>
      if !m.Reply? {
        StepSends(f, w.sys, m);
        MovedKeeps(w, S.Step(f, w.sys, m));
      }
    case Foreign(high) => ForeignKeeps(w, high);
    case Transmit(n) => TransmitKeeps(w, n);
    case Arrive(_, _, _, _, _) => ArriveKeeps(f, w, a);
  }

  lemma {:induction false} RunKeeps(f: S.Fsm, w: Wired, acts: seq<Act>)
    requires Inv(w)
    ensures Inv(Run(f, w, acts))
    decreases |acts|
  {
    hide Inv, Step;
    if acts != [] {
      StepKeeps(f, w, acts[0]);
      RunKeeps(f, Step(f, w, acts[0]), acts[1..]);
    }
  }

  lemma InitIsFine()
    ensures Inv(INIT)
  {
    C.NewIsFine();
    hide C.Inv, C.Exact;
  }

  // ---- the results ----

  /** The channel refines what the session model assumes of it: every run over the channel, with wrapping
      IDs, other users and frames of any kind, is a run of the session model. */
  lemma ChannelRefines(f: S.Fsm, acts: seq<Act>)
    ensures S.Run(f, S.INIT, Projected(f, INIT, acts)) == Run(f, INIT, acts).sys
  {
    RunsThrough(f, INIT, acts);
  }

  /** So what is proved about every life of an FSM holds over the channel, too. */
  lemma SoundOverChannel(f: S.Fsm, acts: seq<Act>)
    requires Undisturbed(f, S.INIT, Projected(f, INIT, acts))
    ensures var s := Run(f, INIT, acts).sys;
            && (S.Live(s.st) ==> s.trace <= Alternating(Flat(s.script)))
            && (s.st.Done? ==> s.trace == Alternating(Flat(s.script)))
  {
    ChannelRefines(f, acts);
    EverySessionSound(f, Projected(f, INIT, acts));
  }

  /** Request r of the session went out as request d of the channel. */
  predicate SentAs(w: Wired, r: nat, d: nat) { d in w.owner && w.owner[d] == r && d < |w.chan.draws| }

  /** Who gets an answer: in every reachable state, an open request of the session went out as exactly one
      request d of the channel, with an ID of the upper half; a frame that is taken for a response is its answer
      precisely if it carries d's ID and no request sent after d, by anybody, drew the same one. */
  lemma AnsweredIff(f: S.Fsm, acts: seq<Act>, r: nat, frame: C.RxFrame)
    requires r in Run(f, INIT, acts).sys.open && C.TakenForResponse(frame)
    ensures var w := Run(f, INIT, acts);
            exists d: nat :: SentAs(w, r, d) && (forall e: nat | SentAs(w, r, e) :: e == d)
                             && 0x8000 <= w.chan.draws[d].id <= 0xFFFF
                             && (Addressed(w, frame) == Some(r) <==> C.Latest(w.chan, frame.tid, d))
                             && (C.Latest(w.chan, frame.tid, d) ==> frame.tid == w.chan.draws[d].id)
  {
    InitIsFine();
    RunKeeps(f, INIT, acts);
    var w := Run(f, INIT, acts);
    hide Run, C.Latest, Inv, Addressed, SentAs;
    var d := OpenIsSent(w, r);
    LatestHasId(w.chan, frame.tid, d);
    AddressedIff(w, r, d, frame);
  }

  /** What an answer does, in every reachable state: its contents are queued for the message loop as they are and
      its request is closed; the trace notes it if it is a good answer to the running session. A frame that
      answers no request of the session leaves the FSM alone. */
  lemma AnswerIsDelivered(f: S.Fsm, acts: seq<Act>, frame: C.RxFrame, op: Op, ok: bool, cls: ClassId, inst: uint16)
    ensures var w := Run(f, INIT, acts);
            var t, answered := Step(f, w, Arrive(frame, op, ok, cls, inst)).sys, Addressed(w, frame);
            if answered.None? then t == w.sys
            else
              && answered.value in w.sys.open && answered.value < |w.sys.reqs|
              && var req := w.sys.reqs[answered.value];
                 var good := ok && op == req.me.op && cls == req.me.cls && inst == req.me.inst;
                 t == w.sys.(chan := w.sys.chan + [S.Resp(op, ok, cls, inst)], open := w.sys.open - {answered.value},
                             trace := w.sys.trace
                                      + if good && req.session == w.sys.sessions then [S.Acked(req.me)] else [])
  {
    hide Run, Inv, Addressed, S.Step, C.Receive;
    InitIsFine();
    RunKeeps(f, INIT, acts);
    var w := Run(f, INIT, acts);
    if Addressed(w, frame).Some? {
      AddressedIsOpen(w, frame);
      ReplyEffect(f, w.sys, Addressed(w, frame).value, op, ok, cls, inst);
    }
  }

  lemma AddressedIsOpen(w: Wired, frame: C.RxFrame)
    requires Inv(w) && Addressed(w, frame).Some?
    ensures Addressed(w, frame).value in w.sys.open && Addressed(w, frame).value < |w.sys.reqs|
  {
    hide C.Latest, C.TakenForResponse, C.Numbered, C.Conserves;
    var d := w.chan.rxSchedulerMap[frame.tid];
    assert d !in w.chan.delivered && d in w.owner;
  }

  lemma ReplyEffect(f: S.Fsm, s: S.Sys, r: nat, op: Op, ok: bool, cls: ClassId, inst: uint16)
    requires r in s.open && r < |s.reqs|
    ensures var req := s.reqs[r];
            var good := ok && op == req.me.op && cls == req.me.cls && inst == req.me.inst;
            S.Step(f, s, S.Reply(r, op, ok, cls, inst)) ==
            s.(chan := s.chan + [S.Resp(op, ok, cls, inst)], open := s.open - {r},
               trace := s.trace + if good && req.session == s.sessions then [S.Acked(req.me)] else [])
  {
  }

  lemma OpenIsSent(w: Wired, r: nat) returns (d: nat)
    requires Inv(w) && r in w.sys.open
    ensures SentAs(w, r, d) && forall e: nat | SentAs(w, r, e) :: e == d
    ensures d in w.chan.sent && d !in w.chan.delivered
  {
    hide C.Numbered, C.Conserves, C.Latest;
    d :| d in w.owner && w.owner[d] == r;
  }

  lemma AddressedIff(w: Wired, r: nat, d: nat, frame: C.RxFrame)
    requires Inv(w) && SentAs(w, r, d) && d !in w.chan.delivered && C.TakenForResponse(frame)
    ensures Addressed(w, frame) == Some(r) <==> C.Latest(w.chan, frame.tid, d)
  {
    hide C.TakenForResponse, C.Numbered, C.Conserves, C.Latest;
  }

  lemma LatestHasId(c: C.Channel, t: uint16, d: nat)
    ensures C.Latest(c, t, d) ==> d < |c.draws| && c.draws[d].id == t
  {
  }

  /** While fewer than a full range of IDs was drawn between request r of the session and each request sent by
      anybody since, the frames with its ID are its answers. */
  lemma AnswerableWhileClose(f: S.Fsm, acts: seq<Act>, r: nat, d: nat, frame: C.RxFrame)
    requires var w := Run(f, INIT, acts);
             && r in w.sys.open && SentAs(w, r, d) && frame.tid == w.chan.draws[d].id
             && forall e | e in w.chan.sent && e < |w.chan.draws| && e != d :: C.Close(w.chan.draws, e, d)
    requires C.TakenForResponse(frame)
    ensures Addressed(Run(f, INIT, acts), frame) == Some(r)
  {
    InitIsFine();
    RunKeeps(f, INIT, acts);
    var w := Run(f, INIT, acts);
    hide Run, C.Latest, Inv, Addressed, C.Close;
    var e := OpenIsSent(w, r);
    assert e == d;
    AddressedIff(w, r, d, frame);
    CloseIsLatest(w, d);
  }

  lemma CloseIsLatest(w: Wired, d: nat)
    requires Inv(w) && d in w.chan.sent && d < |w.chan.draws|
    requires forall e | e in w.chan.sent && e < |w.chan.draws| && e != d :: C.Close(w.chan.draws, e, d)
    ensures C.Latest(w.chan, w.chan.draws[d].id, d)
  {
    var c := w.chan;
    C.InvParts(c);
    hide Inv, C.Inv, C.Close, C.Exact;
    var i :| 0 <= i < |c.sent| && c.sent[i] == d;
    forall k | i < k < |c.sent| && c.sent[k] < |c.draws| ensures c.draws[c.sent[k]].id != c.draws[d].id {
      assert c.sent[k] != c.sent[i];
      C.CloseRequestsDiffer(c, c.sent[k], d);
    }
    assert C.LatestAt(c, c.draws[d].id, d, i);
  }
}
