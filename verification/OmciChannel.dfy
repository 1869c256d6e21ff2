/** The OMCI channel of one ONU: transaction IDs, response callbacks and the transmit queue of omci_cc.go. */
module OmciChannel {
  import opened Types
  import opened Bits

  // ---- the state, and what each operation makes of it ----

  datatype Draw = Draw(high: bool, id: uint16)

  /** Requests are numbered in the order in which they draw their IDs; the number stands for the frame
      and for the callback registered with it. `wire` are the transmitted frames, `sent` all that were
      handed to send, `delivered` the callbacks that were run. */
  datatype Channel = Channel(
    tid: uint16, hpTid: uint16, draws: seq<Draw>,
    txQueue: seq<nat>, wire: seq<nat>, sent: seq<nat>,
    rxSchedulerMap: map<uint16, nat>, delivered: seq<nat>)

  const NEW := Channel(1, 0x8000, [], [], [], [], map[], [])

  /** A 16-bit counter that never enters the lower half. */
  function AfterHigh(id: uint16): uint16 {
    var next := (id + 1) % 0x1_0000;
    if next < 0x8000 then 0x8000 else next
  }

  /** A 16-bit counter that never enters the upper half, nor 0. */
  function AfterLow(id: uint16): uint16 {
    var next := (id + 1) % 0x1_0000;
    if next >= 0x8000 then 1 else next
  }

  function DrawId(c: Channel, high: bool): Channel {
    if high then c.(hpTid := AfterHigh(c.hpTid), draws := c.draws + [Draw(true, c.hpTid)])
    else c.(tid := AfterLow(c.tid), draws := c.draws + [Draw(false, c.tid)])
  }

  function Send(c: Channel, request: nat): Channel
    requires request < |c.draws|
  {
    c.(rxSchedulerMap := c.rxSchedulerMap + map[c.draws[request].id := request],
       txQueue := c.txQueue + [request], sent := c.sent + [request])
  }

  /** One run of the transmit loop that gets n frames through before it stops. */
  function Pump(c: Channel, n: nat): Channel
    requires n <= |c.txQueue|
  {
    c.(wire := c.wire + c.txQueue[..n], txQueue := c.txQueue[n..])
  }

  datatype RxFrame = RxFrame(size: nat, decodes: bool, messageType: bv8, tid: uint16)

  /** The acknowledge bit of a message type: set in responses only. */
  const AK: bv8 := 0x20

  /** The test for autonomous messages: it masks the acknowledge bit out instead of selecting it. */
  predicate TakenForAutonomous(messageType: bv8) { messageType & !AK == 0 }

  /** The frame gets past the length check, the decoder and that test. */
  predicate TakenForResponse(f: RxFrame) { f.size >= 44 && f.decodes && !TakenForAutonomous(f.messageType) }

  function Receive(c: Channel, f: RxFrame): Channel {
    if TakenForResponse(f) && f.tid in c.rxSchedulerMap
    then c.(rxSchedulerMap := c.rxSchedulerMap - {f.tid}, delivered := c.delivered + [c.rxSchedulerMap[f.tid]])
    else c
  }

  datatype Attempt = Transmitted | NoDevice | SendError

  /** How many frames get through before the first failing attempt. */
  function Through(outcome: nat -> Attempt, from: nat, n: nat): (r: nat)
    requires from <= n
    ensures from <= r <= n
    ensures forall i | from <= i < r :: outcome(i).Transmitted?
    ensures r < n ==> !outcome(r).Transmitted?
    decreases n - from
  {
    if from == n || !outcome(from).Transmitted? then from else Through(outcome, from + 1, n)
  }

  class OmciCC {
    var tid: uint16
    var hpTid: uint16
    var txQueue: seq<nat>
    var rxSchedulerMap: map<uint16, nat>
    // what the outside has seen
    var draws: seq<Draw>
    var wire: seq<nat>
    var sent: seq<nat>
    var delivered: seq<nat>

    function State(): Channel
      reads this
    {
      Channel(tid, hpTid, draws, txQueue, wire, sent, rxSchedulerMap, delivered)
    }

    constructor ()
      ensures State() == NEW
    {
      tid, hpTid, txQueue, rxSchedulerMap := 1, 0x8000, [], map[];
      draws, wire, sent, delivered := [], [], [], [];
    }

    method GetNextTid(highPriority: bool) returns (next: uint16)
      modifies this
      ensures State() == DrawId(old(State()), highPriority)
      ensures next == draws[|draws| - 1].id
    {
      if highPriority {
        next := hpTid;
        hpTid := (hpTid + 1) % 0x1_0000;
        if hpTid < 0x8000 { hpTid := 0x8000; }
      } else {
        next := tid;
        tid := (tid + 1) % 0x1_0000;
        if tid >= 0x8000 { tid := 1; }
      }
      draws := draws + [Draw(highPriority, next)];
    }

    method SendRequest(request: nat)
      requires request < |draws|
      modifies this
      ensures State() == Send(old(State()), request)
    {
      var next: map<uint16, nat> := rxSchedulerMap + map[draws[request].id := request];
      rxSchedulerMap := next;
      txQueue, sent := txQueue + [request], sent + [request];
    }

    /** The loop over the queue; `outcome` says how its i-th attempt ends. */
    method SendNextRequest(outcome: nat -> Attempt) returns (ok: bool)
      modifies this
      ensures var n := Through(outcome, 0, old(|txQueue|));
              State() == Pump(old(State()), n) && (ok <==> n == old(|txQueue|))
    {
      ghost var start := State();
      var n := 0;
      while |txQueue| > 0
        invariant n <= |start.txQueue| && State() == Pump(start, n)
        invariant Through(outcome, 0, |start.txQueue|) == Through(outcome, n, |start.txQueue|)
        decreases |txQueue|
      {
        var request := txQueue[0];
        match outcome(n) {
          case NoDevice => return false;
          case SendError => return false;
          case Transmitted =>
        }
        assert start.txQueue[..n] + [request] == start.txQueue[..n + 1];
        assert start.wire + start.txQueue[..n] + [request] == start.wire + (start.txQueue[..n] + [request]);
        wire := wire + [request];
        txQueue := txQueue[1..];
        n := n + 1;
      }
      return true;
    }

    method ReceiveMessage(f: RxFrame) returns (ok: bool)
      modifies this
      ensures State() == Receive(old(State()), f)
      ensures ok <==> TakenForResponse(f) && f.tid in old(rxSchedulerMap)
    {
      hide TakenForAutonomous;
      if f.size < 44 || !f.decodes { return false; }
      if TakenForAutonomous(f.messageType) { return false; }
      if f.tid !in rxSchedulerMap { return false; }
      delivered := delivered + [rxSchedulerMap[f.tid]];
      rxSchedulerMap := rxSchedulerMap - {f.tid};
      return true;
    }
  }

  // ---- runs ----

  datatype Act = ADraw(high: bool) | ASend(request: nat) | APump(n: nat) | AReceive(frame: RxFrame)

  /** Every request is handed to send at most once; a pump may get any number of frames through. */
  function Step(c: Channel, a: Act): (d: Channel)
    ensures c.draws <= d.draws
  {
    match a
    case ADraw(high) => DrawId(c, high)
    case ASend(r) => if r < |c.draws| && r !in c.sent then Send(c, r) else c
    case APump(n) => if n <= |c.txQueue| then Pump(c, n) else c
    case AReceive(f) => Receive(c, f)
  }

  function Run(c: Channel, acts: seq<Act>): Channel
    decreases |acts|
  {
    if acts == [] then c else Run(Step(c, acts[0]), acts[1..])
  }

  // ---- transaction IDs ----

  const LOW_RANGE := 0x7FFF
  const HIGH_RANGE := 0x8000

  /** The k-th ID of a priority, counted from 0. */
  function IdOf(high: bool, k: nat): uint16 { if high then 0x8000 + k % HIGH_RANGE else 1 + k % LOW_RANGE }

  function RangeOf(high: bool): nat { if high then HIGH_RANGE else LOW_RANGE }

  /** How many of the first n draws had this priority. */
  function Drawn(draws: seq<Draw>, high: bool, n: nat): nat
    requires n <= |draws|
  {
    if n == 0 then 0 else Drawn(draws, high, n - 1) + (if draws[n - 1].high == high then 1 else 0)
  }

  /** The rank of a request among those of its priority. */
  function Rank(draws: seq<Draw>, request: nat): nat
    requires request < |draws|
  {
    Drawn(draws, draws[request].high, request)
  }

  lemma {:induction false} DrawnPrefix(draws: seq<Draw>, more: Draw, high: bool, n: nat)
    requires n <= |draws|
    ensures Drawn(draws + [more], high, n) == Drawn(draws, high, n)
  {
    if n > 0 { DrawnPrefix(draws, more, high, n - 1); }
  }

  lemma NextIds(k: nat)
    ensures AfterHigh(IdOf(true, k)) == IdOf(true, k + 1)
    ensures AfterLow(IdOf(false, k)) == IdOf(false, k + 1)
  {
    NextMod(k, HIGH_RANGE);
    NextMod(k, LOW_RANGE);
  }

  lemma NextMod(k: nat, m: nat)
    requires m > 1
    ensures (k + 1) % m == if k % m == m - 1 then 0 else k % m + 1
  {
    var q, r := k / m, k % m;
    assert k == q * m + r;
    if r == m - 1 {
      assert k + 1 == (q + 1) * m + 0;
      DivMod(q + 1, m, 0);
    } else {
      DivMod(q, m, r + 1);
    }
  }

  // ---- the invariant ----

  /** The IDs drawn so far are the closed forms, and so are the counters. */
  ghost predicate Numbered(c: Channel) {
    && c.tid == IdOf(false, Drawn(c.draws, false, |c.draws|))
    && c.hpTid == IdOf(true, Drawn(c.draws, true, |c.draws|))
    && forall d | 0 <= d < |c.draws| :: c.draws[d].id == IdOf(c.draws[d].high, Rank(c.draws, d))
  }

  /** A registered callback belongs to a sent request with that ID and was not run; each is run once. */
  ghost predicate Registered(c: Channel) {
    && (forall d | d in c.sent :: d < |c.draws|)
    && (forall t | t in c.rxSchedulerMap ::
          c.rxSchedulerMap[t] in c.sent && c.draws[c.rxSchedulerMap[t]].id == t && c.rxSchedulerMap[t] !in c.delivered)
    && (forall d | d in c.delivered :: d in c.sent)
    && Distinct(c.delivered) && Distinct(c.sent)
  }

  /** Transmitted frames followed by queued ones are the frames sent, in order. */
  predicate Conserves(c: Channel) { c.wire + c.txQueue == c.sent }

  ghost predicate Inv(c: Channel) { Numbered(c) && Registered(c) && Conserves(c) }

  lemma RankPrefix(draws: seq<Draw>, more: Draw, k: nat)
    requires k < |draws|
    ensures (draws + [more])[k] == draws[k] && Rank(draws + [more], k) == Rank(draws, k)
  {
    DrawnPrefix(draws, more, draws[k].high, k);
  }

  lemma DrawnSnoc(draws: seq<Draw>, more: Draw, high: bool)
    ensures Drawn(draws + [more], high, |draws| + 1) ==
            Drawn(draws, high, |draws|) + (if more.high == high then 1 else 0)
    ensures more.high == high ==> Rank(draws + [more], |draws|) == Drawn(draws, high, |draws|)
  {
    DrawnPrefix(draws, more, high, |draws|);
  }

  lemma DrawCounters(c: Channel, high: bool)
    requires c.tid == IdOf(false, Drawn(c.draws, false, |c.draws|))
    requires c.hpTid == IdOf(true, Drawn(c.draws, true, |c.draws|))
    ensures var d := DrawId(c, high);
            && d.tid == IdOf(false, Drawn(d.draws, false, |d.draws|))
            && d.hpTid == IdOf(true, Drawn(d.draws, true, |d.draws|))
  {
    hide IdOf, AfterHigh, AfterLow, Drawn, Rank;
    var more := Draw(high, if high then c.hpTid else c.tid);
    assert DrawId(c, high).draws == c.draws + [more];
    NextIds(Drawn(c.draws, high, |c.draws|));
    DrawnSnoc(c.draws, more, false);
    DrawnSnoc(c.draws, more, true);
  }

  lemma DrawNumbers(c: Channel, high: bool)
    requires Numbered(c)
    ensures Numbered(DrawId(c, high))
  {
    hide IdOf, AfterHigh, AfterLow, Drawn, Rank;
    var n := |c.draws|;
    var d := DrawId(c, high);
    DrawCounters(c, high);
    DrawnSnoc(c.draws, d.draws[n], high);
    forall k | 0 <= k < |d.draws| ensures d.draws[k].id == IdOf(d.draws[k].high, Rank(d.draws, k)) {
      if k < n { RankPrefix(c.draws, d.draws[n], k); }
    }
  }

  lemma DrawKeeps(c: Channel, high: bool)
    requires Inv(c)
    ensures Inv(DrawId(c, high))
  {
    DrawNumbers(c, high);
    hide Numbered, AfterHigh, AfterLow;
  }

  lemma SendKeeps(c: Channel, r: nat)
    requires Inv(c) && r < |c.draws| && r !in c.sent
    ensures Inv(Send(c, r))
  {
    hide Drawn, IdOf;
    assert Conserves(Send(c, r)) by { assert c.wire + (c.txQueue + [r]) == (c.wire + c.txQueue) + [r]; }
  }

  lemma PumpKeeps(c: Channel, n: nat)
    requires Inv(c) && n <= |c.txQueue|
    ensures Inv(Pump(c, n))
  {
    hide Drawn, IdOf;
    assert c.txQueue == c.txQueue[..n] + c.txQueue[n..];
    assert (c.wire + c.txQueue[..n]) + c.txQueue[n..] == c.wire + c.txQueue;
  }

  lemma ReceiveKeeps(c: Channel, f: RxFrame)
    requires Inv(c)
    ensures Inv(Receive(c, f))
  {
    hide Drawn, IdOf;
    var d := Receive(c, f);
    if d != c {
      assert forall t | t in d.rxSchedulerMap :: c.draws[c.rxSchedulerMap[t]].id == t;
    }
  }

  lemma StepKeeps(c: Channel, a: Act)
    requires Inv(c)
    ensures Inv(Step(c, a))
  {
    hide Inv, DrawId, Send, Pump, Receive;
    match a
    case ADraw(high) => DrawKeeps(c, high);
    case ASend(r) => if r < |c.draws| && r !in c.sent { SendKeeps(c, r); }
    case APump(n) => if n <= |c.txQueue| { PumpKeeps(c, n); }
    case AReceive(f) => ReceiveKeeps(c, f);
  }

  lemma {:induction false} RunKeeps(c: Channel, acts: seq<Act>)
    requires Inv(c)
    ensures Inv(Run(c, acts))
    decreases |acts|
  {
    hide Inv, Step;
    if acts != [] {
      StepKeeps(c, acts[0]);
      RunKeeps(Step(c, acts[0]), acts[1..]);
    }
  }

  lemma NewIsFine()
    ensures Inv(NEW) && Exact(NEW)
  {
  }

  // ---- the results ----

  /** Over every interleaving: the k-th ID of each priority is the closed form, in 1..0x7FFF or
      0x8000..0xFFFF; no callback runs twice, or without its request having been sent. */
  lemma IdsAndCallbacks(acts: seq<Act>)
    ensures var c := Run(NEW, acts);
            && (forall d | 0 <= d < |c.draws| ::
                  && c.draws[d].id == IdOf(c.draws[d].high, Rank(c.draws, d))
                  && (if c.draws[d].high then 0x8000 <= c.draws[d].id <= 0xFFFF else 1 <= c.draws[d].id <= 0x7FFF))
            && Distinct(c.delivered) && (forall d | d in c.delivered :: d in c.sent)
  {
    NewIsFine();
    RunKeeps(NEW, acts);
    hide Run, Drawn;
  }

  /** Transmit queue conservation: whatever fails, the transmitted frames followed by the queued ones
      are the frames handed to send, in order, none lost and none transmitted twice. */
  lemma QueueConserved(acts: seq<Act>)
    ensures var c := Run(NEW, acts);
            c.wire + c.txQueue == c.sent && c.wire <= c.sent && Distinct(c.wire)
  {
    NewIsFine();
    RunKeeps(NEW, acts);
    var c := Run(NEW, acts);
    hide Run, Numbered;
    assert c.wire == c.sent[..|c.wire|];
    assert forall i | 0 <= i < |c.wire| :: c.wire[i] == c.sent[i];
  }

  /** A frame with ID 0 never consumes a callback. */
  lemma IdZeroIsIgnored(acts: seq<Act>, f: RxFrame)
    requires f.tid == 0
    ensures Receive(Run(NEW, acts), f) == Run(NEW, acts)
  {
    NewIsFine();
    RunKeeps(NEW, acts);
    hide Run;
    assert forall high, k :: IdOf(high, k) != 0;
    hide IdOf, Drawn;
  }

  // ---- which frames consume a callback ----

  ghost predicate LatestAt(c: Channel, t: uint16, d: nat, i: nat) {
    && i < |c.sent| && c.sent[i] == d && d < |c.draws| && c.draws[d].id == t
    && forall k | i < k < |c.sent| && c.sent[k] < |c.draws| :: c.draws[c.sent[k]].id != t
  }

  /** Request d is the last one sent under ID t. */
  ghost predicate Latest(c: Channel, t: uint16, d: nat) { exists i: nat :: LatestAt(c, t, d, i) }

  /** A callback is registered under an ID exactly while the last request sent under it is unanswered. */
  ghost predicate Exact(c: Channel) {
    && (forall d | d in c.sent :: d < |c.draws|)
    && (forall t | t in c.rxSchedulerMap :: Latest(c, t, c.rxSchedulerMap[t]) && c.rxSchedulerMap[t] !in c.delivered)
    && (forall t, d | Latest(c, t, d) && d !in c.delivered :: t in c.rxSchedulerMap && c.rxSchedulerMap[t] == d)
  }

  lemma SendExact(c: Channel, r: nat)
    requires Exact(c) && Registered(c) && r < |c.draws| && r !in c.sent
    ensures Exact(Send(c, r))
  {
    assert r !in c.delivered by { hide Latest; }
    hide Latest, Registered, Distinct;
    var n, own := Send(c, r), c.draws[r].id;
    forall t, d ensures Latest(n, t, d) <==> if t == own then d == r else Latest(c, t, d) {
      LatestAfterSend(c, r, t, d);
    }
  }

  lemma LatestAfterSend(c: Channel, r: nat, t: uint16, d: nat)
    requires r < |c.draws|
    ensures Latest(Send(c, r), t, d) <==> if t == c.draws[r].id then d == r else Latest(c, t, d)
  {
    var n, own := Send(c, r), c.draws[r].id;
    forall i: nat
      ensures LatestAt(n, t, d, i) <==>
              if i == |c.sent| then t == own && d == r else t != own && LatestAt(c, t, d, i)
    {
      SentAt(c, r, t, d, i);
    }
    hide LatestAt;
    if t == own && d == r { assert LatestAt(n, t, d, |c.sent|); }
    if t != own && Latest(c, t, d) {
      var i: nat :| LatestAt(c, t, d, i);
      InRange(c, t, d, i);
      assert LatestAt(n, t, d, i);
    }
  }

  lemma InRange(c: Channel, t: uint16, d: nat, i: nat)
    requires LatestAt(c, t, d, i)
    ensures i < |c.sent|
  {
  }

  lemma SentAt(c: Channel, r: nat, t: uint16, d: nat, i: nat)
    requires r < |c.draws|
    ensures LatestAt(Send(c, r), t, d, i) <==>
            if i == |c.sent| then t == c.draws[r].id && d == r else t != c.draws[r].id && LatestAt(c, t, d, i)
  {
    var n := Send(c, r);
    assert n.sent[|c.sent|] == r && forall k | 0 <= k < |c.sent| :: n.sent[k] == c.sent[k];
  }

  lemma DrawExact(c: Channel, high: bool)
    requires Exact(c)
    ensures Exact(DrawId(c, high))
  {
    hide AfterHigh, AfterLow;
    var n := DrawId(c, high);
    assert forall d | 0 <= d < |c.draws| :: n.draws[d] == c.draws[d];
    forall t, d, i: nat ensures LatestAt(n, t, d, i) <==> LatestAt(c, t, d, i) {
      assert forall k | 0 <= k < |c.sent| :: c.sent[k] in c.sent;
    }
    hide LatestAt;
    SameWhenAt(c, n);
    hide Latest;
  }

  lemma ReceiveExact(c: Channel, f: RxFrame)
    requires Exact(c)
    ensures Exact(Receive(c, f))
  {
    hide Latest, TakenForResponse;
    var n := Receive(c, f);
    SameLatest(c, n);
    if n != c {
      forall t, d | Latest(c, t, d) && d !in n.delivered ensures t in n.rxSchedulerMap && n.rxSchedulerMap[t] == d {
        assert t != f.tid;
      }
      forall t | t in n.rxSchedulerMap ensures n.rxSchedulerMap[t] !in n.delivered {
        SameRequestSameId(c, t, f.tid, n.rxSchedulerMap[t]);
      }
    }
  }

  lemma SameWhenAt(c: Channel, n: Channel)
    requires forall t, d, i: nat :: LatestAt(n, t, d, i) <==> LatestAt(c, t, d, i)
    ensures forall t, d :: Latest(n, t, d) <==> Latest(c, t, d)
  {
    hide LatestAt;
    forall t, d ensures Latest(n, t, d) <==> Latest(c, t, d) {
      if i: nat :| LatestAt(c, t, d, i) { assert LatestAt(n, t, d, i); }
      if i: nat :| LatestAt(n, t, d, i) { assert LatestAt(c, t, d, i); }
    }
  }

  lemma SameLatest(c: Channel, n: Channel)
    requires n.draws == c.draws && n.sent == c.sent
    ensures forall t, d :: Latest(n, t, d) <==> Latest(c, t, d)
  {
    forall t, d, i: nat ensures LatestAt(n, t, d, i) <==> LatestAt(c, t, d, i) {}
    SameWhenAt(c, n);
  }

  lemma SameRequestSameId(c: Channel, t: uint16, u: uint16, d: nat)
    requires Latest(c, t, d)
    ensures Latest(c, u, d) ==> t == u
  {
  }

  lemma StepExact(c: Channel, a: Act)
    requires Exact(c) && Registered(c)
    ensures Exact(Step(c, a))
  {
    hide Exact, Registered, DrawId, Send, Receive;
    match a
    case ADraw(high) => DrawExact(c, high);
    case ASend(r) => if r < |c.draws| && r !in c.sent { SendExact(c, r); }
    case APump(n) => if n <= |c.txQueue| { PumpExact(c, n); }
    case AReceive(f) => ReceiveExact(c, f);
  }

  lemma PumpExact(c: Channel, n: nat)
    requires Exact(c) && n <= |c.txQueue|
    ensures Exact(Pump(c, n))
  {
    SameLatest(c, Pump(c, n));
    hide Latest;
  }

  lemma {:induction false} RunExact(c: Channel, acts: seq<Act>)
    requires Exact(c) && Inv(c)
    ensures Exact(Run(c, acts)) && Inv(Run(c, acts))
    decreases |acts|
  {
    hide Inv, Exact, Step, Registered;
    if acts != [] {
      StepKeeps(c, acts[0]);
      assert Registered(c) by { InvParts(c); }
      StepExact(c, acts[0]);
      RunExact(Step(c, acts[0]), acts[1..]);
    }
  }

  lemma InvParts(c: Channel)
    requires Inv(c)
    ensures Registered(c) && Numbered(c)
  {
    hide Registered, Numbered;
  }

  /** The masked test stops two message types only. */
  lemma MaskedTest(messageType: bv8)
    ensures TakenForAutonomous(messageType) <==> messageType == 0 || messageType == AK
  {
  }

  /** Over every run, exactly which callback a frame consumes: that of the last request sent under its ID
      if that is unanswered, and if the frame is long enough, decodes and its type is neither 0 nor the
      bare acknowledge bit; any other frame leaves the channel alone. */
  lemma WhatConsumes(acts: seq<Act>, f: RxFrame)
    ensures var c := Run(NEW, acts);
            var taken := f.size >= 44 && f.decodes && f.messageType !in {0, AK};
            && (forall d | Latest(c, f.tid, d) && d !in c.delivered && taken ::
                  Receive(c, f).delivered == c.delivered + [d] && f.tid !in Receive(c, f).rxSchedulerMap)
            && (!taken || (forall d | Latest(c, f.tid, d) :: d in c.delivered) ==> Receive(c, f) == c)
  {
    NewIsFine();
    RunExact(NEW, acts);
    MaskedTest(f.messageType);
    hide Run, Latest, Inv;
  }

  /** The promise that a frame without the acknowledge bit never consumes a callback, and exactly when it is
      kept: the frame is short, does not decode, has type 0, or no request with its ID is unanswered. */
  lemma AutonomousIsIgnoredIff(acts: seq<Act>, f: RxFrame)
    requires f.messageType & AK == 0
    ensures var c := Run(NEW, acts);
            Receive(c, f) == c <==>
            || f.size < 44 || !f.decodes || f.messageType == 0
            || forall d | Latest(c, f.tid, d) :: d in c.delivered
  {
    WhatConsumes(acts, f);
    assert f.messageType != AK;
    var c := Run(NEW, acts);
    hide Run, Latest, Receive;
    assert forall d :: |c.delivered + [d]| == |c.delivered| + 1;
  }

  /** For example an alarm notification (type 0x10) that carries a drawn ID is taken for the response,
      although the comment at the test promises to keep such frames away. */
  lemma AlarmConsumesCallback()
    ensures var c := Run(NEW, [ADraw(true), ASend(0)]);
            var alarm := RxFrame(48, true, 0x10, 0x8000);
            alarm.messageType & AK == 0 && Receive(c, alarm).delivered == [0]
  {
    var c := Step(Step(NEW, ADraw(true)), ASend(0));
    assert [ADraw(true), ASend(0)][1..] == [ASend(0)] && [ASend(0)][1..] == [];
    assert Run(Step(NEW, ADraw(true)), [ASend(0)]) == Run(c, []);
    MaskedTest(0x10);
  }

  // ---- correlation ----

  lemma SameClosedForm(high: bool, j: nat, k: nat)
    ensures IdOf(high, j) == IdOf(high, k) <==> j % RangeOf(high) == k % RangeOf(high)
  {
  }

  /** Over every run, two requests share their ID exactly when they have the same priority and their ranks
      among its requests differ by whole ranges. */
  lemma SameIdIff(acts: seq<Act>, a: nat, b: nat)
    requires a < |Run(NEW, acts).draws| && b < |Run(NEW, acts).draws|
    ensures var draws := Run(NEW, acts).draws;
            draws[a].id == draws[b].id <==>
            && draws[a].high == draws[b].high
            && Rank(draws, a) % RangeOf(draws[a].high) == Rank(draws, b) % RangeOf(draws[b].high)
  {
    IdsAndCallbacks(acts);
    var draws := Run(NEW, acts).draws;
    hide Run, Drawn;
    SameClosedForm(draws[a].high, Rank(draws, a), Rank(draws, b));
  }

  lemma CloseRanksDiffer(j: nat, k: nat, m: nat)
    requires j < k < j + m
    ensures j % m != k % m
  {
    var a, b, x := j / m, k / m, j % m;
    assert j == a * m + x && k == b * m + k % m;
    if k % m == x {
      assert k - j == (b - a) * m;
      if b > a { AtLeast(b - a, m); } else if b < a { AtLeast(a - b, m); }
    }
  }

  lemma {:induction false} DrawnGrows(draws: seq<Draw>, high: bool, j: nat, k: nat)
    requires j < k <= |draws| && draws[j].high == high
    ensures Drawn(draws, high, j) < Drawn(draws, high, k)
    decreases k
  {
    if j < k - 1 { DrawnGrows(draws, high, j, k - 1); }
  }

  /** Fewer than a full range of its priority was drawn between the two requests. */
  predicate Close(draws: seq<Draw>, a: nat, b: nat)
    requires a < |draws| && b < |draws|
  {
    draws[a].high == draws[b].high ==>
      var m := RangeOf(draws[a].high);
      Rank(draws, a) < Rank(draws, b) + m && Rank(draws, b) < Rank(draws, a) + m
  }

  lemma CloseRequestsDiffer(c: Channel, a: nat, b: nat)
    requires Numbered(c) && a < |c.draws| && b < |c.draws| && a != b && Close(c.draws, a, b)
    ensures c.draws[a].id != c.draws[b].id
  {
    var ha, hb := c.draws[a].high, c.draws[b].high;
    assert c.draws[a].id == IdOf(ha, Rank(c.draws, a)) && c.draws[b].id == IdOf(hb, Rank(c.draws, b));
    if ha == hb {
      if a < b { DrawnGrows(c.draws, ha, a, b); } else { DrawnGrows(c.draws, ha, b, a); }
      var j, k := Rank(c.draws, a), Rank(c.draws, b);
      if j < k { CloseRanksDiffer(j, k, RangeOf(ha)); } else { CloseRanksDiffer(k, j, RangeOf(ha)); }
      SameClosedForm(ha, j, k);
    }
  }

  /** The request's callback is waiting under its ID. */
  predicate Waiting(c: Channel, d: nat) {
    d < |c.draws| && c.draws[d].id in c.rxSchedulerMap && c.rxSchedulerMap[c.draws[d].id] == d
  }

  /** No response with the ID of request d comes in, and every request sent meanwhile is close to d. */
  ghost predicate Undisturbed(c: Channel, d: nat, acts: seq<Act>)
    requires d < |c.draws|
    decreases |acts|
  {
    acts == [] ||
    (var a := acts[0];
     && (a.AReceive? ==> a.frame.tid != c.draws[d].id)
     && (a.ASend? && a.request < |c.draws| ==> a.request == d || Close(c.draws, a.request, d))
     && Undisturbed(Step(c, a), d, acts[1..]))
  }

  lemma StaysWaiting(c: Channel, d: nat, a: Act)
    requires Inv(c) && Waiting(c, d)
    requires a.AReceive? ==> a.frame.tid != c.draws[d].id
    requires a.ASend? && a.request < |c.draws| ==> a.request == d || Close(c.draws, a.request, d)
    ensures Waiting(Step(c, a), d) && Step(c, a).draws[d] == c.draws[d]
  {
    if a.ASend? && a.request < |c.draws| && a.request != d { CloseRequestsDiffer(c, a.request, d); }
    hide Inv, AfterHigh, AfterLow, Close;
  }

  lemma {:induction false} WaitsThroughRun(c: Channel, d: nat, acts: seq<Act>)
    requires Inv(c) && Waiting(c, d) && Undisturbed(c, d, acts)
    ensures Waiting(Run(c, acts), d) && Run(c, acts).draws[d] == c.draws[d]
    decreases |acts|
  {
    hide Inv, Step, Waiting, Close;
    if acts != [] {
      StaysWaiting(c, d, acts[0]);
      StepKeeps(c, acts[0]);
      WaitsThroughRun(Step(c, acts[0]), d, acts[1..]);
    }
  }

  /** Request/response correlation: after request d was sent, and while fewer than a full range of IDs
      lies between it and the requests sent since, the first response with its ID runs d's callback. */
  lemma Correlation(before: seq<Act>, d: nat, after: seq<Act>, f: RxFrame)
    requires d < |Run(NEW, before).draws| && d !in Run(NEW, before).sent
    requires Undisturbed(Send(Run(NEW, before), d), d, after)
    requires TakenForResponse(f) && f.tid == Run(NEW, before).draws[d].id
    ensures var c := Run(Send(Run(NEW, before), d), after);
            Receive(c, f).delivered == c.delivered + [d]
  {
    NewIsFine();
    RunKeeps(NEW, before);
    var c := Run(NEW, before);
    SendKeeps(c, d);
    assert Waiting(Send(c, d), d);
    WaitsThroughRun(Send(c, d), d, after);
    hide Run, Inv, Undisturbed;
  }
}
