/** The order of bring-up: which device events an OnuDeviceEntry relays over its whole life, through
    any number of stops and restarts of the upload and download FSMs. */
module BringUp {
  import opened Types
  import opened Session
  import opened SessionLoops
  import opened SessionSafety
  import opened SessionTheorems
  import opened SessionProgress
  import opened SessionCycle
  import opened DownloadSession

  datatype DevEvent = MibDatabaseSync | MibDownloadDone | OtherEvent(code: int)

  function Code(ev: DevEvent): int {
    match ev case MibDatabaseSync => 1 case MibDownloadDone => 3 case OtherEvent(c) => c
  }

  /** Which events transferSystemEvent relays in device state devState. */
  predicate Relays(devState: int, ev: DevEvent) { !ev.OtherEvent? && devState < Code(ev) }

  class OnuDeviceEntry {
    var devState: int
    var relayed: seq<DevEvent>  // each starts a goroutine in the device handler

    constructor ()
      ensures devState == 0 && relayed == []
    {
      devState, relayed := 0, [];
    }

    method TransferSystemEvent(ev: DevEvent)
      modifies this
      ensures var first := (ev == MibDatabaseSync && old(devState) < 1) || (ev == MibDownloadDone && old(devState) < 3);
              && relayed == old(relayed) + (if first then [ev] else [])
              && devState == if !first then old(devState) else if ev == MibDatabaseSync then 1 else 3
    {
      if ev == MibDatabaseSync {
        if devState < Code(MibDatabaseSync) {
          devState := Code(MibDatabaseSync);
          relayed := relayed + [ev];
        }
      } else if ev == MibDownloadDone {
        if devState < Code(MibDownloadDone) {
          devState := Code(MibDownloadDone);
          relayed := relayed + [ev];
        }
      }
    }
  }

  /** The device entry with its download FSM; `processing` are the relayed events whose goroutine
      has not run yet and `acts` the history of the download FSM. */
  datatype Entry = Entry(
    devState: int, relayed: seq<DevEvent>, processing: multiset<DevEvent>, dl: Sys, acts: seq<Act>,
    ports: Option<seq<UniPort>>)  // what the download was started with

  const NEW_ENTRY := Entry(0, [], multiset{}, INIT, [], None)

  function Transfer(e: Entry, ev: DevEvent): Entry {
    if Relays(e.devState, ev)
    then e.(devState := Code(ev), relayed := e.relayed + [ev], processing := e.processing + multiset{ev})
    else e
  }

  datatype Life =
    | InSync                                            // the upload FSM enters ulStInSync, perhaps again
    | Process(ev: DevEvent, ports: seq<UniPort>, tx: Option<Me>)
    | Download(a: Act)                                  // any action in or around the download FSM

  function DlStep(e: Entry, a: Act): Entry { e.(dl := Step(DL_FSM, e.dl, a), acts := e.acts + [a]) }

  /** Entering dlStDownloaded relays MibDownloadDone; processing MibDatabaseSync starts the
      download if the FSM is disabled; stop and start only touch fields nothing here reads. */
  function Happens(e: Entry, l: Life): Entry {
    match l
    case InSync => Transfer(e, MibDatabaseSync)
    case Process(ev, ports, tx) =>
      if ev !in e.processing then e
      else
        var done := e.(processing := e.processing - multiset{ev});
        if ev.MibDatabaseSync? && e.dl.st.Disabled?
        then DlStep(done.(ports := Some(ports)), Begin(Script(ports), tx)) else done
    case Download(a) =>
      if a.Begin? then e
      else
        var t := DlStep(e, a);
        if t.dl.st.Done? && !e.dl.st.Done? then Transfer(t, MibDownloadDone) else t
  }

  function Lives(e: Entry, ls: seq<Life>): Entry
    decreases |ls|
  {
    if ls == [] then e else Lives(Happens(e, ls[0]), ls[1..])
  }

  // ---- the invariant ----

  ghost predicate Begun(acts: seq<Act>, n: nat) {
    if n == 0 then forall i | 0 <= i < |acts| :: !acts[i].Begin? else DownloadBegins(acts)
  }

  /** The download FSM is what its history says, and was started once per session. */
  ghost predicate Historic(dl: Sys, acts: seq<Act>) {
    && Conserved(dl) && dl == Run(DL_FSM, INIT, acts) && Begun(acts, dl.sessions)
    && (dl.sessions == 0 ==> dl.st.Disabled?)
  }

  predicate Relayed(devState: int, relayed: seq<DevEvent>) {
    || (relayed == [] && devState == 0)
    || (relayed == [MibDatabaseSync] && devState == 1)
    || (relayed == [MibDatabaseSync, MibDownloadDone] && devState == 3)
  }

  ghost predicate InOrder(e: Entry) {
    && Historic(e.dl, e.acts) && Relayed(e.devState, e.relayed)
    && e.dl.sessions + e.processing[MibDatabaseSync] <= 1
    && (e.relayed == [] ==> e.dl.sessions + e.processing[MibDatabaseSync] == 0)
    && (|e.relayed| < 2 ==> !e.dl.st.Done?)
    && (|e.relayed| == 2 ==> e.dl.sessions == 1)
    && (e.relayed != [] ==> e.dl.sessions + e.processing[MibDatabaseSync] == 1)
    && (e.dl.sessions == 1 ==> e.ports.Some? && e.dl.script == Script(e.ports.value))
  }

  /** Nothing but its owner ever starts the download FSM. */
  lemma OnlyBeginStarts(s: Sys, a: Act)
    requires Conserved(s) && !a.Begin?
    ensures Step(DL_FSM, s, a).sessions == s.sessions && Step(DL_FSM, s, a).script == s.script
    ensures s.st.Disabled? ==> Step(DL_FSM, s, a).st.Disabled?
  {
    hide FireEvent;
    match a
    case FirePosted(ev) => if ev in s.posted { FiresNoStart(s.(posted := s.posted - multiset{ev}), ev); }
    case ExternalReset => FiresNoStart(s, Reset);
    case Take =>
      if s.chan != [] && s.chan[0].Resp? && s.lastTx.Some? {
        var x := React(DL_FSM, s.chan[0].op, s.lastTx.value.cls);
        if x.Fire? { FiresNoStart(s.(chan := s.chan[1..]), Advance(x.i)); }
      }
    case Go(r) =>
      if r < |s.runners| { FiresNoStart(s.(runners := RemoveAt(s.runners, r)), Advance(s.runners[r].phase)); }
    case Expire(r) => if r < |s.runners| { FiresNoStart(s.(runners := RemoveAt(s.runners, r)), Reset); }
    case _ =>
  }

  lemma FiresNoStart(s: Sys, ev: Ev)
    requires !ev.Start? && !ev.TimeoutSimple? && !ev.TimeoutMulti?
    ensures var t := FireEvent(DL_FSM, s, ev);
            t.sessions == s.sessions && t.script == s.script && (s.st.Disabled? ==> t.st.Disabled?)
  {
  }

  lemma RunSnoc(s: Sys, acts: seq<Act>, a: Act)
    ensures Run(DL_FSM, s, acts + [a]) == Step(DL_FSM, Run(DL_FSM, s, acts), a)
  {
    hide Step;
    RunAppend(DL_FSM, s, acts, [a]);
    var t := Run(DL_FSM, s, acts);
    assert Run(DL_FSM, t, [a]) == Run(DL_FSM, Step(DL_FSM, t, a), []);
  }

  lemma BeginStarts(s: Sys, ports: seq<UniPort>, tx: Option<Me>)
    requires s.st.Disabled?
    ensures var t := Step(DL_FSM, s, Begin(Script(ports), tx));
            t.st.Starting? && t.sessions == s.sessions + 1 && t.script == Script(ports)
  {
  }

  lemma BegunOnce(acts: seq<Act>, ports: seq<UniPort>, tx: Option<Me>)
    requires Begun(acts, 0)
    ensures Begun(acts + [Begin(Script(ports), tx)], 1)
  {
    hide Script;
  }

  lemma BegunStill(acts: seq<Act>, a: Act, n: nat)
    requires Begun(acts, n) && !a.Begin?
    ensures Begun(acts + [a], n)
  {
    hide Script;
  }

  lemma Continues(dl: Sys, acts: seq<Act>, a: Act)
    requires Historic(dl, acts) && !a.Begin?
    ensures Historic(Step(DL_FSM, dl, a), acts + [a])
    ensures Step(DL_FSM, dl, a).sessions == dl.sessions && Step(DL_FSM, dl, a).script == dl.script
  {
    OnlyBeginStarts(dl, a);
    StepConserves(DL_FSM, dl, a);
    RunSnoc(INIT, acts, a);
    BegunStill(acts, a, dl.sessions);
    hide Step, Run, Conserved, Begun;
  }

  lemma Starts(dl: Sys, acts: seq<Act>, ports: seq<UniPort>, tx: Option<Me>)
    requires Historic(dl, acts) && dl.st.Disabled? && dl.sessions == 0
    ensures var a := Begin(Script(ports), tx);
            Historic(Step(DL_FSM, dl, a), acts + [a])
    ensures var t := Step(DL_FSM, dl, Begin(Script(ports), tx));
            t.st.Starting? && t.sessions == 1 && t.script == Script(ports)
  {
    var a := Begin(Script(ports), tx);
    BeginStarts(dl, ports, tx);
    StepConserves(DL_FSM, dl, a);
    RunSnoc(INIT, acts, a);
    BegunOnce(acts, ports, tx);
    hide Step, Run, Conserved, Begun, Script;
  }

  lemma DownloadKeepsOrder(e: Entry, a: Act)
    requires InOrder(e) && !a.Begin?
    ensures InOrder(Happens(e, Download(a)))
  {
    Continues(e.dl, e.acts, a);
    assert Step(DL_FSM, e.dl, a).st.Done? ==> e.dl.sessions == 1 by {
      if e.dl.sessions == 0 { OnlyBeginStarts(e.dl, a); }
    }
    hide Step, Historic, Script;
  }

  lemma ProcessKeepsOrder(e: Entry, ev: DevEvent, ports: seq<UniPort>, tx: Option<Me>)
    requires InOrder(e)
    ensures InOrder(Happens(e, Process(ev, ports, tx)))
  {
    if ev in e.processing && ev.MibDatabaseSync? && e.dl.st.Disabled? {
      Starts(e.dl, e.acts, ports, tx);
    }
    hide Step, Historic, Script;
  }

  lemma {:induction false} LivesInOrder(e: Entry, ls: seq<Life>)
    requires InOrder(e)
    ensures InOrder(Lives(e, ls))
    decreases |ls|
  {
    hide Step;
    if ls != [] {
      match ls[0] {
        case InSync =>
          hide Historic;
          assert InOrder(Happens(e, InSync));
        case Process(ev, ports, tx) => ProcessKeepsOrder(e, ev, ports, tx);
        case Download(a) => if !a.Begin? { DownloadKeepsOrder(e, a); }
      }
      hide Happens, InOrder;
      LivesInOrder(Happens(e, ls[0]), ls[1..]);
    }
  }

  // ---- the results ----

  /** Somebody processed MibDatabaseSync with these ports. */
  ghost predicate Asked(ls: seq<Life>, ports: seq<UniPort>) {
    exists k, tx :: 0 <= k < |ls| && ls[k] == Process(MibDatabaseSync, ports, tx)
  }

  lemma {:induction false} PortsAreAsked(e: Entry, ls: seq<Life>)
    ensures Lives(e, ls).ports == e.ports || (Lives(e, ls).ports.Some? && Asked(ls, Lives(e, ls).ports.value))
    decreases |ls|
  {
    if ls != [] {
      var t, rest := Happens(e, ls[0]), ls[1..];
      PortsAreAsked(t, rest);
      PortsOfStep(e, ls[0]);
      hide Happens;
      var ports := Lives(t, rest).ports;
      if ports.Some? && Asked(rest, ports.value) {
        var k, tx :| 0 <= k < |rest| && rest[k] == Process(MibDatabaseSync, ports.value, tx);
        assert ls[k + 1] == Process(MibDatabaseSync, ports.value, tx);
      }
    }
  }

  lemma PortsOfStep(e: Entry, l: Life)
    ensures var t := Happens(e, l);
            t.ports == e.ports || (l.Process? && l.ev.MibDatabaseSync? && t.ports == Some(l.ports))
  {
    hide Step, Script;
  }

  /** What every entry is like: in order, and working on the ports it was asked for. */
  lemma LifeSoFar(ls: seq<Life>)
    ensures var e := Lives(NEW_ENTRY, ls);
            && InOrder(e)
            && (Live(e.dl.st) ==> e.ports.Some? && Asked(ls, e.ports.value) && Downloads(e.dl, e.ports.value))
  {
    assert Historic(INIT, []);
    LivesInOrder(NEW_ENTRY, ls);
    PortsAreAsked(NEW_ENTRY, ls);
    var e := Lives(NEW_ENTRY, ls);
    hide Step, Run, Lives, Asked, Downloads;
    if Live(e.dl.st) { LiveDownloads(e); }
  }

  lemma LiveDownloads(e: Entry)
    requires InOrder(e) && Live(e.dl.st)
    ensures e.ports.Some? && Downloads(e.dl, e.ports.value)
  {
    hide Step, Run, Script, Whole, Alternating;
    assert e.dl.sessions == 1;
    DownloadSound(e.acts);
    var ports :| Downloads(e.dl, ports);
    FirstTraffic(e.dl, e.acts, e.ports.value);
  }

  lemma FirstTraffic(dl: Sys, acts: seq<Act>, ports: seq<UniPort>)
    requires DownloadBegins(acts) && dl == Run(DL_FSM, INIT, acts) && dl.sessions <= 1 && Live(dl.st)
    requires dl.script == Script(ports)
    ensures Downloads(dl, ports)
  {
    forall i | 0 <= i < |acts| && acts[i].Begin? ensures Conforms(DL_FSM, acts[i].script) {
      var some :| acts[i].script == Script(some);
      ScriptConforms(some);
    }
    hide Step, Script, Whole, Alternating, Conforms;
    FirstSessionSound(DL_FSM, acts);
    FlatScript(ports);
    DownloadsWhole(dl, ports);
  }

  /** Over its whole life an entry relays nothing but an initial part of MibDatabaseSync, MibDownloadDone;
      its download FSM is started at most once; and whenever that FSM is live, it downloads the ports
      that MibDatabaseSync was processed with, with all acknowledged by the time MibDownloadDone is relayed. */
  lemma BringUpOrder(ls: seq<Life>)
    ensures var e := Lives(NEW_ENTRY, ls);
            && e.relayed <= [MibDatabaseSync, MibDownloadDone]
            && e.dl.sessions <= 1
            && (MibDownloadDone in e.relayed ==> e.dl.sessions == 1)
            && (e.dl.st.Done? ==> MibDownloadDone in e.relayed)
            && (Live(e.dl.st) ==> exists ports :: Asked(ls, ports) && Downloads(e.dl, ports))
  {
    LifeSoFar(ls);
    hide Step, Run, Conserved, Lives, Downloads, Asked, Historic;
  }

  lemma RelayedOnDone(e: Entry, l: Life)
    requires MibDownloadDone !in e.relayed && MibDownloadDone in Happens(e, l).relayed
    ensures Happens(e, l).dl.st.Done?
  {
    hide Step;
  }

  lemma LivesSnoc(e: Entry, ls: seq<Life>, l: Life)
    ensures Lives(e, ls + [l]) == Happens(Lives(e, ls), l)
  {
    hide Happens;
    LivesAppend(e, ls, [l]);
    var t := Lives(e, ls);
    assert Lives(t, [l]) == Lives(Happens(t, l), []);
  }

  /** At the very moment MibDownloadDone is relayed, the ONU has acknowledged the whole download of the ports
      that MibDatabaseSync was processed with. */
  lemma DoneMeansDownloaded(ls: seq<Life>, l: Life)
    ensures var e := Lives(NEW_ENTRY, ls);
            var t := Happens(e, l);
            MibDownloadDone in t.relayed && MibDownloadDone !in e.relayed ==>
              exists ports :: Asked(ls + [l], ports) && IsDownload(AckedMes(t.dl.trace), ports)
                              && t.dl.trace == Alternating(AckedMes(t.dl.trace))
  {
    var e := Lives(NEW_ENTRY, ls);
    var t := Happens(e, l);
    LivesSnoc(NEW_ENTRY, ls, l);
    LifeSoFar(ls + [l]);
    if MibDownloadDone in t.relayed && MibDownloadDone !in e.relayed { RelayedOnDone(e, l); }
    hide Step, Run, Conserved, Lives, Happens, Asked, IsDownload, Alternating, Script, Historic;
  }

  // ---- that it happens at all ----

  lemma {:induction false} SyncStays(e: Entry, ls: seq<Life>)
    requires InOrder(e)
    ensures MibDatabaseSync in Lives(e, ls).relayed <==> MibDatabaseSync in e.relayed || InSync in ls
    decreases |ls|
  {
    if ls != [] {
      LivesInOrder(e, [ls[0]]);
      assert Lives(e, [ls[0]]) == Lives(Happens(e, ls[0]), []);
      SyncRelayed(e, ls[0]);
      hide Happens, InOrder;
      SyncStays(Happens(e, ls[0]), ls[1..]);
      assert ls == [ls[0]] + ls[1..];
    }
  }

  lemma SyncRelayed(e: Entry, l: Life)
    requires InOrder(e)
    ensures MibDatabaseSync in Happens(e, l).relayed <==> MibDatabaseSync in e.relayed || l == InSync
  {
    hide Step, Historic, Script;
  }

  lemma ProcessStarts(e: Entry, ports: seq<UniPort>, tx: Option<Me>)
    requires InOrder(e) && MibDatabaseSync in e.processing
    ensures e.dl.st.Disabled? && e.dl.sessions == 0
    ensures var t := Happens(e, Process(MibDatabaseSync, ports, tx));
            t.dl == Step(DL_FSM, e.dl, Begin(Script(ports), tx)) && t.dl.st.Starting? && t.dl.sessions == 1
  {
    hide Step, Script, Run;
    BeginStarts(e.dl, ports, tx);
  }

  /** Once the MIB is in sync the event is relayed, and its goroutine either still has to run or has started the
      download; when it runs, it finds the download FSM disabled and starts it. */
  lemma SyncStartsDownload(ls: seq<Life>, ports: seq<UniPort>, tx: Option<Me>)
    ensures var e := Lives(NEW_ENTRY, ls);
            && (MibDatabaseSync in e.relayed <==> InSync in ls)
            && (InSync in ls ==> e.processing[MibDatabaseSync] + e.dl.sessions == 1)
            && (MibDatabaseSync in e.processing ==>
                  e.dl.st.Disabled? && Happens(e, Process(MibDatabaseSync, ports, tx)).dl.st.Starting?)
  {
    assert Historic(INIT, []);
    assert InOrder(NEW_ENTRY);
    SyncStays(NEW_ENTRY, ls);
    LivesInOrder(NEW_ENTRY, ls);
    var e := Lives(NEW_ENTRY, ls);
    if MibDatabaseSync in e.processing { ProcessStarts(e, ports, tx); }
    hide Step, Run, Lives, Happens, Historic, Script;
  }

  function Downloading(acts: seq<Act>): seq<Life> { seq(|acts|, i requires 0 <= i < |acts| => Download(acts[i])) }

  lemma {:induction false} LivesDownloading(e: Entry, acts: seq<Act>)
    requires forall a | a in acts :: !a.Begin?
    ensures Lives(e, Downloading(acts)).dl == Run(DL_FSM, e.dl, acts)
    decreases |acts|
  {
    hide Step;
    if acts != [] {
      var l := Downloading(acts);
      assert l[0] == Download(acts[0]) && l[1..] == Downloading(acts[1..]);
      assert acts[0] in acts && forall a | a in acts[1..] :: a in acts;
      LivesDownloading(Happens(e, l[0]), acts[1..]);
    }
  }

  /** With an ONU that cooperates every bring-up gets through: both events are relayed, and everything the ports
      need was acknowledged. */
  lemma BringUpCompletable(ports: seq<UniPort>, tx: Option<Me>)
    ensures exists ls ::
              var e := Lives(NEW_ENTRY, ls);
              e.relayed == [MibDatabaseSync, MibDownloadDone] && IsDownload(AckedMes(e.dl.trace), ports)
  {
    hide Script, Step, IsDownload, Run, Lives, Historic, Downloads, Alternating;
    var acts := DownloadRuns(ports, tx);
    DownloadOfPorts(ports, tx, acts);
    StartedEntry(ports, tx);
    var first := [InSync, Process(MibDatabaseSync, ports, tx)];
    var ls := first + Downloading(acts);
    LivesAppend(NEW_ENTRY, first, Downloading(acts));
    LivesDownloading(Lives(NEW_ENTRY, first), acts);
    LifeSoFar(ls);
  }

  lemma DownloadRuns(ports: seq<UniPort>, tx: Option<Me>) returns (acts: seq<Act>)
    ensures forall a | a in acts :: !a.Begin?
    ensures var s := Run(DL_FSM, Step(DL_FSM, INIT, Begin(Script(ports), tx)), acts); s.st.Done? && s.sessions == 1
  {
    ScriptConforms(ports);
    FlatScript(ports);
    hide Script, Whole, AllAnswerable, Conforms, Step, Enter;
    var d;
    acts, d := Completes(DL_FSM, INIT, Script(ports), tx);
    EnterKeepsState(DL_FSM, d);
    assert ([Begin(Script(ports), tx)] + acts)[1..] == acts;
  }

  lemma StartedEntry(ports: seq<UniPort>, tx: Option<Me>)
    ensures Lives(NEW_ENTRY, [InSync, Process(MibDatabaseSync, ports, tx)]).dl ==
            Step(DL_FSM, INIT, Begin(Script(ports), tx))
  {
    hide Step, Script;
    var l := Process(MibDatabaseSync, ports, tx);
    var e := Happens(NEW_ENTRY, InSync);
    assert [InSync, l][1..] == [l] && [l][1..] == [];
    assert Lives(e, [l]) == Lives(Happens(e, l), []);
  }

  lemma {:induction false} LivesAppend(e: Entry, a: seq<Life>, b: seq<Life>)
    ensures Lives(e, a + b) == Lives(Lives(e, a), b)
    decreases |a|
  {
    hide Happens;
    if a == [] {
      assert a + b == b;
    } else {
      assert (a + b)[0] == a[0] && (a + b)[1..] == a[1..] + b;
      LivesAppend(Happens(e, a[0]), a[1..], b);
    }
  }
}
