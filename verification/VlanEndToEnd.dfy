/** From an accepted flow through a completed session to the treatment of frames. */
module VlanEndToEnd {
  import opened Types
  import opened Session
  import opened SessionSafety
  import opened SessionTheorems
  import opened VlanFlow
  import opened EvtocdRules
  import opened EvtocdMeaning
  import opened VlanCompile
  import opened VlanSession

  const TABLE := "ReceivedFrameVlanTaggingOperationTable"

  /** What an acknowledged request makes of the ONU's tagging table. */
  function TakenOver(table: set<Rule>, me: Me): set<Rule> {
    if me.cls == Evtocd && TABLE in me.attrs && me.attrs[TABLE].Octets? && |me.attrs[TABLE].bytes| == 16
    then Write(table, Decode(me.attrs[TABLE].bytes).rule) else table
  }

  /** The ONU's tagging table after all that a session got acknowledged. */
  function TableAfter(table: set<Rule>, trace: seq<Tr>): set<Rule>
    decreases |trace|
  {
    if trace == [] then table
    else
      var before, last := TableAfter(table, trace[..|trace| - 1]), trace[|trace| - 1];
      if last.Acked? then TakenOver(before, last.me) else before
  }

  function AllTakenOver(table: set<Rule>, mes: seq<Me>): set<Rule>
    decreases |mes|
  {
    if mes == [] then table else TakenOver(AllTakenOver(table, mes[..|mes| - 1]), mes[|mes| - 1])
  }

  /** In the middle of a session, the requests acknowledged so far have been taken over, and no others. */
  lemma {:induction false} PrefixTakenOver(table: set<Rule>, mes: seq<Me>, t: seq<Tr>)
    requires t <= Alternating(mes) && |Alternating(mes)| == 2 * |mes|
    ensures TableAfter(table, t) == AllTakenOver(table, mes[..|t| / 2])
    decreases |t|
  {
    hide TakenOver, Alternating;
    if t != [] {
      var n := |t| - 1;
      PrefixTakenOver(table, mes, t[..n]);
      AlternatingTraffic(mes);
      assert t[n] == if n % 2 == 0 then Sent(mes[n / 2]) else Acked(mes[n / 2]);
      if n % 2 == 1 { assert mes[..(n + 1) / 2][..n / 2] == mes[..n / 2]; }
    }
  }

  lemma {:induction false} InstalledSnoc(table: set<Rule>, entries: seq<seq<uint8>>, e: seq<uint8>)
    requires |e| == 16 && forall i | 0 <= i < |entries| :: |entries[i]| == 16
    ensures Installed(table, entries + [e]) == Write(Installed(table, entries), Decode(e).rule)
    decreases |entries|
  {
    hide Write, Decode;
    if entries == [] {
      assert entries + [e] == [e] && [e][1..] == [];
    } else {
      assert (entries + [e])[1..] == entries[1..] + [e];
      InstalledSnoc(Write(table, Decode(entries[0]).rule), entries[1..], e);
    }
  }

  lemma {:induction false} EntriesTakenOver(table: set<Rule>, j: VlanJob, first: seq<Me>, entries: seq<seq<uint8>>)
    requires forall i | 0 <= i < |entries| :: |entries[i]| == 16
    requires AllTakenOver(table, first) == table
    ensures AllTakenOver(table, first + EntrySets(j, entries)) == Installed(table, entries)
    decreases |entries|
  {
    hide Write, Decode;
    if entries == [] {
      assert first + EntrySets(j, entries) == first;
    } else {
      var front, e := entries[..|entries| - 1], entries[|entries| - 1];
      EntriesTakenOver(table, j, first, front);
      InstalledSnoc(table, front, e);
      assert front + [e] == entries;
      var mes := first + EntrySets(j, entries);
      assert mes[..|mes| - 1] == first + EntrySets(j, front);
      assert mes[|mes| - 1] == SetEntry(j, e);
    }
  }

  function Prelude(j: VlanJob): seq<Me> { StepsOf(FilterStep(j)) + [SetTpids(j)] }

  /** Neither the filter nor the TPIDs touch the table. */
  lemma PreludeTakesNothing(table: set<Rule>, j: VlanJob, k: nat)
    requires k <= |Prelude(j)|
    ensures AllTakenOver(table, Prelude(j)[..k]) == table
  {
    hide Write, Decode, CreateVtfd, SetTpids;
    forall me | me in Prelude(j) ensures TakenOver(table, me) == table { NoTable(j); }
    hide TakenOver;
    TakesNothing(table, Prelude(j)[..k]);
  }

  lemma NoTable(j: VlanJob)
    ensures CreateVtfd(j).cls != Evtocd && TABLE !in SetTpids(j).attrs
  {
  }

  lemma {:induction false} TakesNothing(table: set<Rule>, mes: seq<Me>)
    requires forall me | me in mes :: TakenOver(table, me) == table
    ensures AllTakenOver(table, mes) == table
    decreases |mes|
  {
    hide TakenOver;
    if mes != [] {
      assert forall me | me in mes[..|mes| - 1] :: me in mes;
      TakesNothing(table, mes[..|mes| - 1]);
    }
  }

  /** After n entries were acknowledged, the ONU has installed precisely these. */
  lemma PartTakenOver(table: set<Rule>, j: VlanJob, k: nat) returns (n: nat)
    requires ValidJob(j) && k <= |Whole(j)|
    ensures n <= |Encoded(j.cfg)| && (k == |Whole(j)| ==> n == |Encoded(j.cfg)|)
    ensures AllTakenOver(table, Whole(j)[..k]) == Installed(table, Encoded(j.cfg)[..n])
  {
    hide Write, Decode, AllTakenOver, FilterStep, SetTpids, SetEntry;
    var p, entries := |Prelude(j)|, Encoded(j.cfg);
    WholeIs(j);
    if k <= p {
      n := 0;
      assert Whole(j)[..k] == Prelude(j)[..k];
      PreludeTakesNothing(table, j, k);
    } else {
      n := k - p;
      assert Whole(j)[..k] == Prelude(j) + EntrySets(j, entries[..n]);
      assert Prelude(j)[..p] == Prelude(j);
      PreludeTakesNothing(table, j, p);
      EntriesTakenOver(table, j, Prelude(j), entries[..n]);
    }
  }

  lemma WholeIs(j: VlanJob)
    requires ValidJob(j)
    ensures Whole(j) == Prelude(j) + EntrySets(j, Encoded(j.cfg))
  {
    hide FilterStep, SetTpids, SetEntry, Encoded;
  }

  // ---- every moment of a session ----

  /** What the ONU does with a frame after the first n entries. */
  ghost predicate Treats(c: Cfg, n: nat, f: Frame, outcome: Outcome)
    requires InRange(c) && n <= |Encoded(c)|
  {
    Yields(Installed(DEFAULTS, Encoded(c)[..n]), f, outcome)
  }

  lemma StackingHalfway(matchVid: uint16, setVid: uint16, setPcp: uint8, f: Frame)
    requires matchVid <= VID_PRESENT && setVid < VID_PRESENT && ValidFrame(f)
    ensures var c := NewCfg(false, matchVid, setVid, setPcp);
            && |Encoded(c)| == 2
            && Treats(c, 1, f, if f.tags == [] then Wanted(false, matchVid, setVid, setPcp, f) else Forward(f))
  {
    var c := NewCfg(false, matchVid, setVid, setPcp);
    var a := StackUntagged(c);
    EntriesWritable(c);
    HalfTable(c);
    EntryMatches(PRIO_IGNORE_TAG, VID_ANY, 0, 0, setVid, f);
    StackingTreats(setVid, f);
    KeepsKeep(f);
    hide Matches, IsDefault, Treat, Entry, Keep, Yields, Installed, Encoded, KEEP_SINGLE, KEEP_DOUBLE;
    Decides({KEEP_SINGLE, KEEP_DOUBLE, a}, f,
            if f.tags == [] then a else if |f.tags| == 1 then KEEP_SINGLE else KEEP_DOUBLE);
  }

  lemma HalfTable(c: Cfg)
    requires InRange(c) && c.setVid != VID_PRESENT && !c.accept
    ensures |Encoded(c)| == 2 && Installed(DEFAULTS, Encoded(c)[..1]) == {KEEP_SINGLE, KEEP_DOUBLE, StackUntagged(c)}
  {
    var a := StackUntagged(c);
    EntriesWritable(c);
    DecodedEntry(a);
    WriteStacking(c.setVid);
    hide Decode, Encode;
    assert Encoded(c)[..1] == [Encode(a)];
    InstalledOne(DEFAULTS, Encode(a));
  }

  /** After none of the entries every frame passes; after all of them each is treated as the flow asks;
      and in between each is treated one way or the other. */
  lemma EachMoment(accept: bool, matchVid: uint16, setVid: uint16, setPcp: uint8, n: nat, f: Frame)
    requires matchVid <= VID_PRESENT && setVid <= VID_PRESENT && ValidFrame(f)
    requires Meant(accept, matchVid, setVid, setPcp)
    requires n <= |Encoded(NewCfg(accept, matchVid, setVid, setPcp))|
    ensures var c := NewCfg(accept, matchVid, setVid, setPcp);
            var wanted := Wanted(accept, matchVid, setVid, setPcp, f);
            && (Treats(c, n, f, Forward(f)) || Treats(c, n, f, wanted))
            && (n == |Encoded(c)| ==> Treats(c, n, f, wanted))
  {
    var c := NewCfg(accept, matchVid, setVid, setPcp);
    hide Encoded, Meant, Treats, Wanted, ValidFrame, Entries;
    HowMany(c);
    if n == |Encoded(c)| {
      AllInstalled(accept, matchVid, setVid, setPcp, f);
    } else if n == 0 {
      NothingInstalled(c, f);
    } else {
      StackingHalfway(matchVid, setVid, setPcp, f);
    }
  }

  lemma HowMany(c: Cfg)
    requires InRange(c)
    ensures |Encoded(c)| == if c.setVid == VID_PRESENT || c.accept then 1 else 2
  {
    EntriesWritable(c);
    hide Encode;
  }

  lemma AllInstalled(accept: bool, matchVid: uint16, setVid: uint16, setPcp: uint8, f: Frame)
    requires matchVid <= VID_PRESENT && setVid <= VID_PRESENT && ValidFrame(f)
    requires Meant(accept, matchVid, setVid, setPcp)
    ensures var c := NewCfg(accept, matchVid, setVid, setPcp);
            Treats(c, |Encoded(c)|, f, Wanted(accept, matchVid, setVid, setPcp, f))
  {
    hide Encoded, Yields, Wanted, Installed, DEFAULTS, ValidFrame;
    var c := NewCfg(accept, matchVid, setVid, setPcp);
    assert Encoded(c)[..|Encoded(c)|] == Encoded(c);
  }

  lemma NothingInstalled(c: Cfg, f: Frame)
    requires InRange(c)
    ensures Treats(c, 0, f, Forward(f))
  {
    hide Encoded, Yields, DEFAULTS;
    DefaultsKeepFrames(f);
  }

  // ---- from the flow to the frames ----

  function JobFor(flow: Flow, accept: bool, macBpNo: uint8, entityID: uint16): VlanJob
    requires Decide(flow, false).Configure?
  {
    var d := Decide(flow, false);
    VlanJob(macBpNo, entityID, d.tpID, NewCfg(accept, d.matchVid, d.setVid, d.setPcp))
  }

  /** The table of the ONU is what the acknowledged entries make of it, at every moment. */
  lemma SessionInstalls(j: VlanJob, tx: Option<Me>, acts: seq<Act>) returns (n: nat)
    requires ValidJob(j)
    ensures var s := Run(VLAN_FSM, Step(VLAN_FSM, INIT, Begin(VlanSession.Script(j), tx)), acts);
            s.sessions == 1 && Live(s.st) ==>
              && n <= |Encoded(j.cfg)| && (s.st.Done? ==> n == |Encoded(j.cfg)|)
              && TableAfter(DEFAULTS, s.trace) == Installed(DEFAULTS, Encoded(j.cfg)[..n])
  {
    VlanTraffic(j, tx, acts);
    hide Run, Step, Whole, VlanSession.Script, Alternating, AllTakenOver, TableAfter, Encoded, Installed, DEFAULTS;
    var s := Run(VLAN_FSM, Step(VLAN_FSM, INIT, Begin(VlanSession.Script(j), tx)), acts);
    n := 0;
    if s.sessions == 1 && Live(s.st) {
      AlternatingTraffic(Whole(j));
      PrefixTakenOver(DEFAULTS, Whole(j), s.trace);
      n := PartTakenOver(DEFAULTS, j, |s.trace| / 2);
    }
  }

  /** Whatever flow is accepted and whatever happens on the way: once the session is done, the ONU has
      acknowledged octets that make its table treat every frame as the flow asks, and at every moment
      before, each frame is treated that way or passes unchanged - unless a translation is asked for with
      a priority above 8. */
  lemma FlowTakesEffect(
    flow: Flow, accept: bool, macBpNo: uint8, entityID: uint16, tx: Option<Me>, acts: seq<Act>, f: Frame)
    requires Decide(flow, false).Configure? && ValidFrame(f)
    ensures var d, j := Decide(flow, false), JobFor(flow, accept, macBpNo, entityID);
            && ValidJob(j)
            && var s := Run(VLAN_FSM, Step(VLAN_FSM, INIT, Begin(VlanSession.Script(j), tx)), acts);
               s.sessions == 1 && Live(s.st) && (accept && d.setVid != VID_PRESENT ==> SetPcp(flow.actions) <= 8) ==>
                 Shown(TableAfter(DEFAULTS, s.trace), s.st.Done?, f, Wanted(accept, d.matchVid, d.setVid, d.setPcp, f))
  {
    AcceptedRanges(flow, false);
    FlowCompilation(flow, accept);
    var d, j := Decide(flow, false), JobFor(flow, accept, macBpNo, entityID);
    assert j.cfg == NewCfg(accept, d.matchVid, d.setVid, d.setPcp);
    assert ValidJob(j);
    hide *;
    if accept && d.setVid != VID_PRESENT ==> SetPcp(flow.actions) <= 8 {
      JobTakesEffect(j, accept, d.matchVid, d.setVid, d.setPcp, tx, acts, f);
    }
  }

  lemma JobTakesEffect(
    j: VlanJob, accept: bool, matchVid: uint16, setVid: uint16, setPcp: uint8, tx: Option<Me>, acts: seq<Act>, f: Frame)
    requires ValidJob(j) && ValidFrame(f) && matchVid <= VID_PRESENT && setVid <= VID_PRESENT
    requires j.cfg == NewCfg(accept, matchVid, setVid, setPcp) && Meant(accept, matchVid, setVid, setPcp)
    ensures var s := Run(VLAN_FSM, Step(VLAN_FSM, INIT, Begin(VlanSession.Script(j), tx)), acts);
            s.sessions == 1 && Live(s.st) ==>
              Shown(TableAfter(DEFAULTS, s.trace), s.st.Done?, f, Wanted(accept, matchVid, setVid, setPcp, f))
  {
    assert InRange(j.cfg);
    hide *;
    var n := SessionInstalls(j, tx, acts);
    var s := Run(VLAN_FSM, Step(VLAN_FSM, INIT, Begin(VlanSession.Script(j), tx)), acts);
    if s.sessions == 1 && Live(s.st) {
      EachMoment(accept, matchVid, setVid, setPcp, n, f);
      ShownBy(j.cfg, n, s.st.Done?, f, Wanted(accept, matchVid, setVid, setPcp, f));
    }
  }

  /** How a frame fares: as wanted, or before the end still unchanged. */
  ghost predicate Shown(table: set<Rule>, done: bool, f: Frame, wanted: Outcome) {
    Yields(table, f, wanted) || (!done && Yields(table, f, Forward(f)))
  }

  lemma ShownBy(c: Cfg, n: nat, done: bool, f: Frame, wanted: Outcome)
    requires InRange(c) && n <= |Encoded(c)| && (done ==> n == |Encoded(c)|)
    requires Treats(c, n, f, Forward(f)) || Treats(c, n, f, wanted)
    requires n == |Encoded(c)| ==> Treats(c, n, f, wanted)
    ensures Shown(Installed(DEFAULTS, Encoded(c)[..n]), done, f, wanted)
  {
    hide Yields, Installed, Encoded, DEFAULTS;
  }
}
