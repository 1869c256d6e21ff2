/** From a flow to table entries, and what these entries do: omci_vlan_config.go. */
module VlanCompile {
  import opened Types
  import opened VlanFlow
  import opened EvtocdRules
  import opened EvtocdMeaning

  /** The rule related fields of UniVlanConfigFsm. */
  datatype Cfg = Cfg(accept: bool, matchVid: uint16, matchPcp: nat, tagsToRemove: nat, setVid: uint16, setPcp: uint8)

  /** What the constructor makes of the flow's values. */
  function NewCfg(accept: bool, matchVid: uint16, setVid: uint16, setPcp: uint8): Cfg {
    if matchVid == VID_PRESENT
    then Cfg(accept, matchVid, PRIO_IGNORE_TAG, 0, setVid, if setPcp == COPY_FROM_INNER then 0 else setPcp)
    else Cfg(accept, matchVid, PRIO_ANY, 1, setVid, setPcp)
  }

  predicate InRange(c: Cfg) {
    c.matchPcp < 16 && c.tagsToRemove < 3 && c.matchVid <= VID_PRESENT && c.setVid <= VID_PRESENT
  }

  function Entry(innerPrio: nat, innerVid: nat, remove: nat, prio: nat, vid: nat): Rule {
    Rule(PRIO_IGNORE_TAG, VID_ANY, 0, innerPrio, innerVid, 0, 0, remove, PRIO_DO_NOT_ADD, 0, 0, prio, vid, 4)
  }

  const TRANSPARENT := Entry(PRIO_DEFAULT, VID_ANY, 0, PRIO_DO_NOT_ADD, 0)

  function Translation(c: Cfg): Rule { Entry(c.matchPcp, c.matchVid, c.tagsToRemove, c.setPcp, c.setVid) }

  function StackUntagged(c: Cfg): Rule { Entry(PRIO_IGNORE_TAG, VID_ANY, 0, 0, c.setVid) }

  function StackPrioTagged(c: Cfg): Rule { Entry(PRIO_ANY, 0, 1, COPY_FROM_INNER, c.setVid) }

  function Entries(c: Cfg): seq<Rule> {
    if c.setVid == VID_PRESENT then [TRANSPARENT]
    else if c.accept then [Translation(c)]
    else [StackUntagged(c), StackPrioTagged(c)]
  }

  lemma EntriesWritable(c: Cfg)
    requires InRange(c)
    ensures forall i | 0 <= i < |Entries(c)| :: Writable(Entries(c)[i])
  {
  }

  function Encoded(c: Cfg): seq<seq<uint8>>
    requires InRange(c)
  {
    EntriesWritable(c);
    seq(|Entries(c)|, i requires 0 <= i < |Entries(c)| => Encode(Entries(c)[i]))
  }

  class UniVlanConfigFsm {
    var accept: bool
    var matchVid: uint16
    var matchPcp: nat
    var tagsToRemove: nat
    var setVid: uint16
    var setPcp: uint8

    function Config(): Cfg
      reads this
    {
      Cfg(accept, matchVid, matchPcp, tagsToRemove, setVid, setPcp)
    }

    constructor (accept: bool, matchVid: uint16, setVid: uint16, setPcp: uint8)
      ensures Config() == NewCfg(accept, matchVid, setVid, setPcp)
    {
      this.accept, this.matchVid, this.setVid, this.setPcp := accept, matchVid, setVid, setPcp;
      this.tagsToRemove, this.matchPcp := 1, PRIO_ANY;
      if matchVid == VID_PRESENT {
        this.tagsToRemove, this.matchPcp := 0, PRIO_IGNORE_TAG;
        if setPcp == COPY_FROM_INNER { this.setPcp := 0; }
      }
    }

    /** The table entries performConfigEvtocdEntries sends, in order. */
    method PerformConfigEvtocdEntries() returns (entries: seq<seq<uint8>>)
      requires InRange(Config())
      ensures entries == Encoded(Config())
    {
      EntriesWritable(Config());
      hide Encode, Writable, Entry;
      ghost var rules := Entries(Config());
      if setVid == VID_PRESENT {
        assert rules[0] == TRANSPARENT;
        var slice := FillRule(TRANSPARENT);
        entries := [slice[..]];
      } else if accept {
        var rule := Entry(matchPcp, matchVid, tagsToRemove, setPcp, setVid);
        assert rules[0] == rule;
        var slice := FillRule(rule);
        entries := [slice[..]];
      } else {
        var untagged := Entry(PRIO_IGNORE_TAG, VID_ANY, 0, 0, setVid);
        var prioTagged := Entry(PRIO_ANY, 0, 1, COPY_FROM_INNER, setVid);
        assert rules[0] == untagged && rules[1] == prioTagged;
        var first := FillRule(untagged);
        entries := [first[..]];
        var second := FillRule(prioTagged);
        entries := entries + [second[..]];
      }
    }
  }

  /** The ONU's table after it took over all octets that were sent to it. */
  function Installed(table: set<Rule>, entries: seq<seq<uint8>>): set<Rule>
    requires forall i | 0 <= i < |entries| :: |entries[i]| == 16
    decreases |entries|
  {
    if entries == [] then table else Installed(Write(table, Decode(entries[0]).rule), entries[1..])
  }

  function TableOf(accept: bool, matchVid: uint16, setVid: uint16, setPcp: uint8): set<Rule>
    requires matchVid <= VID_PRESENT && setVid <= VID_PRESENT
  {
    Installed(DEFAULTS, Encoded(NewCfg(accept, matchVid, setVid, setPcp)))
  }

  // ---- what the flow asks for ----

  function Retagged(f: Frame, pcp: nat, vid: nat, rest: seq<Tag>): Outcome {
    Forward(f.(tags := [Tag(TPID, pcp, vid)] + rest))
  }

  /** The intended effect. A priority 8 stands for "copy the priority", which is 0 for untagged frames. */
  function Wanted(accept: bool, matchVid: uint16, setVid: uint16, setPcp: uint8, f: Frame): Outcome {
    if setVid == VID_PRESENT || |f.tags| > 1 then Forward(f)
    else if accept then
      if matchVid == VID_PRESENT then
        if f.tags == [] then Retagged(f, if setPcp == 8 then 0 else setPcp, setVid, []) else Forward(f)
      else if f.tags != [] && f.tags[0].vid == matchVid then
        Retagged(f, if setPcp == 8 then f.tags[0].pcp else setPcp, setVid, [])
      else Forward(f)
    else
      if f.tags == [] then Retagged(f, 0, setVid, [])
      else if f.tags[0].vid == 0 then Retagged(f, f.tags[0].pcp, setVid, [])
      else Forward(f)
  }

  // ---- the installed tables ----

  lemma DecodedEntry(r: Rule)
    requires Writable(r) && r.treatOuterPrio == PRIO_DO_NOT_ADD
    ensures Decode(Encode(r)).rule == r.(treatInnerPrio := r.treatInnerPrio % 16)
  {
    DecodeEncode(r);
    hide Decode, Encode;
  }

  lemma InstalledOne(table: set<Rule>, e: seq<uint8>)
    requires |e| == 16
    ensures Installed(table, [e]) == Write(table, Decode(e).rule)
  {
    hide Decode, Write;
    assert [e][1..] == [];
  }

  lemma TransparentTable(accept: bool, matchVid: uint16, setPcp: uint8)
    requires matchVid <= VID_PRESENT
    ensures TableOf(accept, matchVid, VID_PRESENT, setPcp) == {KEEP_UNTAGGED, KEEP_DOUBLE, TRANSPARENT}
  {
    var c := NewCfg(accept, matchVid, VID_PRESENT, setPcp);
    EntriesWritable(c);
    DecodedEntry(TRANSPARENT);
    assert Encoded(c) == [Encode(TRANSPARENT)] by { hide Encode; }
    InstalledOne(DEFAULTS, Encode(TRANSPARENT));
    hide Decode, Encode;
    assert Write(DEFAULTS, TRANSPARENT) == {KEEP_UNTAGGED, KEEP_DOUBLE, TRANSPARENT};
  }

  /** An entry for tagged frames joins the three defaults; one for untagged frames replaces the first. */
  lemma WriteTranslation(r: Rule)
    requires r == Entry(r.filterInnerPrio, r.filterInnerVid, r.tagsToRemove, r.treatInnerPrio, r.treatInnerVid)
    requires r.filterInnerPrio == PRIO_ANY || (r.filterInnerPrio == PRIO_IGNORE_TAG && r.filterInnerVid == VID_ANY)
    ensures Write(DEFAULTS, r) ==
            if r.filterInnerPrio == PRIO_ANY then {KEEP_UNTAGGED, KEEP_SINGLE, KEEP_DOUBLE, r}
            else {KEEP_SINGLE, KEEP_DOUBLE, r}
  {
    assert SameFilter(KEEP_UNTAGGED, r) <==> r.filterInnerPrio == PRIO_IGNORE_TAG;
    assert !SameFilter(KEEP_SINGLE, r) && !SameFilter(KEEP_DOUBLE, r);
  }

  lemma TranslationTable(matchVid: uint16, setVid: uint16, setPcp: uint8)
    requires matchVid <= VID_PRESENT && setVid < VID_PRESENT
    ensures var c := NewCfg(true, matchVid, setVid, setPcp);
            var r := Entry(c.matchPcp, matchVid, c.tagsToRemove, c.setPcp % 16, setVid);
            TableOf(true, matchVid, setVid, setPcp) ==
            if matchVid == VID_PRESENT then {KEEP_SINGLE, KEEP_DOUBLE, r}
            else {KEEP_UNTAGGED, KEEP_SINGLE, KEEP_DOUBLE, r}
  {
    hide Decode, Encode, Write, DEFAULTS, KEEP_UNTAGGED, KEEP_SINGLE, KEEP_DOUBLE;
    var c := NewCfg(true, matchVid, setVid, setPcp);
    EntriesWritable(c);
    DecodedEntry(Translation(c));
    WriteTranslation(Entry(c.matchPcp, matchVid, c.tagsToRemove, c.setPcp % 16, setVid));
    assert Encoded(c) == [Encode(Translation(c))];
    InstalledOne(DEFAULTS, Encode(Translation(c)));
  }

  lemma StackingTable(matchVid: uint16, setVid: uint16, setPcp: uint8)
    requires matchVid <= VID_PRESENT && setVid < VID_PRESENT
    ensures TableOf(false, matchVid, setVid, setPcp) ==
            {KEEP_SINGLE, KEEP_DOUBLE, Entry(PRIO_IGNORE_TAG, VID_ANY, 0, 0, setVid),
             Entry(PRIO_ANY, 0, 1, COPY_FROM_INNER, setVid)}
  {
    var c := NewCfg(false, matchVid, setVid, setPcp);
    EntriesWritable(c);
    var a, b := StackUntagged(c), StackPrioTagged(c);
    DecodedEntry(a);
    DecodedEntry(b);
    WriteStacking(setVid);
    hide Decode, Encode, Write;
    assert Encoded(c) == [Encode(a), Encode(b)];
    assert [Encode(a), Encode(b)][1..] == [Encode(b)];
    InstalledOne(Write(DEFAULTS, a), Encode(b));
  }

  lemma WriteStacking(setVid: uint16)
    ensures var a, b := Entry(PRIO_IGNORE_TAG, VID_ANY, 0, 0, setVid), Entry(PRIO_ANY, 0, 1, COPY_FROM_INNER, setVid);
            Write(Write(DEFAULTS, a), b) == {KEEP_SINGLE, KEEP_DOUBLE, a, b}
  {
    var a, b := Entry(PRIO_IGNORE_TAG, VID_ANY, 0, 0, setVid), Entry(PRIO_ANY, 0, 1, COPY_FROM_INNER, setVid);
    assert Write(DEFAULTS, a) == {KEEP_SINGLE, KEEP_DOUBLE, a};
    assert Write({KEEP_SINGLE, KEEP_DOUBLE, a}, b) == {KEEP_SINGLE, KEEP_DOUBLE, a, b};
  }

  // ---- meaning ----

  /** Which frames an entry matches, and that only the transparent one is a default. */
  lemma EntryMatches(innerPrio: nat, innerVid: nat, remove: nat, prio: nat, vid: nat, f: Frame)
    ensures var r := Entry(innerPrio, innerVid, remove, prio, vid);
            && (IsDefault(r) <==> innerPrio == PRIO_DEFAULT)
            && (Matches(r, f) <==>
                  if f.tags == [] then innerPrio == PRIO_IGNORE_TAG
                  else |f.tags| == 1 && innerPrio != PRIO_IGNORE_TAG
                       && (innerPrio == PRIO_DEFAULT
                           || (PrioPasses(innerPrio, f.tags[0].pcp) && VidPasses(innerVid, f.tags[0].vid))))
  {
  }

  /** Transparent: every frame passes unchanged. */
  lemma TransparentMeaning(accept: bool, matchVid: uint16, setPcp: uint8, f: Frame)
    requires matchVid <= VID_PRESENT
    ensures Yields(TableOf(accept, matchVid, VID_PRESENT, setPcp), f, Forward(f))
  {
    TransparentTable(accept, matchVid, setPcp);
    KeepsKeep(f);
    EntryMatches(PRIO_DEFAULT, VID_ANY, 0, PRIO_DO_NOT_ADD, 0, f);
    TransparentKeeps(f);
    hide TableOf, Matches, IsDefault, Treat, Entry, Keep, Yields;
    var table := {KEEP_UNTAGGED, KEEP_DOUBLE, TRANSPARENT};
    Decides(table, f, if f.tags == [] then KEEP_UNTAGGED else if |f.tags| == 1 then TRANSPARENT else KEEP_DOUBLE);
  }

  lemma TransparentKeeps(f: Frame)
    ensures Treat(TRANSPARENT, f) == Forward(f)
  {
    assert f.tags[0..] == f.tags;
  }

  /** No frame is matched by both stacking entries. */
  lemma StackingDisjoint(c: Cfg, f: Frame)
    ensures !(Matches(StackUntagged(c), f) && Matches(StackPrioTagged(c), f))
  {
  }

  /** Stacking: untagged frames get the new VID at priority 0, frames of VID 0 get it at their own
      priority, all others pass; the VID and the priority the flow names play no part. */
  lemma StackingMeaning(matchVid: uint16, setVid: uint16, setPcp: uint8, f: Frame)
    requires matchVid <= VID_PRESENT && setVid < VID_PRESENT && ValidFrame(f)
    ensures Yields(TableOf(false, matchVid, setVid, setPcp), f, Wanted(false, matchVid, setVid, setPcp, f))
  {
    StackingTable(matchVid, setVid, setPcp);
    EntryMatches(PRIO_IGNORE_TAG, VID_ANY, 0, 0, setVid, f);
    EntryMatches(PRIO_ANY, 0, 1, COPY_FROM_INNER, setVid, f);
    StackingTreats(setVid, f);
    hide TableOf, Matches, IsDefault, Treat, Entry, Keep, Yields;
    StackingDecides(f, Entry(PRIO_IGNORE_TAG, VID_ANY, 0, 0, setVid), Entry(PRIO_ANY, 0, 1, COPY_FROM_INNER, setVid));
  }

  lemma StackingDecides(f: Frame, a: Rule, b: Rule)
    requires (Matches(a, f) <==> f.tags == []) && !IsDefault(a)
    requires (Matches(b, f) <==> |f.tags| == 1 && f.tags[0].vid == 0) && !IsDefault(b)
    ensures Yields({KEEP_SINGLE, KEEP_DOUBLE, a, b}, f,
                   if f.tags == [] then Treat(a, f)
                   else if |f.tags| == 1 && f.tags[0].vid == 0 then Treat(b, f) else Forward(f))
  {
    KeepsKeep(f);
    hide *;
    Decides({KEEP_SINGLE, KEEP_DOUBLE, a, b}, f,
            if f.tags == [] then a
            else if |f.tags| > 1 then KEEP_DOUBLE else if f.tags[0].vid == 0 then b else KEEP_SINGLE);
  }

  lemma StackingTreats(setVid: uint16, f: Frame)
    requires setVid < VID_PRESENT && ValidFrame(f)
    ensures f.tags == [] ==> Treat(Entry(PRIO_IGNORE_TAG, VID_ANY, 0, 0, setVid), f) == Retagged(f, 0, setVid, [])
    ensures |f.tags| == 1 ==>
              Treat(Entry(PRIO_ANY, 0, 1, COPY_FROM_INNER, setVid), f) == Retagged(f, f.tags[0].pcp, setVid, [])
  {
    if f.tags == [] { assert f.tags[0..] == []; } else if |f.tags| == 1 { assert f.tags[1..] == []; }
  }

  /** What translation does with any priority octet, for one frame. */
  lemma TranslationOf(matchVid: uint16, setVid: uint16, setPcp: uint8, f: Frame)
    requires matchVid <= VID_PRESENT && setVid < VID_PRESENT && ValidFrame(f)
    ensures var c := NewCfg(true, matchVid, setVid, setPcp);
            var r := Entry(c.matchPcp, matchVid, c.tagsToRemove, c.setPcp % 16, setVid);
            Yields(TableOf(true, matchVid, setVid, setPcp), f, if Matches(r, f) then Treat(r, f) else Forward(f))
  {
    TranslationTable(matchVid, setVid, setPcp);
    var c := NewCfg(true, matchVid, setVid, setPcp);
    var r := Entry(c.matchPcp, matchVid, c.tagsToRemove, c.setPcp % 16, setVid);
    EntryMatches(c.matchPcp, matchVid, c.tagsToRemove, c.setPcp % 16, setVid, f);
    hide TableOf, Matches, IsDefault, Treat, Entry, Keep, Yields;
    if matchVid == VID_PRESENT { ReplacesUntagged(f, r); } else { AddsSingleTagged(f, r); }
  }

  lemma ReplacesUntagged(f: Frame, r: Rule)
    requires (Matches(r, f) <==> f.tags == []) && !IsDefault(r)
    ensures Yields({KEEP_SINGLE, KEEP_DOUBLE, r}, f, if Matches(r, f) then Treat(r, f) else Forward(f))
  {
    KeepsKeep(f);
    hide *;
    Decides({KEEP_SINGLE, KEEP_DOUBLE, r}, f,
            if f.tags == [] then r else if |f.tags| == 1 then KEEP_SINGLE else KEEP_DOUBLE);
  }

  lemma AddsSingleTagged(f: Frame, r: Rule)
    requires (Matches(r, f) ==> |f.tags| == 1) && !IsDefault(r)
    ensures Yields({KEEP_UNTAGGED, KEEP_SINGLE, KEEP_DOUBLE, r}, f, if Matches(r, f) then Treat(r, f) else Forward(f))
  {
    KeepsKeep(f);
    hide *;
    Decides({KEEP_UNTAGGED, KEEP_SINGLE, KEEP_DOUBLE, r}, f,
            if f.tags == [] then KEEP_UNTAGGED
            else if |f.tags| > 1 then KEEP_DOUBLE else if Matches(r, f) then r else KEEP_SINGLE);
  }

  /** A frame the flow is about. */
  function Sample(matchVid: uint16): Frame {
    if matchVid == VID_PRESENT then Frame([], 0) else Frame([Tag(TPID, 0, matchVid)], 0)
  }

  /** Translation does exactly what the flow asks of every frame if and only if its priority octet is
      at most 8: nothing in the compiler masks it to the three bits of a priority. */
  lemma TranslationMeaning(matchVid: uint16, setVid: uint16, setPcp: uint8)
    requires matchVid <= VID_PRESENT && setVid < VID_PRESENT
    ensures (forall f | ValidFrame(f) ::
               Yields(TableOf(true, matchVid, setVid, setPcp), f, Wanted(true, matchVid, setVid, setPcp, f)))
            <==> setPcp <= 8
  {
    hide TableOf, Yields;
    var table := TableOf(true, matchVid, setVid, setPcp);
    if setPcp <= 8 {
      forall f | ValidFrame(f) ensures Yields(table, f, Wanted(true, matchVid, setVid, setPcp, f)) {
        TranslationOf(matchVid, setVid, setPcp, f);
        TranslatesAsWanted(matchVid, setVid, setPcp, f);
      }
    } else {
      var f := Sample(matchVid);
      TranslationOf(matchVid, setVid, setPcp, f);
      OversizedPriority(matchVid, setVid, setPcp);
      var c := NewCfg(true, matchVid, setVid, setPcp);
      var r := Entry(c.matchPcp, matchVid, c.tagsToRemove, c.setPcp % 16, setVid);
      if Yields(table, f, Wanted(true, matchVid, setVid, setPcp, f)) {
        YieldsOnce(table, f, Wanted(true, matchVid, setVid, setPcp, f), Treat(r, f));
      }
    }
  }

  lemma TranslatesAsWanted(matchVid: uint16, setVid: uint16, setPcp: uint8, f: Frame)
    requires matchVid <= VID_PRESENT && setVid < VID_PRESENT && ValidFrame(f) && setPcp <= 8
    ensures var c := NewCfg(true, matchVid, setVid, setPcp);
            var r := Entry(c.matchPcp, matchVid, c.tagsToRemove, c.setPcp % 16, setVid);
            (if Matches(r, f) then Treat(r, f) else Forward(f)) == Wanted(true, matchVid, setVid, setPcp, f)
  {
  }

  lemma OversizedPriority(matchVid: uint16, setVid: uint16, setPcp: uint8)
    requires matchVid <= VID_PRESENT && setVid < VID_PRESENT && setPcp > 8
    ensures var c := NewCfg(true, matchVid, setVid, setPcp);
            var r := Entry(c.matchPcp, matchVid, c.tagsToRemove, c.setPcp % 16, setVid);
            var f := Sample(matchVid);
            ValidFrame(f) && Matches(r, f) && Treat(r, f) != Wanted(true, matchVid, setVid, setPcp, f)
  {
    var c := NewCfg(true, matchVid, setVid, setPcp);
    var f := Sample(matchVid);
    var t := Treat(Entry(c.matchPcp, matchVid, c.tagsToRemove, c.setPcp % 16, setVid), f);
    var w := Wanted(true, matchVid, setVid, setPcp, f);
    assert w.frame.tags[0].pcp == setPcp;
    if t.Forward? && t.frame.tags != [] { assert t.frame.tags[0].pcp < 8; }
  }

  /** A priority octet of 15 is the code for "add no tag": the matched frames lose their tag. */
  lemma Priority15DropsTheTag(matchVid: uint16, setVid: uint16, f: Frame)
    requires matchVid < VID_PRESENT && setVid < VID_PRESENT
    requires ValidFrame(f) && |f.tags| == 1 && f.tags[0].vid == matchVid
    ensures Yields(TableOf(true, matchVid, setVid, 15), f, Forward(f.(tags := [])))
  {
    hide TableOf, Yields;
    TranslationOf(matchVid, setVid, 15, f);
    assert f.tags[1..] == [];
  }

  // ---- from the flow to the frames ----

  /** The installed table does to every frame what the flow asks for. */
  ghost predicate Meant(accept: bool, matchVid: uint16, setVid: uint16, setPcp: uint8)
    requires matchVid <= VID_PRESENT && setVid <= VID_PRESENT
  {
    forall f | ValidFrame(f) ::
      Yields(TableOf(accept, matchVid, setVid, setPcp), f, Wanted(accept, matchVid, setVid, setPcp, f))
  }

  /** Whatever flow is accepted: the table the ONU ends up with does to every frame what the flow
      asks for, unless a translation is asked for with a priority above 8. */
  lemma FlowCompilation(flow: Flow, accept: bool)
    requires Decide(flow, false).Configure?
    ensures var d := Decide(flow, false);
            && d.matchVid <= VID_PRESENT && d.setVid <= VID_PRESENT
            && (Meant(accept, d.matchVid, d.setVid, d.setPcp)
                <==> (accept && d.setVid != VID_PRESENT ==> SetPcp(flow.actions) <= 8))
  {
    AcceptedRanges(flow, false);
    var d := Decide(flow, false);
    hide TableOf, Yields, Decide;
    if d.setVid != VID_PRESENT && accept {
      TranslationMeaning(d.matchVid, d.setVid, d.setPcp);
    } else {
      forall f | ValidFrame(f)
        ensures Yields(TableOf(accept, d.matchVid, d.setVid, d.setPcp), f,
                       Wanted(accept, d.matchVid, d.setVid, d.setPcp, f))
      {
        if d.setVid == VID_PRESENT {
          TransparentMeaning(accept, d.matchVid, d.setPcp, f);
        } else {
          StackingMeaning(d.matchVid, d.setVid, d.setPcp, f);
        }
      }
    }
  }

  ghost predicate Lossless(c: Cfg)
    requires InRange(c)
  {
    EntriesWritable(c);
    forall r | r in Entries(c) :: Decode(Encode(r)) == Decoded(r, [0, 0, 0, 0])
  }

  lemma PackingIff(c: Cfg)
    requires InRange(c)
    ensures Lossless(c) <==> (c.accept && c.setVid != VID_PRESENT ==> c.setPcp < 16)
  {
    EntriesWritable(c);
    forall r | r in Entries(c)
      ensures Writable(r) && (Decode(Encode(r)) == Decoded(r, [0, 0, 0, 0]) <==> r.treatInnerPrio < 16)
    {
      LosslessIff(r);
    }
    hide Decode, Encode, Writable;
    if c.accept && c.setVid != VID_PRESENT { assert Translation(c) in Entries(c); }
  }

  /** Packing an accepted flow loses nothing exactly when no oversized priority is written. */
  lemma FlowPacking(flow: Flow, accept: bool)
    requires Decide(flow, false).Configure?
    ensures var d := Decide(flow, false);
            var c := NewCfg(accept, d.matchVid, d.setVid, d.setPcp);
            && InRange(c) && (Lossless(c) <==> (accept && d.setVid != VID_PRESENT ==> d.setPcp < 16))
  {
    AcceptedRanges(flow, false);
    var d := Decide(flow, false);
    hide Decide, Lossless;
    PackingIff(NewCfg(accept, d.matchVid, d.setVid, d.setPcp));
  }
}
