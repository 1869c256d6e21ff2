/** What a received frame VLAN tagging operation table does to upstream frames, after clause 9.3.13 of
    ITU-T G.988. Drop eligibility bits, EtherType filters and DSCP mapping are not modelled. */
module EvtocdMeaning {
  import opened Types
  import opened EvtocdRules

  datatype Tag = Tag(tpid: nat, pcp: nat, vid: nat)
  datatype Frame = Frame(tags: seq<Tag>, payload: nat)  // outermost tag first
  datatype Outcome = Forward(frame: Frame) | Discard | Unspecified

  predicate ValidFrame(f: Frame) { forall i | 0 <= i < |f.tags| :: f.tags[i].pcp < 8 && f.tags[i].vid < 4096 }

  const TPID: nat := 0x8100  // the value of InputTpid and OutputTpid, too

  const PRIO_IGNORE_TAG := 15
  const PRIO_DEFAULT := 14
  const PRIO_ANY := 8
  const PRIO_DO_NOT_ADD := 15
  const COPY_FROM_INNER := 8
  const VID_ANY := 4096

  // ---- filtering ----

  predicate PrioPasses(code: nat, pcp: nat) { code == PRIO_ANY || code == pcp }

  predicate VidPasses(code: nat, vid: nat) { code == VID_ANY || code == vid }

  predicate TpidPasses(code: nat, tpid: nat) { code == 0 || (code == 4 && tpid == TPID) }

  predicate TagPasses(prio: nat, vid: nat, tpid: nat, t: Tag) {
    PrioPasses(prio, t.pcp) && VidPasses(vid, t.vid) && TpidPasses(tpid, t.tpid)
  }

  /** A filter outer priority of 15 makes an entry apply to frames with at most one tag, a filter
      inner priority of 15 to untagged ones; 14 marks the default entries. */
  predicate Matches(r: Rule, f: Frame) {
    r.filterEtherType == 0 &&
    if f.tags == [] then r.filterOuterPrio == PRIO_IGNORE_TAG && r.filterInnerPrio == PRIO_IGNORE_TAG
    else if |f.tags| == 1 then
      && r.filterOuterPrio == PRIO_IGNORE_TAG && r.filterInnerPrio != PRIO_IGNORE_TAG
      && (IsDefault(r) || TagPasses(r.filterInnerPrio, r.filterInnerVid, r.filterInnerTpid, f.tags[0]))
    else
      && r.filterOuterPrio != PRIO_IGNORE_TAG
      && (IsDefault(r)
          || (TagPasses(r.filterOuterPrio, r.filterOuterVid, r.filterOuterTpid, f.tags[0])
              && TagPasses(r.filterInnerPrio, r.filterInnerVid, r.filterInnerTpid, f.tags[1])))
  }

  predicate IsDefault(r: Rule) {
    if r.filterOuterPrio == PRIO_IGNORE_TAG then r.filterInnerPrio == PRIO_DEFAULT
    else r.filterOuterPrio == PRIO_DEFAULT
  }

  /** A default entry applies only if no other entry does. */
  ghost predicate Applies(table: set<Rule>, f: Frame, r: Rule) {
    r in table && Matches(r, f) && (IsDefault(r) ==> forall q | q in table && Matches(q, f) :: IsDefault(q))
  }

  // ---- treatment ----

  function Inner(f: Frame): Option<Tag> {
    if f.tags == [] then None else if |f.tags| == 1 then Some(f.tags[0]) else Some(f.tags[1])
  }

  function Outer(f: Frame): Option<Tag> { if f.tags == [] then None else Some(f.tags[0]) }

  function Pcp(t: Option<Tag>): Option<nat> { if t.Some? then Some(t.value.pcp) else None }

  function Vid(t: Option<Tag>): Option<nat> { if t.Some? then Some(t.value.vid) else None }

  function NewPcp(code: nat, f: Frame): Option<nat> {
    if code < 8 then Some(code) else if code == 8 then Pcp(Inner(f)) else if code == 9 then Pcp(Outer(f)) else None
  }

  function NewVid(code: nat, f: Frame): Option<nat> {
    if code < 4096 then Some(code)
    else if code == 4096 then Vid(Inner(f))
    else if code == 4097 then Vid(Outer(f)) else None
  }

  function NewTpid(code: nat, f: Frame): Option<nat> {
    match code
    case 0 => if Inner(f).Some? then Some(Inner(f).value.tpid) else None
    case 1 => if Outer(f).Some? then Some(Outer(f).value.tpid) else None
    case 5 => None
    case _ => Some(TPID)
  }

  /** Push a tag in front of tags unless the priority code says not to. */
  function Push(prio: nat, vid: nat, tpid: nat, f: Frame, tags: seq<Tag>): Option<seq<Tag>> {
    if prio == PRIO_DO_NOT_ADD then Some(tags)
    else if NewPcp(prio, f).None? || NewVid(vid, f).None? || NewTpid(tpid, f).None? then None
    else Some([Tag(NewTpid(tpid, f).value, NewPcp(prio, f).value, NewVid(vid, f).value)] + tags)
  }

  function Treat(r: Rule, f: Frame): Outcome {
    if r.tagsToRemove == 3 then Discard
    else if r.tagsToRemove > |f.tags| then Unspecified
    else
      var inner := Push(r.treatInnerPrio, r.treatInnerVid, r.treatInnerTpid, f, f.tags[r.tagsToRemove..]);
      if inner.None? then Unspecified
      else
        var outer := Push(r.treatOuterPrio, r.treatOuterVid, r.treatOuterTpid, f, inner.value);
        if outer.None? then Unspecified else Forward(f.(tags := outer.value))
  }

  /** The table leaves no choice about frame f: some entry applies and all that apply agree. */
  ghost predicate Yields(table: set<Rule>, f: Frame, out: Outcome) {
    (exists r :: Applies(table, f, r)) && forall r | Applies(table, f, r) :: Treat(r, f) == out
  }

  // ---- the table ----

  predicate SameFilter(a: Rule, b: Rule) {
    && a.filterOuterPrio == b.filterOuterPrio && a.filterOuterVid == b.filterOuterVid
    && a.filterOuterTpid == b.filterOuterTpid
    && a.filterInnerPrio == b.filterInnerPrio && a.filterInnerVid == b.filterInnerVid
    && a.filterInnerTpid == b.filterInnerTpid
    && a.filterEtherType == b.filterEtherType
  }

  /** The first eight octets are the key: writing an entry replaces the one with the same filter. */
  function Write(table: set<Rule>, r: Rule): set<Rule> { (set q | q in table && !SameFilter(q, r)) + {r} }

  function Keep(filterOuterPrio: nat, filterInnerPrio: nat): Rule {
    Rule(filterOuterPrio, VID_ANY, 0, filterInnerPrio, VID_ANY, 0, 0, 0, PRIO_DO_NOT_ADD, 0, 0, PRIO_DO_NOT_ADD, 0, 0)
  }

  const KEEP_UNTAGGED := Keep(PRIO_IGNORE_TAG, PRIO_IGNORE_TAG)
  const KEEP_SINGLE := Keep(PRIO_IGNORE_TAG, PRIO_DEFAULT)
  const KEEP_DOUBLE := Keep(PRIO_DEFAULT, PRIO_DEFAULT)

  /** The three entries every instance is created with: all frames pass unmodified. */
  const DEFAULTS: set<Rule> := {KEEP_UNTAGGED, KEEP_SINGLE, KEEP_DOUBLE}

  /** An entry decides about a frame if every other matching entry is a default and it is not. */
  lemma Decides(table: set<Rule>, f: Frame, r: Rule)
    requires r in table && Matches(r, f)
    requires forall q | q in table && q != r && Matches(q, f) :: IsDefault(q) && !IsDefault(r)
    ensures Yields(table, f, Treat(r, f))
  {
    hide Matches, IsDefault, Treat;
    assert Applies(table, f, r);
  }

  lemma YieldsOnce(table: set<Rule>, f: Frame, a: Outcome, b: Outcome)
    requires Yields(table, f, a) && Yields(table, f, b)
    ensures a == b
  {
  }

  lemma KeepKeeps(outer: nat, inner: nat, f: Frame)
    ensures Treat(Keep(outer, inner), f) == Forward(f)
    ensures outer == PRIO_IGNORE_TAG && inner == PRIO_IGNORE_TAG ==> (Matches(Keep(outer, inner), f) <==> f.tags == [])
    ensures outer == PRIO_IGNORE_TAG && inner == PRIO_DEFAULT ==>
              (Matches(Keep(outer, inner), f) <==> |f.tags| == 1) && IsDefault(Keep(outer, inner))
    ensures outer == PRIO_DEFAULT ==>
              (Matches(Keep(outer, inner), f) <==> |f.tags| > 1) && IsDefault(Keep(outer, inner))
  {
    assert f.tags[0..] == f.tags;
  }

  /** Each default is for one kind of frames. */
  lemma KeepsKeep(f: Frame)
    ensures (Matches(KEEP_UNTAGGED, f) <==> f.tags == []) && Treat(KEEP_UNTAGGED, f) == Forward(f)
    ensures (Matches(KEEP_SINGLE, f) <==> |f.tags| == 1) && Treat(KEEP_SINGLE, f) == Forward(f)
    ensures (Matches(KEEP_DOUBLE, f) <==> |f.tags| > 1) && Treat(KEEP_DOUBLE, f) == Forward(f)
    ensures IsDefault(KEEP_SINGLE) && IsDefault(KEEP_DOUBLE)
  {
    hide Matches, Treat, IsDefault;
    KeepKeeps(PRIO_IGNORE_TAG, PRIO_IGNORE_TAG, f);
    KeepKeeps(PRIO_IGNORE_TAG, PRIO_DEFAULT, f);
    KeepKeeps(PRIO_DEFAULT, PRIO_DEFAULT, f);
  }

  /** A table nothing was written to passes every frame. */
  lemma DefaultsKeepFrames(f: Frame)
    ensures Yields(DEFAULTS, f, Forward(f))
  {
    KeepsKeep(f);
    hide Matches, Treat, IsDefault, KEEP_UNTAGGED, KEEP_SINGLE, KEEP_DOUBLE;
    Decides(DEFAULTS, f, if f.tags == [] then KEEP_UNTAGGED else if |f.tags| == 1 then KEEP_SINGLE else KEEP_DOUBLE);
  }
}
