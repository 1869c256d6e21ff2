/** Scheduling policies of the upstream queues: performSettingPQs collects them in an ordered map. */
module AniPolicy {
  import opened Types
  import opened AniTables

  /** The ordered map: iteration follows first insertion; setting a key again keeps its place. */
  type OrderedMap = seq<(uint16, uint16)>

  function Queues(m: OrderedMap): seq<uint16> { seq(|m|, i requires 0 <= i < |m| => m[i].0) }

  predicate HasKey(m: OrderedMap, q: uint16) { exists i :: 0 <= i < |m| && m[i].0 == q }

  function SetKey(m: OrderedMap, q: uint16, w: uint16): OrderedMap {
    if m == [] then [(q, w)]
    else if m[0].0 == q then [(q, w)] + m[1..]
    else [m[0]] + SetKey(m[1..], q, w)
  }

  lemma {:induction false} SetKeyEffect(m: OrderedMap, q: uint16, w: uint16)
    requires Distinct(Queues(m))
    ensures !HasKey(m, q) ==> SetKey(m, q, w) == m + [(q, w)]
    ensures HasKey(m, q) ==> |SetKey(m, q, w)| == |m|
    ensures HasKey(m, q) ==> forall i | 0 <= i < |m| :: SetKey(m, q, w)[i] == if m[i].0 == q then (q, w) else m[i]
  {
    if m != [] {
      assert forall i | 0 <= i < |m| :: Queues(m)[i] == m[i].0;
      if m[0].0 != q {
        Tail(m, q);
        assert Queues(m)[1..] == Queues(m[1..]);
        SetKeyEffect(m[1..], q, w);
      }
    }
  }

  lemma Tail(m: OrderedMap, q: uint16)
    requires m != [] && m[0].0 != q
    ensures HasKey(m, q) <==> HasKey(m[1..], q)
  {
    if HasKey(m, q) {
      var i :| 0 <= i < |m| && m[i].0 == q;
      assert m[1..][i - 1].0 == q;
    }
  }

  const STRICT: uint16 := 0xFFFF

  /** What one gem port wants for queue q: weighted ones their weight, the others strict priority. */
  function Wish(q: uint16, weighted: bool): GemAttribs -> Option<uint16> {
    (g: GemAttribs) =>
      if g.upQueueID == q && (g.qosPolicy == "WRR") == weighted
      then Some(if weighted then g.weight else STRICT) else None
  }

  /** Strict priority wins wherever it stands, otherwise the first weight counts. */
  function Policy(gems: seq<GemAttribs>, q: uint16): Option<uint16> {
    if First(gems, Wish(q, false)).Some? then Some(STRICT) else First(gems, Wish(q, true))
  }

  lemma PolicySnoc(gems: seq<GemAttribs>, g: GemAttribs, q: uint16)
    ensures Policy(gems + [g], q) ==
            if g.upQueueID != q then Policy(gems, q)
            else if g.qosPolicy != "WRR" then Some(STRICT)
            else if Policy(gems, q).Some? then Policy(gems, q) else Some(g.weight)
  {
    FirstSnoc(gems, g, Wish(q, false));
    FirstSnoc(gems, g, Wish(q, true));
  }

  /** The upstream queues in the order in which the gem ports first mention them. */
  function Mentioned(gems: seq<GemAttribs>): seq<uint16>
    decreases |gems|
  {
    if gems == [] then []
    else
      var before, q := Mentioned(gems[..|gems| - 1]), gems[|gems| - 1].upQueueID;
      if q in before then before else before + [q]
  }

  lemma {:induction false} MentionedOnce(gems: seq<GemAttribs>)
    ensures Distinct(Mentioned(gems))
    ensures forall q :: q in Mentioned(gems) <==> exists j :: 0 <= j < |gems| && gems[j].upQueueID == q
    decreases |gems|
  {
    if gems != [] {
      var front := gems[..|gems| - 1];
      MentionedOnce(front);
      forall q ensures q in Mentioned(gems) <==> exists j :: 0 <= j < |gems| && gems[j].upQueueID == q {
        if j :| 0 <= j < |gems| && gems[j].upQueueID == q {
          assert j < |front| ==> front[j] == gems[j];
        }
        if q in Mentioned(front) {
          var j :| 0 <= j < |front| && front[j].upQueueID == q;
          assert gems[j].upQueueID == q;
        }
      }
    }
  }

  predicate FirstMention(gems: seq<GemAttribs>, q: uint16, n: nat) {
    n < |gems| && gems[n].upQueueID == q && forall k | 0 <= k < n :: gems[k].upQueueID != q
  }

  /** The list follows the order of first mention. */
  lemma {:induction false} MentionedInOrder(gems: seq<GemAttribs>, a: nat, b: nat)
    requires a < b < |Mentioned(gems)|
    ensures exists i: nat, j: nat ::
              i < j && FirstMention(gems, Mentioned(gems)[a], i) && FirstMention(gems, Mentioned(gems)[b], j)
    decreases |gems|
  {
    var front, n := gems[..|gems| - 1], |gems| - 1;
    var before, last := Mentioned(front), gems[n].upQueueID;
    assert Mentioned(gems) == if last in before then before else before + [last];
    hide Mentioned;
    if b < |before| {
      MentionedInOrder(front, a, b);
      var i: nat, j: nat :| i < j && FirstMention(front, before[a], i) && FirstMention(front, before[b], j);
      MentionStays(gems, before[a], i);
      MentionStays(gems, before[b], j);
      assert Mentioned(gems)[a] == before[a] && Mentioned(gems)[b] == before[b];
      assert FirstMention(gems, Mentioned(gems)[a], i) && FirstMention(gems, Mentioned(gems)[b], j);
    } else {
      MentionedOnce(front);
      assert before[a] in before && last !in before;
      var i :| 0 <= i < |front| && front[i].upQueueID == before[a];
      var first := FirstFound(front, before[a], i);
      MentionStays(gems, before[a], first);
      forall k | 0 <= k < n ensures gems[k].upQueueID != last { assert front[k] == gems[k]; }
      assert Mentioned(gems)[a] == before[a] && Mentioned(gems)[b] == last;
      assert FirstMention(gems, Mentioned(gems)[a], first) && FirstMention(gems, Mentioned(gems)[b], n);
    }
  }

  lemma MentionStays(gems: seq<GemAttribs>, q: uint16, n: nat)
    requires gems != [] && FirstMention(gems[..|gems| - 1], q, n)
    ensures FirstMention(gems, q, n) && n < |gems| - 1
  {
    assert forall k | 0 <= k < |gems| - 1 :: gems[..|gems| - 1][k] == gems[k];
  }

  lemma {:induction false} FirstFound(gems: seq<GemAttribs>, q: uint16, i: nat) returns (n: nat)
    requires i < |gems| && gems[i].upQueueID == q
    ensures FirstMention(gems, q, n)
    decreases i
  {
    if k: nat :| k < i && gems[k].upQueueID == q { n := FirstFound(gems, q, k); } else { n := i; }
  }

  ghost predicate Policed(gems: seq<GemAttribs>, m: OrderedMap) {
    && Queues(m) == Mentioned(gems)
    && forall i | 0 <= i < |m| :: Some(m[i].1) == Policy(gems, m[i].0)
  }

  lemma Get(gems: seq<GemAttribs>, m: OrderedMap, q: uint16)
    requires Queues(m) == Mentioned(gems)
    ensures HasKey(m, q) <==> q in Mentioned(gems)
  {
    if HasKey(m, q) {
      var i :| 0 <= i < |m| && m[i].0 == q;
      assert Queues(m)[i] == q;
    }
    if q in Queues(m) {
      var i :| 0 <= i < |Queues(m)| && Queues(m)[i] == q;
      assert m[i].0 == q;
    }
  }

  lemma Kept(gems: seq<GemAttribs>, g: GemAttribs, m: OrderedMap)
    requires Policed(gems, m) && g.qosPolicy == "WRR" && HasKey(m, g.upQueueID)
    ensures Policed(gems + [g], m)
  {
    Get(gems, m, g.upQueueID);
    assert (gems + [g])[..|gems|] == gems;
    forall i | 0 <= i < |m| ensures Some(m[i].1) == Policy(gems + [g], m[i].0) {
      PolicySnoc(gems, g, m[i].0);
    }
  }

  lemma Replaced(gems: seq<GemAttribs>, g: GemAttribs, m: OrderedMap, w: uint16)
    requires Policed(gems, m) && (g.qosPolicy == "WRR" ==> !HasKey(m, g.upQueueID) && w == g.weight)
    requires g.qosPolicy != "WRR" ==> w == STRICT
    ensures Policed(gems + [g], SetKey(m, g.upQueueID, w))
  {
    var q, r := g.upQueueID, SetKey(m, g.upQueueID, w);
    Get(gems, m, q);
    MentionedOnce(gems);
    SetKeyEffect(m, q, w);
    hide SetKey;
    assert (gems + [g])[..|gems|] == gems;
    assert Queues(r) == Mentioned(gems + [g]);
    NoWish(gems, q);
    hide Mentioned;
    forall i | 0 <= i < |r| ensures Some(r[i].1) == Policy(gems + [g], r[i].0) {
      PolicySnoc(gems, g, r[i].0);
    }
  }

  lemma NoWish(gems: seq<GemAttribs>, q: uint16)
    ensures Policy(gems, q).Some? <==> q in Mentioned(gems)
  {
    FirstMeaning(gems, Wish(q, false));
    FirstMeaning(gems, Wish(q, true));
    MentionedOnce(gems);
    hide First, Mentioned;
    if j :| 0 <= j < |gems| && gems[j].upQueueID == q {
      assert Wish(q, false)(gems[j]).Some? || Wish(q, true)(gems[j]).Some?;
    }
  }

  /** The first loop of performSettingPQs: every upstream queue once, in order of first mention. */
  method CollectPolicies(gems: seq<GemAttribs>) returns (m: OrderedMap)
    ensures Queues(m) == Mentioned(gems)
    ensures forall i | 0 <= i < |m| :: Some(m[i].1) == Policy(gems, m[i].0)
  {
    m := [];
    var n := 0;
    while n < |gems|
      invariant 0 <= n <= |gems|
      invariant Policed(gems[..n], m)
    {
      var g := gems[n];
      assert gems[..n + 1] == gems[..n] + [g];
      if g.qosPolicy == "WRR" {
        if !HasKey(m, g.upQueueID) {
          Replaced(gems[..n], g, m, g.weight);
          m := SetKey(m, g.upQueueID, g.weight);
        } else {
          Kept(gems[..n], g, m);
        }
      } else {
        Replaced(gems[..n], g, m, STRICT);
        m := SetKey(m, g.upQueueID, STRICT);
      }
      n := n + 1;
    }
    assert gems[..n] == gems;
  }

  predicate OnQueue(g: GemAttribs, q: uint16, weighted: bool) { g.upQueueID == q && (g.qosPolicy == "WRR") == weighted }

  /** The marker is read back as strict priority exactly for the queues with a gem port that is not
      weighted, because no 8-bit weight equals it; the other queues get the first weight. */
  lemma PolicyMeaning(gems: seq<GemAttribs>, q: uint16)
    requires exists g :: g in gems && g.upQueueID == q
    ensures Policy(gems, q).Some?
    ensures Policy(gems, q).value == STRICT <==> exists g :: g in gems && OnQueue(g, q, false)
    ensures Policy(gems, q).value != STRICT ==>
              exists j :: 0 <= j < |gems| && OnQueue(gems[j], q, true) && Policy(gems, q).value == gems[j].weight
                          && forall k | 0 <= k < j :: !OnQueue(gems[k], q, true)
  {
    var sp, wrr := Wish(q, false), Wish(q, true);
    FirstMeaning(gems, sp);
    FirstMeaning(gems, wrr);
    hide First;
    var g :| g in gems && g.upQueueID == q;
    assert sp(g).Some? || wrr(g).Some?;
    if First(gems, sp).Some? {
      var j: nat :| FirstAt(gems, sp, j);
      assert OnQueue(gems[j], q, false);
    } else {
      assert First(gems, wrr).Some?;
      var j: nat :| FirstAt(gems, wrr, j);
      assert OnQueue(gems[j], q, true);
      assert forall k | 0 <= k < j :: wrr(gems[k]).None?;
      forall h | h in gems ensures !OnQueue(h, q, false) { assert sp(h).None?; }
    }
  }
}
