/** The fast path refines the slow one: an ONU whose data base comes from a template is configured
    like one that uploaded its MIB, although its numbers are float64. */
module TemplateRefines {
  import opened Types
  import opened MeDb
  import opened TemplateText
  import opened MibTemplate
  import opened TemplateRoundTrip
  import opened QueueLookup
  import opened TechProfile
  import opened AniTables

  /** getUint32Attrib cannot tell a reread value from the original exactly when numbers are stored
      as uint32: other widths are refused before and accepted after the round trip. */
  lemma Uint32Agrees(v: Value, serial: string, mac: string)
    ensures Uint32Attrib(Reread(v, serial, mac)) == Uint32Attrib(v) <==> Is32(v)
  {
    if v.Uint? {
      assert Reread(v, serial, mac) == Float(Float64(v.n));
      if v.n < 0x1_0000_0000 {
        ExactBelowTwo53(v.n);
        assert (v.n as real).Floor == v.n;
      }
    }
    hide Float64, Base64, Specialize;
  }

  /** RelatedPort of every priority queue is a uint32, as the OMCI library decodes it. */
  predicate Stored32(db: Db) {
    forall q | q in Insts(db, PRIORITY_QUEUE) && "RelatedPort" in db[PRIORITY_QUEUE][q] ::
      Is32(db[PRIORITY_QUEUE][q]["RelatedPort"])
  }

  predicate Is32(v: Value) { v.Uint? ==> v.bits == 32 && v.n < 0x1_0000_0000 }

  lemma SameInstances(db: Db, serial: string, mac: string, c: uint16)
    requires c in SUPPORTED
    ensures Insts(Expected(db, serial, mac), c).Keys == Insts(WithPlaceholders(db), c).Keys == Insts(db, c).Keys
  {
    hide RereadAll, Own;
  }

  lemma QueueAttrs(db: Db, serial: string, mac: string, q: uint16)
    requires q in Insts(db, PRIORITY_QUEUE)
    ensures Lookup(Expected(db, serial, mac), PRIORITY_QUEUE, q) == Some(RereadAll(db[PRIORITY_QUEUE][q], serial, mac))
    ensures Lookup(WithPlaceholders(db), PRIORITY_QUEUE, q) == Some(db[PRIORITY_QUEUE][q])
  {
    assert Own(PRIORITY_QUEUE, serial, mac) == map[] && Placeholder(PRIORITY_QUEUE) == map[];
    assert db[PRIORITY_QUEUE][q] + map[] == db[PRIORITY_QUEUE][q];
    assert RereadAll(db[PRIORITY_QUEUE][q], serial, mac) + map[] == RereadAll(db[PRIORITY_QUEUE][q], serial, mac);
    hide RereadAll, Own, Placeholder;
  }

  lemma SameRelatedPort(db: Db, serial: string, mac: string, q: uint16)
    requires Stored32(db) && q in Insts(db, PRIORITY_QUEUE)
    ensures RelatedPort(Expected(db, serial, mac), q) == RelatedPort(WithPlaceholders(db), q)
  {
    QueueAttrs(db, serial, mac, q);
    var attrs := db[PRIORITY_QUEUE][q];
    if "RelatedPort" in attrs { Uint32Agrees(attrs["RelatedPort"], serial, mac); }
    hide Expected, WithPlaceholders, Lookup, Reread, Uint32Attrib;
  }

  lemma {:induction false} SameScan(a: Db, b: Db, us: uint32, ds: uint32, pick: Pick, keys: seq<uint16>)
    requires forall q | q in keys :: RelatedPort(a, q) == RelatedPort(b, q)
    ensures Scan(a, us, ds, pick, keys) == Scan(b, us, ds, pick, keys)
    decreases |keys|
  {
    hide RelatedPort;
    if keys != [] {
      assert keys[0] in keys && forall q | q in keys[1..] :: q in keys;
      SameScan(a, b, us, ds, Visit(a, us, ds, pick, keys[0]), keys[1..]);
    }
  }

  lemma {:induction false} SameCollected(m: Mib, other: Db, gems: seq<GemPort>)
    requires forall q | q in m.keys :: RelatedPort(m.db, q) == RelatedPort(other, q)
    ensures Collected(m, gems) == Collected(m.(db := other), gems)
    decreases |gems|
  {
    hide RelatedPort, Scan;
    if gems != [] {
      var g := gems[|gems| - 1];
      SameCollected(m, other, gems[..|gems| - 1]);
      SameScan(m.db, other, Us(m, g), Ds(m, g), Pick(None, None), m.keys);
    }
  }

  /** For every uploaded MIB: whatever template was created from it and however it is loaded, the ONU
      sees the same UNI-G, VEIP, T-Cont and queue instances in the same order, and every gem port
      list ends up with the same queue pointers as after an upload. */
  lemma TemplateRefinesUpload(
    db: Db, name: string, created: string, serial: string, mac: string, order: seq<Path>, loaded: Db,
    c: uint16, slow: seq<uint16>, fast: seq<uint16>,
    queues: seq<uint16>, tcont: uint16, uniID: uint8, gems: seq<GemPort>)
    requires Populated(db) && Stored32(db) && Lacks(serial, MAC_TOKEN)
    requires var top := Top(db, name, created, serial, mac); Loaded(map[], top, order, Entries(top), loaded)
    requires c in SUPPORTED && SortedKeysOf(WithPlaceholders(db), c, slow) && SortedKeysOf(loaded, c, fast)
    requires SortedKeysOf(loaded, 277, queues)
    ensures {262, 264, 277, 329} <= SUPPORTED
    ensures slow == fast
    ensures var m := Mib(loaded, queues, tcont, uniID);
            Collected(m, gems) == Collected(m.(db := WithPlaceholders(db)), gems)
  {
    RoundTrip(db, name, created, serial, mac, order, loaded);
    SameInstances(db, serial, mac, c);
    SameInstances(db, serial, mac, PRIORITY_QUEUE);
    SortedUnique(slow, fast);
    hide Expected, WithPlaceholders, RelatedPort, Stored32, Sorted, Top, Loaded, Collected;
    forall q | q in queues ensures RelatedPort(loaded, q) == RelatedPort(WithPlaceholders(db), q) {
      assert q in Elems(queues);
      SameRelatedPort(db, serial, mac, q);
    }
    SameCollected(Mib(loaded, queues, tcont, uniID), WithPlaceholders(db), gems);
  }
}
