/** Loading a template gives back the data base it was created from. */
module TemplateRoundTrip {
  import opened Types
  import opened MeDb
  import opened Decimal
  import opened TemplateText
  import opened MibTemplate

  // ---- what is expected ----

  /** A value after its way through the document: numbers are float64, octets base64 text. */
  function Reread(v: Value, serial: string, mac: string): Value {
    FromJson(Specialized(ToJson(v), serial, mac))
  }

  /** The attributes that are the loading ONU's own. */
  function Own(cls: uint16, serial: string, mac: string): Attrs {
    if cls == 6 || cls == 256 then map["SerialNumber" := Str(serial)]
    else if cls == 134 then map["MacAddress" := Str(mac)]
    else map[]
  }

  function RereadAll(a: Attrs, serial: string, mac: string): Attrs { map k | k in a :: Reread(a[k], serial, mac) }

  function Expected(db: Db, serial: string, mac: string): Db {
    map c | c in db && c in SUPPORTED :: ExpectedInsts(c, db[c], serial, mac)
  }

  function ExpectedInsts(c: uint16, insts: map<uint16, Attrs>, serial: string, mac: string): map<uint16, Attrs> {
    map i | i in insts :: RereadAll(insts[i], serial, mac) + Own(c, serial, mac)
  }

  /** Only texts that look like a token would be disturbed; octets never do. */
  lemma RereadMeaning(v: Value, serial: string, mac: string)
    requires Lacks(serial, MAC_TOKEN)
    ensures v.Uint? ==> Reread(v, serial, mac) == Float(Float64(v.n))
    ensures v.Uint? && v.n < TWO53 ==> Reread(v, serial, mac) == Float(v.n as real)
    ensures v.Float? || v.Other? ==> Reread(v, serial, mac) == v
    ensures v.Bytes? ==> Reread(v, serial, mac) == Str(Base64(v.b))
    ensures v.Str? && Plain(v.s) ==> Reread(v, serial, mac) == v
    ensures Reread(Str(SERIAL_TOKEN), serial, mac) == Str(serial) && Reread(Str(MAC_TOKEN), serial, mac) == Str(mac)
  {
    SpecializeMeaning(serial, mac);
    if v.Uint? && v.n < TWO53 { ExactBelowTwo53(v.n); }
    if v.Bytes? {
      Base64IsPlain(v.b);
      WithoutPercent(Base64(v.b));
    }
    hide Specialize, Plain, Float64, Base64;
  }

  // ---- the document ----

  function Top(db: Db, name: string, created: string, serial: string, mac: string): map<string, Json> {
    Specialized(Template(db, name, created), serial, mac).m
  }

  lemma HeaderSkipped(name: string, created: string, k: string)
    requires k in Header(name, created)
    ensures ParseUint16(k).None?
  {
    NotDecimal("TemplateName", 0);
    NotDecimal("TemplateCreated", 0);
  }

  lemma MarkedClass(db: Db, k: string)
    ensures k in ClassesJson(WithPlaceholders(db)) <==> IsKeyOf(k, db.Keys)
    ensures IsKeyOf(k, db.Keys) ==>
              var c := ParseUint16(k).value;
              c in db && ClassesJson(WithPlaceholders(db))[k] == ClassJson(c, Marked(c, db[c]))
  {
    var marked := WithPlaceholders(db);
    ClassesJsonAt(marked, k);
    assert marked.Keys == db.Keys;
    KeyParses(k, db.Keys);
    hide ClassesJson, ClassJson, Marked, ParseUint16, IsKeyOf;
  }

  lemma TopKeys(db: Db, name: string, created: string, serial: string, mac: string, k: string)
    ensures var top := Top(db, name, created, serial, mac);
            && (ClassEntry(top, k) <==> IsKeyOf(k, db.Keys) && ParseUint16(k).value in SUPPORTED)
            && (IsKeyOf(k, db.Keys) ==>
                  var c := ParseUint16(k).value;
                  k in top && top[k] == Specialized(ClassJson(c, Marked(c, db[c])), serial, mac))
  {
    hide Header, ClassesJson, WithPlaceholders, ClassJson, Marked, ParseUint16, IsKeyOf, SUPPORTED;
    if k in Header(name, created) { HeaderSkipped(name, created, k); }
    MarkedClass(db, k);
    KeyParses(k, db.Keys);
  }

  lemma KeyParses(k: string, keys: set<uint16>)
    ensures IsKeyOf(k, keys) ==> ParseUint16(k).Some? && ParseUint16(k).value in keys
  {
  }

  lemma ClassKeys(c: uint16, insts: map<uint16, Attrs>, serial: string, mac: string, i: string)
    ensures var j := Specialized(ClassJson(c, Marked(c, insts)), serial, mac);
            && j.JObj?
            && (i in j.m && ParseUint16(i).Some? <==> IsKeyOf(i, insts.Keys))
            && (IsKeyOf(i, insts.Keys) ==>
                  var n := ParseUint16(i).value;
                  i in j.m && j.m[i] == Specialized(InstJson(n, insts[n] + Placeholder(c)), serial, mac))
  {
    NotDecimal("ClassId", 0);
    var marked := Marked(c, insts);
    InstsJsonAt(marked, i);
    assert marked.Keys == insts.Keys;
    KeyParses(i, insts.Keys);
    hide InstsJson, InstJson, ParseUint16, Itoa, IsKeyOf, Placeholder;
  }

  lemma InstAttrs(n: uint16, a: Attrs, serial: string, mac: string)
    ensures var j := Specialized(InstJson(n, a), serial, mac);
            InstWellTyped(j) && "Attributes" in j.m && j.m["Attributes"].JObj?
            && (map k | k in j.m["Attributes"].m :: FromJson(j.m["Attributes"].m[k])) == RereadAll(a, serial, mac)
  {
    hide Itoa, Specialize, ToJson, FromJson;
  }

  lemma RereadMarked(c: uint16, a: Attrs, serial: string, mac: string)
    requires Lacks(serial, MAC_TOKEN)
    ensures RereadAll(a + Placeholder(c), serial, mac) == RereadAll(a, serial, mac) + Own(c, serial, mac)
  {
    RereadMeaning(Other, serial, mac);
    hide Reread, Lacks;
  }

  /** The entries of a created document are exactly the supported instances, with the expected attributes. */
  lemma DocumentEntries(db: Db, name: string, created: string, serial: string, mac: string, p: Path)
    requires Lacks(serial, MAC_TOKEN)
    ensures var top := Top(db, name, created, serial, mac);
            && (MeEntry(top, p) <==> IsPathOf(db, p))
            && (IsPathOf(db, p) ==>
                  var c, i := ParseUint16(p.cls).value, ParseUint16(p.inst).value;
                  MeAttrs(top, p) == ExpectedInsts(c, db[c], serial, mac)[i])
            && (InstEntry(top, p.cls, p.inst) ==> InstWellTyped(top[p.cls].m[p.inst]))
            && (ClassEntry(top, p.cls) ==> top[p.cls].JObj?)
  {
    TopKeys(db, name, created, serial, mac, p.cls);
    KeyParses(p.cls, db.Keys);
    if IsKeyOf(p.cls, db.Keys) {
      var c := ParseUint16(p.cls).value;
      ClassKeys(c, db[c], serial, mac, p.inst);
      KeyParses(p.inst, db[c].Keys);
      if IsKeyOf(p.inst, db[c].Keys) {
        var i := ParseUint16(p.inst).value;
        InstAttrs(i, db[c][i] + Placeholder(c), serial, mac);
        RereadMarked(c, db[c][i], serial, mac);
      }
    }
    hide Top, Specialized, ClassJson, InstJson, Marked, Placeholder, ParseUint16, IsKeyOf, RereadAll, Own, Lacks;
    hide FromJson, SUPPORTED;
  }

  predicate IsPathOf(db: Db, p: Path) {
    && IsKeyOf(p.cls, db.Keys) && ParseUint16(p.cls).value in SUPPORTED
    && IsKeyOf(p.inst, db[ParseUint16(p.cls).value].Keys)
  }

  // ---- storing entry after entry ----

  lemma PutLookup(db: Db, c: uint16, i: uint16, a: Attrs, c2: uint16, i2: uint16)
    requires c != ONU_DATA
    ensures Lookup(Put(db, c, i, a), c2, i2) ==
            if c2 == c && i2 == i then Some(if Lookup(db, c, i).Some? then Lookup(db, c, i).value + a else a)
            else Lookup(db, c2, i2)
  {
  }

  function PathOf(c: uint16, i: uint16): Path { Path(Itoa(c), Itoa(i)) }

  /** Keys are as Itoa prints them, of supported classes. */
  predicate Canonical(p: Path) {
    && ParseUint16(p.cls).Some? && ParseUint16(p.inst).Some? && ParseUint16(p.cls).value in SUPPORTED
    && p == PathOf(ParseUint16(p.cls).value, ParseUint16(p.inst).value)
  }

  lemma SplitLast(order: seq<Path>)
    requires order != [] && Distinct(order)
    ensures var front, p := order[..|order| - 1], order[|order| - 1];
            p in order && p !in front && Distinct(front) && (forall q :: q in order <==> q in front || q == p)
  {
    assert order == order[..|order| - 1] + [order[|order| - 1]];
  }

  lemma {:induction false} PutEntriesLookup(top: map<string, Json>, order: seq<Path>, c: uint16, i: uint16)
    requires Distinct(order) && forall p | p in order :: MeEntry(top, p) && Canonical(p)
    ensures var db := PutEntries(map[], top, order);
            && (PathOf(c, i) in order ==> Lookup(db, c, i) == Some(MeAttrs(top, PathOf(c, i))))
            && (PathOf(c, i) !in order ==> Lookup(db, c, i) == None)
            && Populated(db)
    decreases |order|
  {
    if order != [] {
      var front, p := order[..|order| - 1], order[|order| - 1];
      SplitLast(order);
      assert MeEntry(top, p) && Canonical(p);
      PutEntriesLookup(top, front, c, i);
      PutEntriesLookup(top, front, ParseUint16(p.cls).value, ParseUint16(p.inst).value);
      hide Populated, Lookup, MeEntry, MeAttrs, ParseUint16, Itoa, Distinct, PathOf, PutEntry;
      PutOne(PutEntries(map[], top, front), top, p, c, i);
    }
  }

  lemma PutOne(before: Db, top: map<string, Json>, p: Path, c: uint16, i: uint16)
    requires MeEntry(top, p) && Canonical(p) && Populated(before)
    requires Lookup(before, ParseUint16(p.cls).value, ParseUint16(p.inst).value) == None
    ensures Populated(PutEntry(before, top, p))
    ensures Lookup(PutEntry(before, top, p), c, i) ==
            if PathOf(c, i) == p then Some(MeAttrs(top, p)) else Lookup(before, c, i)
  {
    var pc, pi := ParseUint16(p.cls).value, ParseUint16(p.inst).value;
    PathsDiffer(pc, pi, c, i);
    assert pc != ONU_DATA;
    hide Put, Populated, Lookup, MeEntry, MeAttrs, ParseUint16, Itoa;
    PutLookup(before, pc, pi, MeAttrs(top, p), c, i);
    PutPopulated(before, pc, pi, MeAttrs(top, p));
  }

  lemma PathsDiffer(c: uint16, i: uint16, c2: uint16, i2: uint16)
    ensures PathOf(c, i) == PathOf(c2, i2) <==> c == c2 && i == i2
  {
    ParseItoa(c);
    ParseItoa(c2);
    ParseItoa(i);
    ParseItoa(i2);
  }

  /** A data base without empty classes is determined by its lookups. */
  lemma SameLookups(a: Db, b: Db)
    requires Populated(a) && Populated(b) && forall c, i :: Lookup(a, c, i) == Lookup(b, c, i)
    ensures a == b
  {
    forall c ensures c in a <==> c in b {
      if c in a { var i :| i in a[c]; assert Lookup(a, c, i).Some? && Lookup(b, c, i).Some?; }
      if c in b { var i :| i in b[c]; assert Lookup(b, c, i).Some? && Lookup(a, c, i).Some?; }
    }
    forall c | c in a ensures a[c] == b[c] {
      assert forall i :: i in a[c] <==> Lookup(a, c, i).Some?;
      assert forall i :: i in b[c] <==> Lookup(b, c, i).Some?;
      assert forall i | i in a[c] :: Lookup(a, c, i) == Some(a[c][i]) && Lookup(b, c, i) == Some(b[c][i]);
    }
  }

  // ---- the round trip ----

  lemma PathsOf(db: Db, c: uint16, i: uint16)
    ensures IsPathOf(db, PathOf(c, i)) <==> c in db && c in SUPPORTED && i in db[c]
  {
    ParseItoa(c);
    ParseItoa(i);
  }

  lemma ExpectedLookup(db: Db, serial: string, mac: string, c: uint16, i: uint16)
    ensures Lookup(Expected(db, serial, mac), c, i) ==
            if c in db && c in SUPPORTED && i in db[c] then Some(ExpectedInsts(c, db[c], serial, mac)[i]) else None
  {
    hide Own, RereadAll;
  }

  lemma ExpectedPopulated(db: Db, serial: string, mac: string)
    requires Populated(db)
    ensures Populated(Expected(db, serial, mac))
  {
    forall c | c in Expected(db, serial, mac) ensures Expected(db, serial, mac)[c] != map[] {
      var i :| i in db[c];
      assert i in Expected(db, serial, mac)[c];
    }
  }

  // ---- what the loading ONU ends up with, value by value ----

  /** What a stored value is after the round trip: octets and texts with a token aside. */
  predicate Survives(v: Value, w: Value) {
    && (v.Uint? && v.n < 0x20_0000_0000_0000 ==> w == Float(v.n as real))
    && (v.Float? || v.Other? ==> w == v)
    && (v.Str? && '%' !in v.s ==> w == v)
  }

  /** The attribute in which the loading ONU differs from the one the template is from. */
  predicate OwnAttr(c: uint16, name: string) {
    (c in {6, 256} && name == "SerialNumber") || (c == 134 && name == "MacAddress")
  }

  ghost predicate RestoredAttrs(c: uint16, stored: Attrs, loaded: Attrs, serial: string, mac: string) {
    && (forall name :: name in loaded <==> name in stored || OwnAttr(c, name))
    && (c in {6, 256} ==> loaded["SerialNumber"] == Str(serial))
    && (c == 134 ==> loaded["MacAddress"] == Str(mac))
    && forall name | name in stored && !OwnAttr(c, name) :: Survives(stored[name], loaded[name])
  }

  /** The instances of the seventeen classes and no others, with their attributes. */
  ghost predicate Restored(db: Db, loaded: Db, serial: string, mac: string) {
    forall c, i ::
      if c in {5, 6, 7, 11, 131, 133, 134, 256, 257, 262, 263, 264, 277, 278, 329, 332, 336} && i in Insts(db, c)
      then Lookup(loaded, c, i).Some? && RestoredAttrs(c, db[c][i], Lookup(loaded, c, i).value, serial, mac)
      else Lookup(loaded, c, i).None?
  }

  lemma RereadSurvives(v: Value, serial: string, mac: string)
    requires Lacks(serial, MAC_TOKEN)
    ensures Survives(v, Reread(v, serial, mac))
  {
    RereadMeaning(v, serial, mac);
    if v.Str? && '%' !in v.s { WithoutPercent(v.s); }
    hide Reread, Plain, Lacks;
  }

  lemma OwnIs(c: uint16, serial: string, mac: string)
    ensures c in {6, 256} ==> Own(c, serial, mac) == map["SerialNumber" := Str(serial)]
    ensures c == 134 ==> Own(c, serial, mac) == map["MacAddress" := Str(mac)]
    ensures c !in {6, 256, 134} ==> Own(c, serial, mac) == map[]
  {
  }

  lemma AttrsRestored(c: uint16, a: Attrs, serial: string, mac: string)
    requires Lacks(serial, MAC_TOKEN)
    ensures RestoredAttrs(c, a, RereadAll(a, serial, mac) + Own(c, serial, mac), serial, mac)
  {
    OwnIs(c, serial, mac);
    hide Own, Reread, Survives, Lacks;
    forall name | name in a ensures Survives(a[name], Reread(a[name], serial, mac)) {
      RereadSurvives(a[name], serial, mac);
    }
  }

  lemma ExpectedIsRestored(db: Db, serial: string, mac: string)
    requires Lacks(serial, MAC_TOKEN)
    ensures Restored(db, Expected(db, serial, mac), serial, mac)
  {
    hide Expected, RestoredAttrs, Lacks, RereadAll, Own;
    forall c, i
      ensures if c in {5, 6, 7, 11, 131, 133, 134, 256, 257, 262, 263, 264, 277, 278, 329, 332, 336}
                 && i in Insts(db, c)
              then Lookup(Expected(db, serial, mac), c, i).Some?
                   && RestoredAttrs(c, db[c][i], Lookup(Expected(db, serial, mac), c, i).value, serial, mac)
              else Lookup(Expected(db, serial, mac), c, i).None?
    {
      ExpectedLookup(db, serial, mac, c, i);
      if i in Insts(db, c) { AttrsRestored(c, db[c][i], serial, mac); }
    }
  }

  /** Whatever orders the maps are iterated in: the loader's assertions hold, it stores exactly the
      supported classes, every number as its float64, and the serial number and the MAC address are
      those of the loading ONU. The keys TemplateName, TemplateCreated and ClassId are skipped. */
  lemma RoundTrip(db: Db, name: string, created: string, serial: string, mac: string, order: seq<Path>, loaded: Db)
    requires Populated(db) && Lacks(serial, MAC_TOKEN)
    requires var top := Top(db, name, created, serial, mac); Loaded(map[], top, order, Entries(top), loaded)
    ensures WellTyped(Top(db, name, created, serial, mac))
    ensures loaded == Expected(db, serial, mac)
    ensures Restored(db, loaded, serial, mac)
  {
    ExpectedIsRestored(db, serial, mac);
    hide Restored;
    var top := Top(db, name, created, serial, mac);
    forall p: Path ensures p in order <==> IsPathOf(db, p)
      ensures MeEntry(top, p) <==> IsPathOf(db, p)
    {
      EntriesAre(top, p);
      DocumentEntries(db, name, created, serial, mac, p);
    }
    forall p | p in order ensures MeEntry(top, p) && Canonical(p) {}
    DocumentWellTyped(db, name, created, serial, mac);
    ExpectedPopulated(db, serial, mac);
    hide Top, Expected, ExpectedInsts, Populated, MeEntry, Canonical, IsPathOf, Lookup, PutEntries, WellTyped, Lacks;
    PutEntriesLookup(top, order, 0, 0);
    forall c, i ensures Lookup(loaded, c, i) == Lookup(Expected(db, serial, mac), c, i) {
      PutEntriesLookup(top, order, c, i);
      PathsOf(db, c, i);
      ExpectedLookup(db, serial, mac, c, i);
      DocumentEntries(db, name, created, serial, mac, PathOf(c, i));
      ParseItoa(c);
      ParseItoa(i);
    }
    SameLookups(loaded, Expected(db, serial, mac));
  }

  lemma DocumentWellTyped(db: Db, name: string, created: string, serial: string, mac: string)
    requires Lacks(serial, MAC_TOKEN)
    ensures WellTyped(Top(db, name, created, serial, mac))
  {
    var top := Top(db, name, created, serial, mac);
    forall k, i
      ensures ClassEntry(top, k) ==> top[k].JObj?
      ensures InstEntry(top, k, i) ==> InstWellTyped(top[k].m[i])
    {
      DocumentEntries(db, name, created, serial, mac, Path(k, i));
    }
    hide Top, ClassEntry, InstEntry, InstWellTyped;
    forall k | ClassEntry(top, k) ensures top[k].JObj? { DocumentEntries(db, name, created, serial, mac, Path(k, "")); }
  }

  /** A serial number as vendor and number octets print is too short to hold a token. */
  lemma SerialLacksToken(serial: string)
    requires |serial| <= 12
    ensures Lacks(serial, MAC_TOKEN)
  {
  }
}
