/** The MIB template cache of mib_sync.go: createAndPersistMibTemplate writes one after an upload,
    enterGettingMibTemplate fills the data base of a like ONU from it. */
module MibTemplate {
  import opened Types
  import opened MeDb
  import opened Decimal
  import opened TemplateText

  /** A template document; arrays, booleans and null are all JOther. */
  datatype Json = JInt(n: nat) | JReal(x: real) | JStr(s: string) | JObj(m: map<string, Json>) | JOther

  /** Swapping out the tokens in the text of a document, seen on its strings. */
  function Specialized(j: Json, serial: string, mac: string): Json {
    match j
    case JStr(s) => JStr(Specialize(s, serial, mac))
    case JObj(m) => JObj(map k | k in m :: Specialized(m[k], serial, mac))
    case _ => j
  }

  const SUPPORTED: set<uint16> :=
    {5, 6, 7, 11, 131, 133, 134, 256, 257, 262, 263, 264, 277, 278, 329, 332, 336}

  // ---- creating ----

  function ToJson(v: Value): Json {
    match v
    case Uint(_, n) => JInt(n)
    case Float(x) => JReal(x)
    case Str(s) => JStr(s)
    case Bytes(b) => JStr(Base64(b))
    case Other => JOther
  }

  function Placeholder(cls: uint16): Attrs {
    if cls == 6 || cls == 256 then map["SerialNumber" := Str(SERIAL_TOKEN)]
    else if cls == 134 then map["MacAddress" := Str(MAC_TOKEN)]
    else map[]
  }

  function Marked(cls: uint16, insts: map<uint16, Attrs>): map<uint16, Attrs> {
    map i | i in insts :: insts[i] + Placeholder(cls)
  }

  /** The data base after a template was created from it: the attribute maps are shared, so the
      placeholders stay behind. */
  function WithPlaceholders(db: Db): Db { map c | c in db :: Marked(c, db[c]) }

  /** The attributes of an instance with its placeholder: the serial number of CircuitPack and ONU-G (classes 6
      and 256), the MAC address of the IP host (134), nothing for the other classes. */
  predicate IsMarked(c: uint16, before: Attrs, after: Attrs) {
    after == if c == 6 || c == 256 then before["SerialNumber" := Str("%SERIAL_NUMBER%")]
             else if c == 134 then before["MacAddress" := Str("%MAC_ADDRESS%")]
             else before
  }

  lemma PlaceholdersMeaning(db: Db, c: uint16, i: uint16)
    ensures Lookup(WithPlaceholders(db), c, i).Some? <==> Lookup(db, c, i).Some?
    ensures Lookup(db, c, i).Some? ==> IsMarked(c, Lookup(db, c, i).value, Lookup(WithPlaceholders(db), c, i).value)
  {
    if i in Insts(db, c) {
      assert WithPlaceholders(db)[c][i] == db[c][i] + Placeholder(c);
      assert forall k: string, v: Value :: db[c][i] + map[k := v] == db[c][i][k := v];
      assert db[c][i] + map[] == db[c][i];
    }
  }

  /** Every instance whose class has a placeholder holds it already. */
  predicate HoldsPlaceholders(db: Db) {
    forall c, i | c in db && i in db[c] ::
      && (c == 6 || c == 256 ==> "SerialNumber" in db[c][i] && db[c][i]["SerialNumber"] == Str("%SERIAL_NUMBER%"))
      && (c == 134 ==> "MacAddress" in db[c][i] && db[c][i]["MacAddress"] == Str("%MAC_ADDRESS%"))
  }

  /** Creating a template leaves the data base as it was exactly when there is nothing to mark. */
  lemma UnmarkedIff(db: Db)
    ensures WithPlaceholders(db) == db <==> HoldsPlaceholders(db)
  {
    if HoldsPlaceholders(db) {
      forall c | c in db ensures Marked(c, db[c]) == db[c] {
        forall i | i in db[c] ensures db[c][i] + Placeholder(c) == db[c][i] {}
      }
    }
    if WithPlaceholders(db) == db {
      forall c, i | c in db && i in db[c] ensures db[c][i] == db[c][i] + Placeholder(c) {
        assert db[c] == Marked(c, db[c]);
      }
    }
  }

  /** k is the decimal text of one of the keys. */
  predicate IsKeyOf(k: string, keys: set<uint16>) {
    ParseUint16(k).Some? && ParseUint16(k).value in keys && Itoa(ParseUint16(k).value) == k
  }

  function Printed(keys: set<uint16>): (texts: set<string>)
    ensures forall k :: k in texts <==> IsKeyOf(k, keys)
  {
    assert forall i: uint16 :: ParseUint16(Itoa(i)) == Some(i) by {
      forall i: uint16 ensures ParseUint16(Itoa(i)) == Some(i) { ParseItoa(i); }
    }
    set i | i in keys :: Itoa(i)
  }

  function InstJson(inst: uint16, attrs: Attrs): Json {
    JObj(map["Attributes" := JObj(map k | k in attrs :: ToJson(attrs[k])), "InstanceId" := JStr(Itoa(inst))])
  }

  function InstsJson(insts: map<uint16, Attrs>): map<string, Json> {
    map k | k in Printed(insts.Keys) :: InstJson(ParseUint16(k).value, insts[ParseUint16(k).value])
  }

  function ClassJson(cls: uint16, insts: map<uint16, Attrs>): Json {
    JObj(InstsJson(insts) + map["ClassId" := JStr(Itoa(cls))])
  }

  function ClassesJson(db: Db): map<string, Json> {
    map k | k in Printed(db.Keys) :: ClassJson(ParseUint16(k).value, db[ParseUint16(k).value])
  }

  function Header(name: string, created: string): map<string, Json> {
    map["TemplateName" := JStr(name), "TemplateCreated" := JStr(created)]
  }

  function Template(db: Db, name: string, created: string): Json {
    JObj(Header(name, created) + ClassesJson(WithPlaceholders(db)))
  }

  /** The object of one instance: its number and its attributes. */
  ghost predicate InstDocument(j: Json, i: uint16, attrs: Attrs) {
    && j.JObj? && j.m.Keys == {"InstanceId", "Attributes"} && j.m["InstanceId"] == JStr(Itoa(i))
    && j.m["Attributes"].JObj? && j.m["Attributes"].m.Keys == attrs.Keys
    && forall name | name in attrs :: j.m["Attributes"].m[name] == ToJson(attrs[name])
  }

  /** The object of one class: its number and the objects of its instances. */
  ghost predicate ClassDocument(j: Json, c: uint16, insts: map<uint16, Attrs>) {
    && j.JObj? && "ClassId" in j.m && j.m["ClassId"] == JStr(Itoa(c))
    && (forall k :: k in j.m <==> k == "ClassId" || IsKeyOf(k, insts.Keys))
    && forall i: uint16 | i in insts :: Itoa(i) in j.m && InstDocument(j.m[Itoa(i)], i, insts[i])
  }

  lemma InstIsDocument(i: uint16, attrs: Attrs)
    ensures InstDocument(InstJson(i, attrs), i, attrs)
  {
    hide Itoa, ToJson;
  }

  lemma OwnKey(i: uint16, keys: set<uint16>)
    requires i in keys
    ensures IsKeyOf(Itoa(i), keys) && ParseUint16(Itoa(i)) == Some(i)
    ensures Itoa(i) != "ClassId" && Itoa(i) != "TemplateName" && Itoa(i) != "TemplateCreated"
  {
    ParseItoa(i);
    NotDecimal("ClassId", 0);
    NotDecimal("TemplateName", 0);
    NotDecimal("TemplateCreated", 0);
    hide Itoa;
  }

  lemma ClassIsDocument(c: uint16, insts: map<uint16, Attrs>)
    ensures ClassDocument(ClassJson(c, insts), c, insts)
  {
    hide InstsJson, InstJson, InstDocument, Itoa, IsKeyOf;
    forall k ensures k in InstsJson(insts) <==> IsKeyOf(k, insts.Keys) { InstsJsonAt(insts, k); }
    forall i: uint16 | i in insts
      ensures Itoa(i) in InstsJson(insts) && Itoa(i) != "ClassId"
      ensures InstDocument(InstsJson(insts)[Itoa(i)], i, insts[i])
    {
      OwnKey(i, insts.Keys);
      InstsJsonAt(insts, Itoa(i));
      InstIsDocument(i, insts[i]);
    }
  }

  /** What a template looks like: name, date and the objects of the classes, with the placeholders in them. */
  lemma TemplateDocument(db: Db, name: string, created: string)
    ensures var j := Template(db, name, created);
            && j.JObj? && (forall k :: k in j.m <==> k in {"TemplateName", "TemplateCreated"} || IsKeyOf(k, db.Keys))
            && forall c: uint16 | c in db :: Itoa(c) in j.m && ClassDocument(j.m[Itoa(c)], c, Marked(c, db[c]))
    ensures var j := Template(db, name, created);
            j.JObj? && "TemplateName" in j.m && "TemplateCreated" in j.m
            && j.m["TemplateName"] == JStr(name) && j.m["TemplateCreated"] == JStr(created)
  {
    var marked := WithPlaceholders(db);
    assert marked.Keys == db.Keys;
    NotDecimal("TemplateName", 0);
    NotDecimal("TemplateCreated", 0);
    hide ClassesJson, ClassJson, ClassDocument, Itoa, Marked;
    forall k ensures k in ClassesJson(marked) <==> IsKeyOf(k, db.Keys) { ClassesJsonAt(marked, k); }
    hide IsKeyOf;
    assert "TemplateName" !in ClassesJson(marked) && "TemplateCreated" !in ClassesJson(marked) by {
      NotAKey("TemplateName", db.Keys);
      NotAKey("TemplateCreated", db.Keys);
    }
    forall c: uint16 | c in db
      ensures Itoa(c) in ClassesJson(marked) && ClassDocument(ClassesJson(marked)[Itoa(c)], c, Marked(c, db[c]))
    {
      OwnKey(c, db.Keys);
      ClassesJsonAt(marked, Itoa(c));
      ClassIsDocument(c, Marked(c, db[c]));
    }
  }

  lemma NotAKey(k: string, keys: set<uint16>)
    requires ParseUint16(k).None?
    ensures !IsKeyOf(k, keys)
  {
  }

  lemma InstsJsonAt(insts: map<uint16, Attrs>, k: string)
    ensures k in InstsJson(insts) <==> IsKeyOf(k, insts.Keys)
    ensures k in InstsJson(insts) ==> InstsJson(insts)[k] == InstJson(ParseUint16(k).value, insts[ParseUint16(k).value])
  {
    hide InstJson, ParseUint16, Itoa;
  }

  lemma ClassesJsonAt(db: Db, k: string)
    ensures k in ClassesJson(db) <==> IsKeyOf(k, db.Keys)
    ensures k in ClassesJson(db) ==> ClassesJson(db)[k] == ClassJson(ParseUint16(k).value, db[ParseUint16(k).value])
  {
    hide ClassJson, ParseUint16, Itoa;
  }

  lemma MoreKeys(keys: set<uint16>, i: uint16, k: string)
    ensures IsKeyOf(k, keys + {i}) <==> IsKeyOf(k, keys) || k == Itoa(i)
    ensures k != Itoa(i) && IsKeyOf(k, keys + {i}) ==> ParseUint16(k).value != i
    ensures ParseUint16(Itoa(i)) == Some(i) && IsKeyOf(Itoa(i), keys + {i})
  {
    ParseItoa(i);
    hide Itoa, ParseUint16;
  }

  lemma MapUpdated<V>(m: map<string, V>, more: map<string, V>, key: string, v: V)
    requires forall k :: k in more <==> k in m || k == key
    requires forall k | k in more :: more[k] == if k == key then v else m[k]
    ensures more == m[key := v]
  {
  }

  lemma InstsJsonMoreAt(insts: map<uint16, Attrs>, more: map<uint16, Attrs>, i: uint16, k: string)
    requires more.Keys == insts.Keys + {i} && forall j | j in insts && j != i :: more[j] == insts[j]
    ensures k in InstsJson(more) <==> k in InstsJson(insts) || k == Itoa(i)
    ensures k in InstsJson(more) ==>
              InstsJson(more)[k] == if k == Itoa(i) then InstJson(i, more[i]) else InstsJson(insts)[k]
  {
    InstsJsonAt(more, k);
    InstsJsonAt(insts, k);
    MoreKeys(insts.Keys, i, k);
    hide Itoa, ParseUint16, InstJson, InstsJson;
  }

  lemma InstsJsonMore(insts: map<uint16, Attrs>, i: uint16, attrs: Attrs)
    ensures InstsJson(SetInst(insts, i, attrs)) == InstsJson(insts)[Itoa(i) := InstJson(i, attrs)]
  {
    var more := SetInst(insts, i, attrs);
    assert more.Keys == insts.Keys + {i} && more[i] == attrs;
    hide InstsJson, InstJson, Itoa;
    forall k
      ensures k in InstsJson(more) <==> k in InstsJson(insts) || k == Itoa(i)
      ensures k in InstsJson(more) ==>
                InstsJson(more)[k] == if k == Itoa(i) then InstJson(i, more[i]) else InstsJson(insts)[k]
    {
      InstsJsonMoreAt(insts, more, i, k);
    }
    MapUpdated(InstsJson(insts), InstsJson(more), Itoa(i), InstJson(i, attrs));
  }

  lemma ClassesJsonMoreAt(db: Db, more: Db, c: uint16, k: string)
    requires more.Keys == db.Keys + {c} && forall j | j in db && j != c :: more[j] == db[j]
    ensures k in ClassesJson(more) <==> k in ClassesJson(db) || k == Itoa(c)
    ensures k in ClassesJson(more) ==>
              ClassesJson(more)[k] == if k == Itoa(c) then ClassJson(c, more[c]) else ClassesJson(db)[k]
  {
    ClassesJsonAt(more, k);
    ClassesJsonAt(db, k);
    MoreKeys(db.Keys, c, k);
    hide Itoa, ParseUint16, ClassJson, ClassesJson;
  }

  lemma ClassesJsonMore(db: Db, c: uint16, insts: map<uint16, Attrs>)
    ensures ClassesJson(db + map[c := insts]) == ClassesJson(db)[Itoa(c) := ClassJson(c, insts)]
  {
    var more := db + map[c := insts];
    assert more.Keys == db.Keys + {c} && more[c] == insts;
    hide ClassesJson, ClassJson, Itoa;
    forall k
      ensures k in ClassesJson(more) <==> k in ClassesJson(db) || k == Itoa(c)
      ensures k in ClassesJson(more) ==>
                ClassesJson(more)[k] == if k == Itoa(c) then ClassJson(c, more[c]) else ClassesJson(db)[k]
    {
      ClassesJsonMoreAt(db, more, c, k);
    }
    MapUpdated(ClassesJson(db), ClassesJson(more), Itoa(c), ClassJson(c, insts));
  }

  /** Whatever the iteration order, a map whose every entry was marked is the marked map. */
  lemma AllMarked(cls: uint16, insts: map<uint16, Attrs>, done: map<uint16, Attrs>)
    requires done.Keys == insts.Keys && forall i | i in done :: done[i] == insts[i] + Placeholder(cls)
    ensures done == Marked(cls, insts)
  {
  }

  lemma NoInstances()
    ensures InstsJson(map[]) == map[]
  {
  }

  lemma NoClasses()
    ensures ClassesJson(map[]) == map[]
  {
  }

  /** The instances of one class, in any order. */
  method MarkClass(cls: uint16, insts: map<uint16, Attrs>) returns (done: map<uint16, Attrs>, second: map<string, Json>)
    ensures done == Marked(cls, insts)
    ensures second == InstsJson(Marked(cls, insts))
  {
    hide InstsJson, InstJson, Itoa;
    var rest := insts.Keys;
    done, second := map[], map[];
    NoInstances();
    while rest != {}
      invariant rest <= insts.Keys && done.Keys == insts.Keys - rest
      invariant forall i | i in done :: done[i] == insts[i] + Placeholder(cls)
      invariant second == InstsJson(done)
      decreases rest
    {
      var i :| i in rest;
      var attrs := insts[i];
      if cls == 6 || cls == 256 { attrs := attrs["SerialNumber" := Str(SERIAL_TOKEN)]; }
      if cls == 134 { attrs := attrs["MacAddress" := Str(MAC_TOKEN)]; }
      assert attrs == insts[i] + Placeholder(cls);
      InstsJsonMore(done, i, attrs);
      second := second[Itoa(i) := InstJson(i, attrs)];
      done := SetInst(done, i, attrs);
      rest := rest - {i};
    }
    AllMarked(cls, insts, done);
  }

  lemma AllClassesMarked(was: Db, done: Db)
    requires done.Keys == was.Keys && forall c | c in done :: done[c] == Marked(c, was[c])
    ensures was + done == WithPlaceholders(was) == done
  {
    hide Marked;
  }

  lemma UnionUpdated<K, V>(a: map<K, V>, b: map<K, V>, k: K, v: V)
    ensures (a + b)[k := v] == a + b[k := v] == a + (b + map[k := v])
  {
  }

  lemma ClassObject(c: uint16, insts: map<uint16, Attrs>, second: map<string, Json>)
    requires second == InstsJson(insts)
    ensures JObj(second["ClassId" := JStr(Itoa(c))]) == ClassJson(c, insts)
  {
    hide InstsJson, Itoa;
    UnionUpdated(second, map[], "ClassId", JStr(Itoa(c)));
    assert second["ClassId" := JStr(Itoa(c))] == second + map["ClassId" := JStr(Itoa(c))];
  }

  lemma OneMoreClass(
    was: Db, done: Db, header: map<string, Json>, c: uint16, insts: map<uint16, Attrs>, second: map<string, Json>)
    requires second == InstsJson(insts)
    ensures (was + done)[c := insts] == was + (done + map[c := insts])
    ensures (header + ClassesJson(done))[Itoa(c) := JObj(second["ClassId" := JStr(Itoa(c))])] ==
            header + ClassesJson(done + map[c := insts])
  {
    ClassObject(c, insts, second);
    ClassesJsonMore(done, c, insts);
    UnionUpdated(was, done, c, insts);
    UnionUpdated(header, ClassesJson(done), Itoa(c), ClassJson(c, insts));
    hide *;
  }

  method CreateMibTemplate(db: OnuDeviceDB, name: string, created: string) returns (t: Json)
    modifies db
    ensures t == Template(old(db.meDb), name, created)
    ensures db.meDb == WithPlaceholders(old(db.meDb))
  {
    hide Marked, ClassesJson, InstsJson, ClassJson, Header, Itoa;
    ghost var was := db.meDb;
    var rest := db.meDb.Keys;
    var top := Header(name, created);
    ghost var done: Db := map[];
    NoClasses();
    while rest != {}
      invariant rest <= was.Keys && done.Keys == was.Keys - rest
      invariant forall c | c in done :: done[c] == Marked(c, was[c])
      invariant db.meDb == was + done
      invariant top == Header(name, created) + ClassesJson(done)
      decreases rest
    {
      var c :| c in rest;
      assert db.meDb[c] == was[c];
      var insts, second := MarkClass(c, db.meDb[c]);
      OneMoreClass(was, done, Header(name, created), c, insts, second);
      db.meDb := db.meDb[c := insts];
      top := top[Itoa(c) := JObj(second["ClassId" := JStr(Itoa(c))])];
      done := done + map[c := insts];
      rest := rest - {c};
    }
    AllClassesMarked(was, done);
    t := JObj(top);
  }

  // ---- loading ----

  function FromJson(j: Json): Value {
    match j
    case JInt(n) => Float(Float64(n))
    case JReal(x) => Float(x)
    case JStr(s) => Str(s)
    case _ => Other
  }

  /** The keys that lead to one ME. */
  datatype Path = Path(cls: string, inst: string)

  predicate ClassEntry(top: map<string, Json>, k: string) {
    k in top && ParseUint16(k).Some? && ParseUint16(k).value in SUPPORTED
  }

  predicate InstEntry(top: map<string, Json>, k: string, i: string) {
    ClassEntry(top, k) && top[k].JObj? && i in top[k].m && ParseUint16(i).Some?
  }

  predicate MeEntry(top: map<string, Json>, p: Path) {
    && InstEntry(top, p.cls, p.inst) && top[p.cls].m[p.inst].JObj?
    && "Attributes" in top[p.cls].m[p.inst].m && top[p.cls].m[p.inst].m["Attributes"].JObj?
  }

  /** Where the code asserts an object, there is one; it panics otherwise. */
  ghost predicate WellTyped(top: map<string, Json>) {
    && (forall k | ClassEntry(top, k) :: top[k].JObj?)
    && (forall k, i | InstEntry(top, k, i) :: InstWellTyped(top[k].m[i]))
  }

  predicate InstWellTyped(j: Json) { j.JObj? && ("Attributes" in j.m ==> j.m["Attributes"].JObj?) }

  function MeAttrs(top: map<string, Json>, p: Path): Attrs
    requires MeEntry(top, p)
  {
    var a := top[p.cls].m[p.inst].m["Attributes"].m;
    map k | k in a :: FromJson(a[k])
  }

  function PutEntry(db: Db, top: map<string, Json>, p: Path): Db
    requires MeEntry(top, p)
  {
    Put(db, ParseUint16(p.cls).value, ParseUint16(p.inst).value, MeAttrs(top, p))
  }

  function PutEntries(db: Db, top: map<string, Json>, order: seq<Path>): Db
    requires forall p | p in order :: MeEntry(top, p)
    decreases |order|
  {
    if order == [] then db else PutEntry(PutEntries(db, top, order[..|order| - 1]), top, order[|order| - 1])
  }

  function Entries(top: map<string, Json>): set<Path> {
    set k, i | k in top && top[k].JObj? && i in top[k].m && MeEntry(top, Path(k, i)) :: Path(k, i)
  }

  /** `order` lists the given entries, each once. */
  ghost predicate Lists(order: seq<Path>, entries: set<Path>) {
    Distinct(order) && forall p :: p in order <==> p in entries
  }

  lemma EntriesAre(top: map<string, Json>, p: Path)
    ensures p in Entries(top) <==> MeEntry(top, p)
  {
    assert p == Path(p.cls, p.inst);
  }

  lemma PutEntriesSnoc(db: Db, top: map<string, Json>, order: seq<Path>, p: Path)
    requires (forall q | q in order :: MeEntry(top, q)) && MeEntry(top, p)
    ensures PutEntries(db, top, order + [p]) == PutEntry(PutEntries(db, top, order), top, p)
  {
    assert (order + [p])[..|order|] == order;
  }

  /** The entries under the class keys ks. */
  function Under(top: map<string, Json>, ks: set<string>): set<Path> { set p | p in Entries(top) && p.cls in ks }

  ghost predicate Loaded(start: Db, top: map<string, Json>, order: seq<Path>, entries: set<Path>, db: Db) {
    && Lists(order, entries) && entries <= Entries(top)
    && (forall p | p in order :: MeEntry(top, p)) && db == PutEntries(start, top, order)
  }

  lemma LoadedMore(start: Db, top: map<string, Json>, order: seq<Path>, entries: set<Path>, db: Db, p: Path)
    requires Loaded(start, top, order, entries, db) && MeEntry(top, p) && p !in entries
    ensures Loaded(start, top, order + [p], entries + {p}, PutEntry(db, top, p))
  {
    EntriesAre(top, p);
    PutEntriesSnoc(start, top, order, p);
  }

  /** One second level map, in any order. */
  method LoadClass(
    db: OnuDeviceDB, ghost start: Db, top: map<string, Json>, k: string, ghost before: seq<Path>, ghost ks: set<string>)
    returns (stored: bool, ghost order: seq<Path>)
    requires WellTyped(top) && ClassEntry(top, k) && k !in ks
    requires Loaded(start, top, before, Under(top, ks), db.meDb)
    modifies db
    ensures Loaded(start, top, order, Under(top, ks + {k}), db.meDb)
    ensures |order| >= |before| && (stored <==> |order| > |before|)
  {
    order, stored := before, false;
    var second := top[k].m;
    var rest := second.Keys;
    ghost var entries := Under(top, ks);
    while rest != {}
      invariant rest <= second.Keys
      invariant Loaded(start, top, order, entries, db.meDb)
      invariant forall p :: p in entries <==> p in Entries(top) && (p.cls in ks || (p.cls == k && p.inst !in rest))
      invariant |order| >= |before| && (stored <==> |order| > |before|)
      decreases rest
    {
      hide PutEntries;
      var i :| i in rest;
      EntriesAre(top, Path(k, i));
      if ParseUint16(i).Some? {
        assert InstEntry(top, k, i);
        var third := second[i].m;
        if "Attributes" in third {
          var attrs := third["Attributes"].m;
          LoadedMore(start, top, order, entries, db.meDb, Path(k, i));
          db.PutMe(ParseUint16(k).value, ParseUint16(i).value, map a | a in attrs :: FromJson(attrs[a]));
          order, entries := order + [Path(k, i)], entries + {Path(k, i)};
          stored := true;
        }
      }
      rest := rest - {i};
    }
    forall p ensures p in entries <==> p in Under(top, ks + {k}) { EntriesAre(top, p); }
    assert entries == Under(top, ks + {k});
  }

  /** The nested loops of enterGettingMibTemplate; false asks for a MIB upload instead. */
  method LoadMibTemplate(db: OnuDeviceDB, text: Json, serial: string, mac: string)
    returns (stored: bool, ghost order: seq<Path>)
    requires var t := Specialized(text, serial, mac); t.JObj? ==> WellTyped(t.m)
    modifies db
    ensures var t := Specialized(text, serial, mac);
            if t.JObj? then Loaded(old(db.meDb), t.m, order, Entries(t.m), db.meDb) && (stored <==> order != [])
            else !stored && db.meDb == old(db.meDb)
  {
    order, stored := [], false;
    var t := Specialized(text, serial, mac);
    if !t.JObj? { return; }
    ghost var start := db.meDb;
    ghost var ks: set<string> := {};
    var rest := t.m.Keys;
    while rest != {}
      invariant rest <= t.m.Keys && ks == t.m.Keys - rest
      invariant Loaded(start, t.m, order, Under(t.m, ks), db.meDb) && (stored <==> order != [])
      decreases rest
    {
      hide Loaded;
      var k :| k in rest;
      if ParseUint16(k).Some? && ParseUint16(k).value in SUPPORTED {
        var more;
        more, order := LoadClass(db, start, t.m, k, order, ks);
        stored := stored || more;
      } else {
        forall p ensures p in Under(t.m, ks) <==> p in Under(t.m, ks + {k}) { EntriesAre(t.m, p); }
        assert Under(t.m, ks) == Under(t.m, ks + {k});
      }
      rest, ks := rest - {k}, ks + {k};
    }
    forall p ensures p in Under(t.m, ks) <==> p in Entries(t.m) { EntriesAre(t.m, p); }
    assert Under(t.m, ks) == Entries(t.m);
  }
}
