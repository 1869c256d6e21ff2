/** The MIB data base of one ONU: onu_device_db.go. */
module MeDb {
  import opened Types

  /** Attribute values as Go sees them: decoded from OMCI they are integers of a fixed width,
      strings or octets; loaded from JSON every number is a float64. */
  datatype Value = Uint(bits: nat, n: nat) | Float(x: real) | Str(s: string) | Bytes(b: seq<uint8>) | Other

  type Attrs = map<string, Value>
  type Db = map<uint16, map<uint16, Attrs>>

  const ONU_DATA: uint16 := 2
  const TCONT: uint16 := 262
  const UNI_G: uint16 := 264
  const PRIORITY_QUEUE: uint16 := 277
  const VEIP: uint16 := 329

  function Insts(db: Db, cls: uint16): map<uint16, Attrs> { if cls in db then db[cls] else map[] }

  function Lookup(db: Db, cls: uint16, inst: uint16): Option<Attrs> {
    if inst in Insts(db, cls) then Some(db[cls][inst]) else None
  }

  function SetInst(insts: map<uint16, Attrs>, inst: uint16, attrs: Attrs): map<uint16, Attrs> {
    var r: map<uint16, Attrs> := insts + map[inst := attrs];
    r
  }

  /** What storing one ME makes of the data base. */
  function Put(db: Db, cls: uint16, inst: uint16, attrs: Attrs): Db {
    if cls == ONU_DATA then db
    else if inst in Insts(db, cls) then db[cls := SetInst(db[cls], inst, db[cls][inst] + attrs)]
    else db[cls := SetInst(Insts(db, cls), inst, attrs)]
  }

  /** No class entry without instances; every data base built by PutMe is like that. */
  predicate Populated(db: Db) { forall c | c in db :: db[c] != map[] && c != ONU_DATA }

  lemma PutPopulated(db: Db, cls: uint16, inst: uint16, attrs: Attrs)
    requires Populated(db)
    ensures Populated(Put(db, cls, inst, attrs))
  {
    if cls != ONU_DATA { assert inst in Put(db, cls, inst, attrs)[cls]; }
  }

  /** float64 to uint32 as the conversion in getUint32Attrib does it. */
  function TruncToUint32(x: real): uint32 {
    if x >= 0.0 then x.Floor % 0x1_0000_0000 else (-(-x).Floor) % 0x1_0000_0000
  }

  function Uint32Attrib(v: Value): Option<uint32> {
    match v
    case Float(x) => Some(TruncToUint32(x))
    case Uint(bits, n) => if bits == 32 && n < 0x1_0000_0000 then Some(n) else None
    case _ => None
  }

  // ---- sorted instance keys ----

  predicate Sorted(keys: seq<uint16>) { forall i, j | 0 <= i < j < |keys| :: keys[i] < keys[j] }

  function Elems(keys: seq<uint16>): set<uint16> { set k | k in keys }

  /** What GetSortedInstKeys returns for a class. */
  ghost predicate SortedKeysOf(db: Db, c: uint16, keys: seq<uint16>) {
    Sorted(keys) && Elems(keys) == Insts(db, c).Keys
  }

  lemma HeadIsElem(a: seq<uint16>)
    ensures a != [] <==> Elems(a) != {}
  {
    if a != [] { assert a[0] in Elems(a); }
  }

  /** There is only one sorted list of a given set of keys. */
  lemma {:induction false} SortedUnique(a: seq<uint16>, b: seq<uint16>)
    requires Sorted(a) && Sorted(b) && Elems(a) == Elems(b)
    ensures a == b
    decreases |a|
  {
    if a == [] || b == [] {
      HeadIsElem(a);
      HeadIsElem(b);
    } else {
      assert a[0] in Elems(b) && b[0] in Elems(a);
      assert a[0] == b[0];
      forall k ensures k in Elems(a[1..]) <==> k in Elems(b[1..]) {
        assert k in Elems(a[1..]) <==> k in Elems(a) && k != a[0] by { assert a == [a[0]] + a[1..]; }
        assert k in Elems(b[1..]) <==> k in Elems(b) && k != b[0] by { assert b == [b[0]] + b[1..]; }
      }
      SortedUnique(a[1..], b[1..]);
    }
  }

  function InsertSorted(keys: seq<uint16>, k: uint16): (r: seq<uint16>)
    ensures forall x :: x in r <==> x in keys || x == k
  {
    if keys == [] || k < keys[0] then [k] + keys
    else
      assert keys == [keys[0]] + keys[1..];
      [keys[0]] + InsertSorted(keys[1..], k)
  }

  lemma {:induction false} InsertKeepsSorted(keys: seq<uint16>, k: uint16)
    requires Sorted(keys) && k !in keys
    ensures Sorted(InsertSorted(keys, k))
  {
    if keys != [] && keys[0] < k {
      var tail := InsertSorted(keys[1..], k);
      InsertKeepsSorted(keys[1..], k);
      forall j | 0 <= j < |tail| ensures keys[0] < tail[j] {
        assert tail[j] in tail;
      }
    }
  }

  class OnuDeviceDB {
    var meDb: Db

    constructor ()
      ensures meDb == map[]
    {
      meDb := map[];
    }

    method PutMe(cls: uint16, inst: uint16, attrs: Attrs)
      modifies this
      ensures meDb == Put(old(meDb), cls, inst, attrs)
    {
      if cls == ONU_DATA { return; }
      if cls !in meDb {
        meDb := meDb[cls := SetInst(map[], inst, attrs)];
      } else if inst !in meDb[cls] {
        meDb := meDb[cls := SetInst(meDb[cls], inst, attrs)];
      } else {
        var merged := MergeAttribs(meDb[cls][inst], attrs);
        meDb := meDb[cls := SetInst(meDb[cls], inst, merged)];
      }
    }

    /** The attribute loop; the map is iterated in any order. */
    static method MergeAttribs(stored: Attrs, attrs: Attrs) returns (merged: Attrs)
      ensures merged == stored + attrs
    {
      merged := stored;
      var rest := attrs.Keys;
      while rest != {}
        invariant rest <= attrs.Keys
        invariant merged == stored + (map k | k in attrs && k !in rest :: attrs[k])
        decreases rest
      {
        var k :| k in rest;
        merged := merged[k := attrs[k]];
        rest := rest - {k};
      }
    }

    method GetMe(cls: uint16, inst: uint16) returns (attrs: Option<Attrs>)
      ensures attrs == Lookup(meDb, cls, inst)
    {
      if cls in meDb && inst in meDb[cls] { return Some(meDb[cls][inst]); }
      return None;
    }

    /** The keys in ascending order, whatever order the map is iterated in. */
    method GetSortedInstKeys(cls: uint16) returns (keys: seq<uint16>)
      ensures SortedKeysOf(meDb, cls, keys)
    {
      keys := [];
      var rest := Insts(meDb, cls).Keys;
      while rest != {}
        invariant rest <= Insts(meDb, cls).Keys
        invariant Sorted(keys) && Elems(keys) == Insts(meDb, cls).Keys - rest
        decreases rest
      {
        var k :| k in rest;
        assert k !in keys by { assert k !in Elems(keys); }
        InsertKeepsSorted(keys, k);
        assert Elems(InsertSorted(keys, k)) == Elems(keys) + {k};
        keys := InsertSorted(keys, k);
        rest := rest - {k};
      }
    }
  }
}
