/** Finding the priority queues of a gem port in the MIB: prepareAndEnterConfigState. */
module QueueLookup {
  import opened Types
  import opened MeDb

  /** RelatedPort of a priority queue, if the data base holds one it can convert. */
  function RelatedPort(db: Db, queue: uint16): Option<uint32> {
    match Lookup(db, PRIORITY_QUEUE, queue)
    case None => None
    case Some(attrs) => if "RelatedPort" in attrs then Uint32Attrib(attrs["RelatedPort"]) else None
  }

  /** T-Cont in the high half, priority in the low half. */
  function UsPattern(tcont: uint16, prio: uint8): uint32 { tcont * 0x1_0000 + prio }

  /** Port number (counted from 1, in a byte) in bits 16..23, priority below. */
  function DsPattern(uniID: uint8, prio: uint8): uint32 { ((uniID + 1) % 0x100) * 0x1_0000 + prio }

  datatype Pick = Pick(up: Option<uint16>, down: Option<uint16>)

  function Visit(db: Db, us: uint32, ds: uint32, pick: Pick, queue: uint16): Pick {
    match RelatedPort(db, queue)
    case None => pick
    case Some(rp) =>
      if rp == us then pick.(up := Some(queue))
      else if rp % 0x100_0000 == ds && queue < 0x8000 then pick.(down := Some(queue))
      else pick
  }

  /** The search over the sorted queue keys, with its early break. */
  function Scan(db: Db, us: uint32, ds: uint32, pick: Pick, keys: seq<uint16>): Pick
    decreases |keys|
  {
    if keys == [] then pick
    else
      var p := Visit(db, us, ds, pick, keys[0]);
      if RelatedPort(db, keys[0]).Some? && p.up.Some? && p.down.Some? then p
      else Scan(db, us, ds, p, keys[1..])
  }

  predicate Matches(db: Db, us: uint32, queue: uint16) { RelatedPort(db, queue) == Some(us) }

  predicate MatchesDown(db: Db, ds: uint32, queue: uint16) {
    queue < 0x8000 && RelatedPort(db, queue).Some? && RelatedPort(db, queue).value % 0x100_0000 == ds
  }

  /** Among these queues exactly one upstream and one downstream queue fit. */
  predicate UniqueQueues(db: Db, us: uint32, ds: uint32, keys: seq<uint16>, u: uint16, d: uint16) {
    && u in keys && u >= 0x8000 && Matches(db, us, u)
    && d in keys && MatchesDown(db, ds, d)
    && (forall q | q in keys && q >= 0x8000 && Matches(db, us, q) :: q == u)
    && (forall q | q in keys && MatchesDown(db, ds, q) :: q == d)
  }

  /** No queue below 0x8000, the downstream range, carries the upstream pattern. */
  predicate NoLowMatch(db: Db, us: uint32, keys: seq<uint16>) {
    forall q | q in keys && q < 0x8000 :: !Matches(db, us, q)
  }

  /** No low queue interferes: the search passes d, then stops at u. */
  lemma {:induction false} ScanFindsBoth(
    db: Db, us: uint32, ds: uint32, pick: Pick, keys: seq<uint16>, u: uint16, d: uint16)
    requires Sorted(keys) && u in keys && u >= 0x8000 && d < 0x8000 && Matches(db, us, u) && MatchesDown(db, ds, d)
    requires forall q | q in keys :: Matches(db, us, q) ==> q == u
    requires forall q | q in keys :: MatchesDown(db, ds, q) ==> q == d
    requires !Matches(db, us, d)
    requires pick == Pick(None, if d in keys then None else Some(d))
    ensures Scan(db, us, ds, pick, keys) == Pick(Some(u), Some(d))
    decreases |keys|
  {
    assert keys == [keys[0]] + keys[1..] && keys[0] in keys;
    assert forall q | q in keys[1..] :: q in keys;
    if keys[0] == u {
      assert forall q | q in keys :: q >= u;
    } else {
      assert d in keys[1..] ==> keys[0] < d;
      ScanFindsBoth(db, us, ds, Visit(db, us, ds, pick, keys[0]), keys[1..], u, d);
    }
  }

  /** A downstream queue that carries the upstream pattern is taken for an upstream queue. */
  lemma {:induction false} ScanMissesDown(db: Db, us: uint32, ds: uint32, pick: Pick, keys: seq<uint16>)
    requires forall q | q in keys :: MatchesDown(db, ds, q) ==> Matches(db, us, q)
    requires pick.down.None?
    ensures Scan(db, us, ds, pick, keys).down.None?
    decreases |keys|
  {
    if keys != [] {
      assert keys[0] in keys;
      assert forall q | q in keys[1..] :: q in keys;
      ScanMissesDown(db, us, ds, Visit(db, us, ds, pick, keys[0]), keys[1..]);
    }
  }

  lemma SortedTail(keys: seq<uint16>, k: uint16)
    requires Sorted(keys) && k in keys
    ensures Sorted(keys[1..]) && keys[0] in keys && keys[0] <= k && (k == keys[0] || k in keys[1..])
    ensures forall q | q in keys[1..] :: q in keys
  {
    assert keys == [keys[0]] + keys[1..];
  }

  /** The low queue `low` carries the upstream pattern: the search breaks off before it reaches u. */
  lemma {:induction false} ScanStopsEarly(
    db: Db, us: uint32, ds: uint32, pick: Pick, keys: seq<uint16>, u: uint16, d: uint16, low: uint16)
    requires Sorted(keys) && u in keys && u >= 0x8000 && d < 0x8000 && low < 0x8000
    requires MatchesDown(db, ds, d) && !Matches(db, us, d) && Matches(db, us, low)
    requires forall q | q in keys && q >= 0x8000 :: Matches(db, us, q) ==> q == u
    requires pick.up != Some(u) && !(pick.up.Some? && pick.down.Some?)
    requires pick.up.Some? || low in keys
    requires pick.down.Some? || d in keys
    ensures Scan(db, us, ds, pick, keys).up != Some(u)
    decreases |keys|
  {
    hide RelatedPort;
    SortedTail(keys, u);
    if low in keys { SortedTail(keys, low); }
    if d in keys { SortedTail(keys, d); }
    assert keys[0] != u;
    hide Sorted;
    var p := Visit(db, us, ds, pick, keys[0]);
    if !(RelatedPort(db, keys[0]).Some? && p.up.Some? && p.down.Some?) {
      ScanStopsEarly(db, us, ds, p, keys[1..], u, d, low);
    }
  }

  /** Exactly when the early break is harmless: with one fitting upstream and one fitting downstream
      queue, whatever the other queues are, the search picks those two if and only if no queue in the
      downstream range carries the upstream pattern. */
  lemma LookupExact(db: Db, us: uint32, ds: uint32, keys: seq<uint16>, u: uint16, d: uint16)
    requires Sorted(keys) && UniqueQueues(db, us, ds, keys, u, d)
    ensures Scan(db, us, ds, Pick(None, None), keys) == Pick(Some(u), Some(d)) <==> NoLowMatch(db, us, keys)
  {
    if NoLowMatch(db, us, keys) {
      ScanFindsBoth(db, us, ds, Pick(None, None), keys, u, d);
    } else if Matches(db, us, d) {
      ScanMissesDown(db, us, ds, Pick(None, None), keys);
    } else {
      var low :| low in keys && low < 0x8000 && Matches(db, us, low);
      ScanStopsEarly(db, us, ds, Pick(None, None), keys, u, d, low);
    }
  }

  // ---- in terms of the stored attributes ----

  /** The value as a number of 32 bits: stored as one, or a float64, truncated towards zero. */
  predicate IsNumber(v: Value, n: uint32) {
    || v == Uint(32, n)
    || (v.Float? && v.x >= 0.0 && v.x.Floor % 0x1_0000_0000 == n)
    || (v.Float? && v.x < 0.0 && (-(-v.x).Floor) % 0x1_0000_0000 == n)
  }

  /** RelatedPort of priority queue q (class 277). */
  predicate Related(db: Db, q: uint16, n: uint32) {
    277 in db && q in db[277] && "RelatedPort" in db[277][q] && IsNumber(db[277][q]["RelatedPort"], n)
  }

  /** The queue of this priority on this T-Cont. */
  ghost predicate Upstream(db: Db, q: uint16, tcont: uint16, prio: uint8) {
    exists n: uint32 :: Related(db, q, n) && n / 0x1_0000 == tcont && n % 0x1_0000 == prio
  }

  /** The queue of this priority of this UNI, whose ports are counted from 1; the slot does not matter. */
  ghost predicate Downstream(db: Db, q: uint16, uniID: uint8, prio: uint8) {
    exists n: uint32 :: Related(db, q, n) && n / 0x1_0000 % 0x100 == (uniID + 1) % 0x100 && n % 0x1_0000 == prio
  }

  /** u and d are the only queues of the priority in the upstream and in the downstream range, and no
      downstream queue pretends to be an upstream one. */
  ghost predicate OwnQueues(db: Db, tcont: uint16, uniID: uint8, prio: uint8, u: uint16, d: uint16) {
    && u >= 0x8000 && Upstream(db, u, tcont, prio) && d < 0x8000 && Downstream(db, d, uniID, prio)
    && (forall q: uint16 | Upstream(db, q, tcont, prio) :: q == u)
    && (forall q: uint16 | q < 0x8000 && Downstream(db, q, uniID, prio) :: q == d)
  }

  lemma RelatedIs(db: Db, q: uint16, n: uint32)
    ensures RelatedPort(db, q) == Some(n) <==> Related(db, q, n)
  {
  }

  lemma Halves(a: nat, b: nat, n: nat)
    requires b < 0x1_0000
    ensures n == a * 0x1_0000 + b <==> n / 0x1_0000 == a && n % 0x1_0000 == b
  {
  }

  lemma LowBytes(n: nat)
    ensures n % 0x100_0000 == (n / 0x1_0000 % 0x100) * 0x1_0000 + n % 0x1_0000
  {
    var a, b := n / 0x1_0000, n % 0x1_0000;
    var c, e := a / 0x100, a % 0x100;
    assert n == c * 0x100_0000 + (e * 0x1_0000 + b);
  }

  lemma PatternsMean(db: Db, tcont: uint16, uniID: uint8, prio: uint8, q: uint16)
    ensures Matches(db, UsPattern(tcont, prio), q) <==> Upstream(db, q, tcont, prio)
    ensures MatchesDown(db, DsPattern(uniID, prio), q) <==> q < 0x8000 && Downstream(db, q, uniID, prio)
  {
    forall n: uint32
      ensures RelatedPort(db, q) == Some(n) <==> Related(db, q, n)
      ensures n == UsPattern(tcont, prio) <==> n / 0x1_0000 == tcont && n % 0x1_0000 == prio
      ensures n % 0x100_0000 == DsPattern(uniID, prio) <==>
              n / 0x1_0000 % 0x100 == (uniID + 1) % 0x100 && n % 0x1_0000 == prio
    {
      RelatedIs(db, q, n);
      Halves(tcont, prio, n);
      LowBytes(n);
      Halves((uniID + 1) % 0x100, prio, n % 0x100_0000);
      Halves(n / 0x1_0000 % 0x100, n % 0x1_0000, n % 0x100_0000);
    }
    hide RelatedPort, Related, UsPattern, DsPattern;
  }

  /** What the search asks for, in these terms. */
  lemma OwnQueuesAre(db: Db, keys: seq<uint16>, tcont: uint16, uniID: uint8, prio: uint8, u: uint16, d: uint16)
    requires SortedKeysOf(db, 277, keys)
    ensures (UniqueQueues(db, UsPattern(tcont, prio), DsPattern(uniID, prio), keys, u, d)
             && NoLowMatch(db, UsPattern(tcont, prio), keys))
            <==> OwnQueues(db, tcont, uniID, prio, u, d)
  {
    forall q: uint16
      ensures Matches(db, UsPattern(tcont, prio), q) <==> Upstream(db, q, tcont, prio)
      ensures MatchesDown(db, DsPattern(uniID, prio), q) <==> q < 0x8000 && Downstream(db, q, uniID, prio)
      ensures Upstream(db, q, tcont, prio) || Downstream(db, q, uniID, prio) ==> q in keys
    {
      PatternsMean(db, tcont, uniID, prio, q);
      assert q in keys <==> q in Elems(keys);
    }
    hide Matches, MatchesDown, Upstream, Downstream, UsPattern, DsPattern, Sorted;
  }

  // ---- whatever the queues are ----

  /** The last of the first n queues that carries the upstream pattern. */
  ghost predicate LastUp(db: Db, us: uint32, keys: seq<uint16>, n: nat, found: Option<uint16>)
    requires n <= |keys|
  {
    if found.None? then forall i | 0 <= i < n :: !Matches(db, us, keys[i])
    else exists i :: 0 <= i < n && keys[i] == found.value && Matches(db, us, keys[i])
                     && forall k | i < k < n :: !Matches(db, us, keys[k])
  }

  /** The last of the first n queues that fits downstream and is not taken for an upstream queue. */
  ghost predicate LastDown(db: Db, us: uint32, ds: uint32, keys: seq<uint16>, n: nat, found: Option<uint16>)
    requires n <= |keys|
  {
    if found.None? then forall i | 0 <= i < n :: !MatchesDown(db, ds, keys[i]) || Matches(db, us, keys[i])
    else exists i :: 0 <= i < n && keys[i] == found.value && MatchesDown(db, ds, keys[i]) && !Matches(db, us, keys[i])
                     && forall k | i < k < n :: !MatchesDown(db, ds, keys[k]) || Matches(db, us, keys[k])
  }

  /** After n queues the search has seen the last fitting one each way. */
  ghost predicate Seen(db: Db, us: uint32, ds: uint32, keys: seq<uint16>, n: nat, pick: Pick)
    requires n <= |keys|
  {
    LastUp(db, us, keys, n, pick.up) && LastDown(db, us, ds, keys, n, pick.down)
  }

  /** The first n queues do not hold a fitting one each way. */
  ghost predicate Lacking(db: Db, us: uint32, ds: uint32, keys: seq<uint16>, n: nat)
    requires n <= |keys|
  {
    exists p :: Seen(db, us, ds, keys, n, p) && !(p.up.Some? && p.down.Some?)
  }

  lemma SeenMore(db: Db, us: uint32, ds: uint32, keys: seq<uint16>, n: nat, pick: Pick)
    requires n < |keys| && Seen(db, us, ds, keys, n, pick)
    ensures Seen(db, us, ds, keys, n + 1, Visit(db, us, ds, pick, keys[n]))
  {
    var p := Visit(db, us, ds, pick, keys[n]);
    assert Matches(db, us, keys[n]) ==> p == pick.(up := Some(keys[n]));
    assert !Matches(db, us, keys[n]) && MatchesDown(db, ds, keys[n]) ==> p == pick.(down := Some(keys[n]));
    assert !Matches(db, us, keys[n]) && !MatchesDown(db, ds, keys[n]) ==> p == pick;
    hide Visit, Matches, MatchesDown;
    if !Matches(db, us, keys[n]) && pick.up.Some? {
      var i :| 0 <= i < n && keys[i] == pick.up.value && Matches(db, us, keys[i])
               && forall k | i < k < n :: !Matches(db, us, keys[k]);
      assert LastUp(db, us, keys, n + 1, pick.up);
    }
  }

  lemma {:induction false} ScanStops(db: Db, us: uint32, ds: uint32, keys: seq<uint16>, n: nat, pick: Pick)
    returns (stop: nat)
    requires n <= |keys| && Seen(db, us, ds, keys, n, pick) && !(pick.up.Some? && pick.down.Some?)
    ensures n <= stop <= |keys| && Seen(db, us, ds, keys, stop, Scan(db, us, ds, pick, keys[n..]))
    ensures var p := Scan(db, us, ds, pick, keys[n..]); (p.up.Some? && p.down.Some?) || stop == |keys|
    ensures forall m | n <= m < stop :: Lacking(db, us, ds, keys, m)
    decreases |keys| - n
  {
    hide Seen, Visit;
    assert Lacking(db, us, ds, keys, n);
    hide Lacking;
    if n == |keys| {
      stop := n;
    } else {
      SeenMore(db, us, ds, keys, n, pick);
      NewlyFound(db, us, ds, pick, keys[n]);
      assert keys[n..][0] == keys[n] && keys[n..][1..] == keys[n + 1..];
      var p := Visit(db, us, ds, pick, keys[n]);
      if p.up.Some? && p.down.Some? {
        stop := n + 1;
      } else {
        stop := ScanStops(db, us, ds, keys, n + 1, p);
      }
    }
  }

  lemma NewlyFound(db: Db, us: uint32, ds: uint32, pick: Pick, q: uint16)
    ensures Visit(db, us, ds, pick, q) != pick ==> RelatedPort(db, q).Some?
  {
  }

  /** Whatever queues there are, the search looks at them in order up to the first point at which it has found one
      each way, or at all of them; its result is the last fitting queue each way up to there. */
  lemma ScanMeaning(db: Db, us: uint32, ds: uint32, keys: seq<uint16>)
    ensures var p := Scan(db, us, ds, Pick(None, None), keys);
            exists stop: nat ::
              && stop <= |keys| && Seen(db, us, ds, keys, stop, p)
              && (stop == |keys| || (p.up.Some? && p.down.Some?))
              && forall m: nat | m < stop :: Lacking(db, us, ds, keys, m)
  {
    assert keys[0..] == keys;
    assert Seen(db, us, ds, keys, 0, Pick(None, None));
    hide Seen;
    var stop := ScanStops(db, us, ds, keys, 0, Pick(None, None));
  }

  /** The usual numbering rules interference out: T-Conts live at 0x8000 and above, and the slot in
      a downstream queue's RelatedPort is below 0x80. */
  lemma UsualNumberingIsSafe(db: Db, tcont: uint16, prio: uint8, keys: seq<uint16>)
    requires tcont >= 0x8000
    requires forall q | q in keys && q < 0x8000 ::
               RelatedPort(db, q).Some? ==> RelatedPort(db, q).value < 0x8000_0000
    ensures NoLowMatch(db, UsPattern(tcont, prio), keys)
  {
  }

  /** The search loop. `up` and `down` keep the previous gem port's queues when none is found,
      because the working record lives outside the loop over the gem ports. */
  method FindQueues(db: OnuDeviceDB, keys: seq<uint16>, us: uint32, ds: uint32, up0: uint16, down0: uint16)
    returns (up: uint16, down: uint16, usFound: bool, dsFound: bool)
    ensures var pick := Scan(db.meDb, us, ds, Pick(None, None), keys);
            && usFound == pick.up.Some? && dsFound == pick.down.Some?
            && up == (if usFound then pick.up.value else up0)
            && down == (if dsFound then pick.down.value else down0)
  {
    up, down, usFound, dsFound := up0, down0, false, false;
    var i := 0;
    while i < |keys|
      invariant 0 <= i <= |keys|
      invariant var p := Pick(if usFound then Some(up) else None, if dsFound then Some(down) else None);
                Scan(db.meDb, us, ds, Pick(None, None), keys) == Scan(db.meDb, us, ds, p, keys[i..])
      invariant (usFound || up == up0) && (dsFound || down == down0)
    {
      var queue := keys[i];
      assert keys[i..][0] == queue && keys[i..][1..] == keys[i + 1..];
      var attrs := db.GetMe(PRIORITY_QUEUE, queue);
      if attrs.Some? && "RelatedPort" in attrs.value {
        var rp := Uint32Attrib(attrs.value["RelatedPort"]);
        if rp.Some? {
          if rp.value == us {
            up, usFound := queue, true;
          } else if rp.value % 0x100_0000 == ds && queue < 0x8000 {
            down, dsFound := queue, true;
          }
          if usFound && dsFound { break; }
        }
      }
      i := i + 1;
    }
  }
}
