/** The MIB upload loop: the handlers of mib_sync.go and the counters of omci_cc.go. */
module MibUpload {
  import opened Types
  import opened MeDb
  import opened MibTemplate

  /** What the ONU reports in one MIB upload next response. */
  datatype Report = Report(cls: uint16, inst: uint16, attrs: Attrs)

  datatype Request = UploadRequest | UploadNext(sequNo: uint16)

  /** The states of the upload FSM around an upload; a timeout leads back to Starting from the last two. */
  datatype UlSt = Starting | Uploading | InSync | Disabled

  datatype Upload = Upload(st: UlSt, sequNo: uint16, noOfCmds: uint16, db: Db, requested: seq<Request>)

  /** Entering ulStUploading with the empty data base of ulStStarting. */
  const ENTERED := Upload(Uploading, 0, 0, map[], [UploadRequest])

  function NextRequest(u: Upload): Upload
    requires u.sequNo < 0xFFFF
  {
    u.(requested := u.requested + [UploadNext(u.sequNo)], sequNo := u.sequNo + 1)
  }

  /** The response to the upload request announces the number of commands. */
  function OnAnnounced(u: Upload, n: uint16): Upload {
    var v := u.(noOfCmds := n);
    if u.sequNo < n then NextRequest(v) else if u.st.Disabled? then v else v.(st := Starting)
  }

  /** Each reported ME is stored; the last one completes the upload and leaves a template behind. */
  function OnReport(u: Upload, r: Report): Upload {
    var v := u.(db := Put(u.db, r.cls, r.inst, r.attrs));
    if u.sequNo < u.noOfCmds then NextRequest(v)
    else v.(db := WithPlaceholders(v.db), st := if u.st.Uploading? then InSync else u.st)
  }

  function Reports(u: Upload, rs: seq<Report>): Upload
    decreases |rs|
  {
    if rs == [] then u else OnReport(Reports(u, rs[..|rs| - 1]), rs[|rs| - 1])
  }

  function PutAll(db: Db, rs: seq<Report>): Db
    decreases |rs|
  {
    if rs == [] then db
    else
      var r := rs[|rs| - 1];
      Put(PutAll(db, rs[..|rs| - 1]), r.cls, r.inst, r.attrs)
  }

  /** The state an object of the adapter's classes is in. */
  class MibUploader {
    var st: UlSt
    var uploadSequNo: uint16
    var uploadNoOfCmds: uint16
    const pOnuDB: OnuDeviceDB
    var requested: seq<Request>

    function State(): Upload
      reads this, pOnuDB
    {
      Upload(st, uploadSequNo, uploadNoOfCmds, pOnuDB.meDb, requested)
    }

    constructor ()
      ensures State() == ENTERED && fresh(pOnuDB)
    {
      pOnuDB := new OnuDeviceDB();
      st, uploadSequNo, uploadNoOfCmds, requested := Uploading, 0, 0, [UploadRequest];
    }

    method SendMibUploadNext()
      requires uploadSequNo < 0xFFFF
      modifies this
      ensures State() == NextRequest(old(State()))
    {
      requested := requested + [UploadNext(uploadSequNo)];
      uploadSequNo := uploadSequNo + 1;
    }

    method HandleUploadResponse(n: uint16)
      modifies this
      ensures State() == OnAnnounced(old(State()), n)
    {
      uploadNoOfCmds := n;
      if uploadSequNo < uploadNoOfCmds {
        SendMibUploadNext();
      } else if !st.Disabled? {
        st := Starting;
      }
    }

    method HandleUploadNextResponse(r: Report, name: string, created: string) returns (template: Option<Json>)
      modifies this, pOnuDB
      ensures State() == OnReport(old(State()), r)
      ensures template == if old(uploadSequNo < uploadNoOfCmds) then None
                          else Some(Template(Put(old(pOnuDB.meDb), r.cls, r.inst, r.attrs), name, created))
    {
      pOnuDB.PutMe(r.cls, r.inst, r.attrs);
      template := None;
      if uploadSequNo < uploadNoOfCmds {
        SendMibUploadNext();
      } else {
        var t := CreateMibTemplate(pOnuDB, name, created);
        template := Some(t);
        if st.Uploading? { st := InSync; }
      }
    }
  }

  // ---- exactness and termination ----

  function Asked(k: nat): seq<Request>
    requires k <= 0xFFFF
  {
    [UploadRequest] + seq(k, i requires 0 <= i < k => UploadNext(i))
  }

  /** After k of N announced reports: requests 0..k are out, N - uploadSequNo has gone down to N - k - 1. */
  lemma {:induction false} Progress(n: uint16, rs: seq<Report>)
    requires |rs| < n
    ensures Reports(OnAnnounced(ENTERED, n), rs) ==
            Upload(Uploading, |rs| + 1, n, PutAll(map[], rs), Asked(|rs| + 1))
    decreases |rs|
  {
    hide Put;
    if rs == [] {
      assert Asked(1) == [UploadRequest] + [UploadNext(0)];
    } else {
      Progress(n, rs[..|rs| - 1]);
      assert Asked(|rs| + 1) == Asked(|rs|) + [UploadNext(|rs|)];
    }
  }

  lemma Completion(n: uint16, rs: seq<Report>)
    requires 0 < n == |rs|
    ensures Reports(OnAnnounced(ENTERED, n), rs) == Upload(InSync, n, n, WithPlaceholders(PutAll(map[], rs)), Asked(n))
  {
    hide Put, WithPlaceholders, Asked, OnAnnounced;
    var front, r := rs[..n - 1], rs[n - 1];
    Progress(n, front);
    var u := Reports(OnAnnounced(ENTERED, n), front);
    assert Reports(OnAnnounced(ENTERED, n), rs) == OnReport(u, r);
    assert PutAll(map[], rs) == Put(PutAll(map[], front), r.cls, r.inst, r.attrs);
    hide Reports, PutAll;
  }

  /** When the ONU announces N > 0 commands and answers every request, the N-th report, and no other,
      completes the upload: the sequence numbers asked for are 0..N-1, once each and in order, and the
      data base holds all reports on top of the empty one, with the template's placeholders. */
  lemma UploadExact(n: uint16, rs: seq<Report>)
    requires 0 < n && |rs| <= n
    ensures var u := Reports(OnAnnounced(ENTERED, n), rs);
            && (u.st.InSync? <==> |rs| == n)
            && u.noOfCmds - u.sequNo == (if |rs| == n then 0 else n - |rs| - 1)
            && |u.requested| == (if |rs| == n then n + 1 else |rs| + 2) && u.requested[0] == UploadRequest
            && (forall k | 1 <= k < |u.requested| :: u.requested[k] == UploadNext(k - 1))
            && u.db == (if |rs| == n then WithPlaceholders(PutAll(map[], rs)) else PutAll(map[], rs))
  {
    hide PutAll, WithPlaceholders, OnAnnounced, Reports;
    if |rs| < n { Progress(n, rs); } else { Completion(n, rs); }
  }

  /** Whatever the ONU announces and however many reports it sends, also unasked ones: it is only in sync
      after a positive number of announced reports, and an ONU that announces none is back in Starting
      for good, with nothing requested but the upload itself. */
  lemma {:induction false} InSyncIff(n: uint16, rs: seq<Report>)
    ensures var u := Reports(OnAnnounced(ENTERED, n), rs);
            && (u.st.InSync? <==> 0 < n <= |rs|)
            && (u.st.Starting? <==> n == 0)
            && u.requested == [UploadRequest]
                              + seq(if |rs| < n then |rs| + 1 else n, i requires 0 <= i < 0xFFFF => UploadNext(i))
            && (n <= |rs| ==> u.sequNo == u.noOfCmds)
    decreases |rs|
  {
    hide Put, WithPlaceholders;
    if |rs| < n {
      Progress(n, rs);
    } else if 0 < n == |rs| {
      Completion(n, rs);
    } else if rs == [] {
      assert Asked(0) == [UploadRequest];
    } else {
      InSyncIff(n, rs[..|rs| - 1]);
    }
  }

  // ---- last writer wins ----

  predicate Mentions(r: Report, c: uint16, i: uint16) { r.cls == c && r.inst == i && c != 2 }

  predicate LastWriter(rs: seq<Report>, c: uint16, i: uint16, name: string, k: nat) {
    && k < |rs| && Mentions(rs[k], c, i) && name in rs[k].attrs
    && forall j | k < j < |rs| :: !(Mentions(rs[j], c, i) && name in rs[j].attrs)
  }

  /** Value of one attribute in the data base, if any. */
  function AttrOf(db: Db, c: uint16, i: uint16, name: string): Option<Value> {
    if Lookup(db, c, i).Some? && name in Lookup(db, c, i).value then Some(Lookup(db, c, i).value[name]) else None
  }

  lemma PutAttr(db: Db, r: Report, c: uint16, i: uint16, name: string)
    ensures AttrOf(Put(db, r.cls, r.inst, r.attrs), c, i, name) ==
            if Mentions(r, c, i) && name in r.attrs then Some(r.attrs[name]) else AttrOf(db, c, i, name)
    ensures Lookup(Put(db, r.cls, r.inst, r.attrs), c, i).Some? <==> Lookup(db, c, i).Some? || Mentions(r, c, i)
  {
  }

  ghost predicate Mentioned(rs: seq<Report>, c: uint16, i: uint16) { exists r :: r in rs && Mentions(r, c, i) }

  ghost predicate Written(rs: seq<Report>, c: uint16, i: uint16, name: string) {
    exists k: nat :: LastWriter(rs, c, i, name, k)
  }

  /** The data base is the per attribute last-writer-wins map of the reports, OnuData dropped. */
  lemma {:induction false} LastWriterWins(rs: seq<Report>, c: uint16, i: uint16, name: string)
    ensures var db := PutAll(map[], rs);
            && (Lookup(db, c, i).Some? <==> Mentioned(rs, c, i))
            && (AttrOf(db, c, i, name).Some? <==> Written(rs, c, i, name))
            && (forall k: nat | LastWriter(rs, c, i, name, k) :: AttrOf(db, c, i, name) == Some(rs[k].attrs[name]))
            && Populated(db)
    decreases |rs|
  {
    if rs != [] {
      var n := |rs| - 1;
      var front, r := rs[..n], rs[n];
      LastWriterWins(front, c, i, name);
      PutAttr(PutAll(map[], front), r, c, i, name);
      PutPopulated(PutAll(map[], front), r.cls, r.inst, r.attrs);
      assert rs == front + [r];
      LastOf(rs, c, i, name);
      hide Put, Lookup, AttrOf, Populated, LastWriter, Mentions;
      if Mentions(r, c, i) && name in r.attrs { assert LastWriter(rs, c, i, name, n); }
    }
  }

  lemma LastOf(rs: seq<Report>, c: uint16, i: uint16, name: string)
    requires rs != []
    ensures var n := |rs| - 1;
            var writes := Mentions(rs[n], c, i) && name in rs[n].attrs;
            forall k: nat :: LastWriter(rs, c, i, name, k) <==>
              if writes then k == n else LastWriter(rs[..n], c, i, name, k)
    ensures forall k: nat | LastWriter(rs, c, i, name, k) ::
              k < |rs| && name in rs[k].attrs && (k < |rs| - 1 ==> rs[..|rs| - 1][k] == rs[k])
  {
  }
}
