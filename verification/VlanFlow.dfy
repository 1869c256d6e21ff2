/** Reading an OpenFlow flow entry: getFlowOfbFields, getFlowActions and addFlowItemToUniPort. */
module VlanFlow {
  import opened Types

  datatype OfbField =
    | IpProto(proto: uint32)
    | VlanVid(vid: uint32, mask: uint32)
    | VlanPcp(pcp: uint32)
    | OtherField  // logged only

  /** An action that sets a field does so whatever the field's class: another class only warns. */
  datatype Action = SetField(field: OfbField) | OtherAction

  datatype Flow = Flow(metadata: nat, fields: seq<OfbField>, actions: seq<Action>)

  const VID_NONE: uint16 := 0
  const VID_PRESENT: uint16 := 0x1000
  const IGMP: uint32 := 2

  function MatchedVid(vid: uint32, mask: uint32): uint16 {
    if vid % 0x1_0000 == VID_PRESENT && mask % 0x1_0000 == VID_PRESENT then VID_PRESENT else (vid % 0x1_0000) % 0x1000
  }

  // ---- the match fields ----

  predicate IsIgmp(f: OfbField) { f == IpProto(IGMP) }

  /** The last VLAN_VID before the loop ends, VID_PRESENT if there is none. */
  function MatchVid(fields: seq<OfbField>): uint16
    decreases |fields|
  {
    if fields == [] then VID_PRESENT
    else
      var f := fields[|fields| - 1];
      if f.VlanVid? then MatchedVid(f.vid, f.mask) else MatchVid(fields[..|fields| - 1])
  }

  predicate HasIgmp(fields: seq<OfbField>) { exists i :: 0 <= i < |fields| && IsIgmp(fields[i]) }

  method GetFlowOfbFields(fields: seq<OfbField>) returns (matchVlan: uint16, ipProto: uint32)
    ensures ipProto == IGMP <==> HasIgmp(fields)
    ensures ipProto != IGMP ==> matchVlan == MatchVid(fields)
  {
    matchVlan, ipProto := VID_PRESENT, 0;
    var i := 0;
    while i < |fields|
      invariant 0 <= i <= |fields|
      invariant ipProto != IGMP && !HasIgmp(fields[..i])
      invariant matchVlan == MatchVid(fields[..i])
    {
      assert fields[..i + 1][..i] == fields[..i];
      match fields[i] {
        case IpProto(p) =>
          ipProto := p;
          if p == IGMP { assert IsIgmp(fields[i]); return; }
        case VlanVid(v, m) =>
          matchVlan := v % 0x1_0000;
          if !(matchVlan == VID_PRESENT && m % 0x1_0000 == VID_PRESENT) {
            matchVlan := matchVlan % 0x1000;
          }
        case _ =>
      }
      i := i + 1;
    }
    assert fields[..i] == fields;
  }

  // ---- the actions ----

  function SetVid(actions: seq<Action>): uint16
    decreases |actions|
  {
    if actions == [] then VID_NONE
    else
      var a := actions[|actions| - 1];
      if a.SetField? && a.field.VlanVid? then a.field.vid % 0x1_0000 else SetVid(actions[..|actions| - 1])
  }

  function SetPcp(actions: seq<Action>): uint8
    decreases |actions|
  {
    if actions == [] then 0
    else
      var a := actions[|actions| - 1];
      if a.SetField? && a.field.VlanPcp? then a.field.pcp % 0x100 else SetPcp(actions[..|actions| - 1])
  }

  method GetFlowActions(actions: seq<Action>) returns (setPcp: uint8, setVlan: uint16)
    ensures setPcp == SetPcp(actions) && setVlan == SetVid(actions)
  {
    setPcp, setVlan := 0, VID_NONE;
    var i := 0;
    while i < |actions|
      invariant 0 <= i <= |actions|
      invariant setPcp == SetPcp(actions[..i]) && setVlan == SetVid(actions[..i])
    {
      assert actions[..i + 1][..i] == actions[..i];
      if actions[i].SetField? {
        if actions[i].field.VlanVid? {
          setVlan := actions[i].field.vid % 0x1_0000;
        } else if actions[i].field.VlanPcp? {
          setPcp := actions[i].field.pcp % 0x100;
        }
      }
      i := i + 1;
    }
    assert actions[..i] == actions;
  }

  // ---- the decision ----

  datatype Reason = InvalidMetadata | SetVidMissing | FsmRunning
  datatype Decision =
    | Reject(reason: Reason)
    | Skip
    | Configure(tpID: uint16, matchVid: uint16, setVid: uint16, setPcp: uint8)

  function Decide(f: Flow, running: bool): Decision {
    if f.metadata == 0 then Reject(InvalidMetadata)
    else if HasIgmp(f.fields) then Skip
    else
      var m, s := MatchVid(f.fields), SetVid(f.actions);
      if s == VID_NONE && m != VID_PRESENT then Reject(SetVidMissing)
      else if running then Reject(FsmRunning)
      else
        Configure((f.metadata / 0x1_0000_0000) % 0x1_0000, m,
                  if s == VID_NONE || s == VID_PRESENT then VID_PRESENT else s % 0x1000, SetPcp(f.actions))
  }

  lemma {:induction false} MatchVidRange(fields: seq<OfbField>)
    ensures MatchVid(fields) <= VID_PRESENT
    decreases |fields|
  {
    if fields != [] { MatchVidRange(fields[..|fields| - 1]); }
  }

  predicate LastMatch(fields: seq<OfbField>, k: nat) {
    k < |fields| && fields[k].VlanVid? && forall j | k < j < |fields| :: !fields[j].VlanVid?
  }

  /** The last VLAN_VID decides; without one, or with the transparent value and mask, any VID matches. */
  lemma {:induction false} MatchVidIsLast(fields: seq<OfbField>)
    ensures (exists k: nat :: LastMatch(fields, k) && MatchVid(fields) == MatchedVid(fields[k].vid, fields[k].mask))
            || (MatchVid(fields) == VID_PRESENT && forall k | 0 <= k < |fields| :: !fields[k].VlanVid?)
    decreases |fields|
  {
    hide MatchedVid;
    if fields != [] {
      var n := |fields| - 1;
      if fields[n].VlanVid? {
        assert LastMatch(fields, n);
      } else {
        var front := fields[..n];
        MatchVidIsLast(front);
        if k: nat :| LastMatch(front, k) && MatchVid(front) == MatchedVid(front[k].vid, front[k].mask) {
          assert LastMatch(fields, k);
        }
      }
    }
  }

  predicate LastSet(actions: seq<Action>, k: nat, vid: uint32) {
    && k < |actions| && actions[k].SetField? && actions[k].field.VlanVid? && actions[k].field.vid == vid
    && forall j | k < j < |actions| :: !(actions[j].SetField? && actions[j].field.VlanVid?)
  }

  lemma {:induction false} SetVidIsLast(actions: seq<Action>)
    ensures (exists k: nat, vid: uint32 :: LastSet(actions, k, vid) && SetVid(actions) == vid % 0x1_0000)
            || (SetVid(actions) == VID_NONE
                && forall k | 0 <= k < |actions| :: !(actions[k].SetField? && actions[k].field.VlanVid?))
    decreases |actions|
  {
    if actions != [] {
      var n := |actions| - 1;
      var front := actions[..n];
      if actions[n].SetField? && actions[n].field.VlanVid? {
        assert LastSet(actions, n, actions[n].field.vid);
      } else {
        SetVidIsLast(front);
        if k: nat, vid: uint32 :| LastSet(front, k, vid) && SetVid(front) == vid % 0x1_0000 {
          assert LastSet(actions, k, vid);
        }
      }
    }
  }

  predicate LastPcp(actions: seq<Action>, k: nat, pcp: uint32) {
    && k < |actions| && actions[k].SetField? && actions[k].field == VlanPcp(pcp)
    && forall j | k < j < |actions| :: !(actions[j].SetField? && actions[j].field.VlanPcp?)
  }

  lemma {:induction false} SetPcpIsLast(actions: seq<Action>)
    ensures (exists k: nat, pcp: uint32 :: LastPcp(actions, k, pcp) && SetPcp(actions) == pcp % 0x100)
            || (SetPcp(actions) == 0
                && forall k | 0 <= k < |actions| :: !(actions[k].SetField? && actions[k].field.VlanPcp?))
    decreases |actions|
  {
    if actions != [] {
      var n := |actions| - 1;
      var front := actions[..n];
      if actions[n].SetField? && actions[n].field.VlanPcp? {
        assert LastPcp(actions, n, actions[n].field.pcp);
      } else {
        SetPcpIsLast(front);
        if k: nat, pcp: uint32 :| LastPcp(front, k, pcp) && SetPcp(front) == pcp % 0x100 {
          assert LastPcp(actions, k, pcp);
        }
      }
    }
  }

  // ---- what a flow says, field by field ----

  predicate TrapsIgmp(f: Flow) { exists i :: 0 <= i < |f.fields| && f.fields[i] == IpProto(2) }

  /** No VLAN_VID field, or the last one is the reserved value with the reserved mask. */
  ghost predicate MatchesAnyVid(fields: seq<OfbField>) {
    || (forall k | 0 <= k < |fields| :: !fields[k].VlanVid?)
    || exists k: nat ::
         LastMatch(fields, k) && fields[k].vid % 0x1_0000 == 0x1000 && fields[k].mask % 0x1_0000 == 0x1000
  }

  /** The last action that sets a VID sets one whose 16 bits are not zero. */
  ghost predicate SetsVid(actions: seq<Action>) {
    exists k: nat, vid: uint32 :: LastSet(actions, k, vid) && vid % 0x1_0000 != 0
  }

  lemma MatchVidMeaning(fields: seq<OfbField>)
    ensures MatchesAnyVid(fields) <==> MatchVid(fields) == 0x1000
    ensures !MatchesAnyVid(fields) ==>
              exists k: nat :: LastMatch(fields, k) && MatchVid(fields) == (fields[k].vid % 0x1_0000) % 0x1000
  {
    MatchVidIsLast(fields);
  }

  lemma SetVidMeaning(actions: seq<Action>)
    ensures SetsVid(actions) <==> SetVid(actions) != 0
    ensures SetsVid(actions) ==>
              exists k: nat, vid: uint32 :: LastSet(actions, k, vid) && SetVid(actions) == vid % 0x1_0000
  {
    SetVidIsLast(actions);
  }

  /** The tech profile stands in bits 32 to 47 of the metadata, the match is the last VLAN_VID or any, the new VID
      the last one set or transparent, the priority the last one set or 0. */
  ghost predicate Configures(d: Decision, f: Flow) {
    && d.Configure?
    && d.tpID == f.metadata / 0x1_0000_0000 % 0x1_0000
    && (if MatchesAnyVid(f.fields) then d.matchVid == 0x1000
        else exists k: nat :: LastMatch(f.fields, k) && d.matchVid == (f.fields[k].vid % 0x1_0000) % 0x1000)
    && (if !SetsVid(f.actions) then d.setVid == 0x1000
        else exists k: nat, vid: uint32 ::
               LastSet(f.actions, k, vid)
               && d.setVid == if vid % 0x1_0000 == 0x1000 then 0x1000 else (vid % 0x1_0000) % 0x1000)
    && (if forall k | 0 <= k < |f.actions| :: !(f.actions[k].SetField? && f.actions[k].field.VlanPcp?)
        then d.setPcp == 0
        else exists k: nat, pcp: uint32 :: LastPcp(f.actions, k, pcp) && d.setPcp == pcp % 0x100)
  }

  /** What the flow leads to, each with its exact condition. */
  ghost predicate Decided(f: Flow, running: bool, d: Decision) {
    && (d == Reject(InvalidMetadata) <==> f.metadata == 0)
    && (d == Skip <==> f.metadata != 0 && TrapsIgmp(f))
    && (d == Reject(SetVidMissing) <==>
          f.metadata != 0 && !TrapsIgmp(f) && !MatchesAnyVid(f.fields) && !SetsVid(f.actions))
    && (d == Reject(FsmRunning) <==>
          f.metadata != 0 && !TrapsIgmp(f) && (MatchesAnyVid(f.fields) || SetsVid(f.actions)) && running)
    && (d.Configure? <==>
          f.metadata != 0 && !TrapsIgmp(f) && (MatchesAnyVid(f.fields) || SetsVid(f.actions)) && !running)
    && (d.Configure? ==> Configures(d, f))
  }

  lemma DecideMeaning(f: Flow, running: bool)
    ensures Decided(f, running, Decide(f, running))
  {
    assert TrapsIgmp(f) <==> HasIgmp(f.fields) by {
      if i :| 0 <= i < |f.fields| && f.fields[i] == IpProto(2) { assert IsIgmp(f.fields[i]); }
    }
    MatchVidMeaning(f.fields);
    SetVidMeaning(f.actions);
    SetPcpIsLast(f.actions);
    hide MatchesAnyVid, SetsVid, MatchVid, SetVid, SetPcp, TrapsIgmp, HasIgmp, LastMatch, LastSet;
  }

  method AddFlowItemToUniPort(f: Flow, running: bool) returns (d: Decision)
    ensures d == Decide(f, running) && Decided(f, running, d)
  {
    DecideMeaning(f, running);
    hide Decided;
    if f.metadata == 0 { return Reject(InvalidMetadata); }
    var tpID := (f.metadata / 0x1_0000_0000) % 0x1_0000;
    var matchVlan, ipProto := GetFlowOfbFields(f.fields);
    if ipProto == IGMP { return Skip; }
    var setPcp, setVlan := GetFlowActions(f.actions);
    if setVlan == VID_NONE && matchVlan != VID_PRESENT { return Reject(SetVidMissing); }
    if setVlan == VID_NONE && matchVlan == VID_PRESENT {
      setVlan := matchVlan;
    } else if setVlan != VID_PRESENT {
      setVlan := setVlan % 0x1000;
    }
    if running { return Reject(FsmRunning); }
    return Configure(tpID, matchVlan, setVlan, setPcp);
  }

  /** What the rest of the compiler relies on: accepted VIDs are at most 0x1000, only flows that set
      no VID may match none, and the priority is limited to eight bits but not to three. */
  lemma AcceptedRanges(f: Flow, running: bool)
    ensures var d := Decide(f, running);
            d.Configure? ==>
              && d.matchVid <= VID_PRESENT && d.setVid <= VID_PRESENT
              && !HasIgmp(f.fields) && d.setPcp == SetPcp(f.actions)
              && (d.setVid == VID_PRESENT <==> SetVid(f.actions) == VID_PRESENT || SetVid(f.actions) == VID_NONE)
              && (SetVid(f.actions) == VID_NONE ==> d.matchVid == VID_PRESENT)
              && (d.setVid != VID_PRESENT ==>
                    exists k: nat, vid: uint32 ::
                      LastSet(f.actions, k, vid) && d.setVid == (vid % 0x1_0000) % 0x1000)
  {
    MatchVidRange(f.fields);
    SetVidIsLast(f.actions);
  }
}
