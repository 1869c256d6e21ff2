/** Reading the ANI side configuration of a UNI from its tech profile: onu_uni_tp.go. */
module TechProfile {
  import opened Types
  import opened Decimal

  /** One upstream gem port of a tech profile instance. */
  datatype GemContent = GemContent(
    gemportID: uint32, priorityQueue: uint32, pbitMap: string, aesEncryption: string,
    discardPolicy: string, schedulingPolicy: string, weight: uint32)

  datatype Profile = Profile(allocID: uint32, qSchedPolicy: string, numGemPorts: uint32, upstream: seq<GemContent>)

  /** What the KV store gives for the path. */
  datatype Fetched = Failed | Missing | Malformed | Fetched(profile: Profile)

  datatype GemPort = GemPort(
    gemPortID: uint16, direction: uint8, encState: uint8, prioQueueIndex: uint8, pbitString: string,
    discardPolicy: string, queueSchedPolicy: string, queueWeight: uint8)

  datatype AniConfig = AniConfig(allocID: uint16, schedPolicy: uint8, gems: map<uint16, GemPort>)

  datatype Indication = Indication(profileType: string, profileID: uint16, configDone: bool)

  function TrimBinaryPrefix(s: string): string { if |s| >= 2 && s[..2] == "0b" then s[2..] else s }

  /** Wider numbers of the profile lose their upper bits. */
  function GemOf(c: GemContent): GemPort {
    GemPort(c.gemportID % 0x1_0000, 3, if c.aesEncryption == "True" then 1 else 0, c.priorityQueue % 0x100,
            TrimBinaryPrefix(c.pbitMap), c.discardPolicy, c.schedulingPolicy, c.weight % 0x100)
  }

  /** How many list elements the loop reads. */
  function Count(p: Profile): nat { if p.numGemPorts < |p.upstream| then p.numGemPorts else |p.upstream| }

  function Gems(contents: seq<GemContent>): map<uint16, GemPort>
    decreases |contents|
  {
    if contents == [] then map[]
    else
      var n := |contents| - 1;
      Gems(contents[..n])[n % 0x1_0000 := GemOf(contents[n])]
  }

  predicate PriosValid(contents: seq<GemContent>) { forall i | 0 <= i < |contents| :: contents[i].priorityQueue <= 7 }

  /** The profile is taken over: at least one gem port, and no priority above 7 among those read. */
  predicate Accepted(p: Profile) { Count(p) >= 1 && PriosValid(p.upstream[..Count(p)]) }

  function ConfigOf(p: Profile): AniConfig {
    AniConfig(p.allocID % 0x1_0000, if p.qSchedPolicy == "StrictPrio" then 1 else 2, Gems(p.upstream[..Count(p)]))
  }

  /** The indication of a UNI takes over the profile's type and, if it is a number, the low half of its ID;
      whether the configuration is done stays as it was. */
  function Noted(m: map<uint8, Indication>, uniID: uint8, profileType: string, idText: string): map<uint8, Indication> {
    var old_ := if uniID in m then m[uniID] else Indication("", 0, false);
    var id := ParseUint32(idText);
    m[uniID := Indication(profileType, if id.Some? then id.value % 0x1_0000 else old_.profileID, old_.configDone)]
  }

  lemma NotedHas(m: map<uint8, Indication>, uniID: uint8, profileType: string, idText: string)
    ensures Noted(m, uniID, profileType, idText).Keys == m.Keys + {uniID}
  {
  }

  class OnuUniTechProf {
    var mapUniTpIndication: map<uint8, Indication>
    var mapPonAniConfig: map<uint8, AniConfig>

    /** Every configured UNI has an indication. */
    ghost predicate Valid()
      reads this
    {
      mapPonAniConfig.Keys <= mapUniTpIndication.Keys
    }

    constructor ()
      ensures Valid() && mapPonAniConfig == map[] && mapUniTpIndication == map[]
    {
      mapUniTpIndication, mapPonAniConfig := map[], map[];
    }

    /** The gem port loop; false is the rejection of a priority. */
    method ReadGemPorts(uniID: uint8, p: Profile) returns (ok: bool, read: bool)
      requires uniID in mapPonAniConfig && mapPonAniConfig[uniID].gems == map[]
      modifies this`mapPonAniConfig
      ensures ok <==> PriosValid(p.upstream[..Count(p)])
      ensures ok ==> (read <==> Count(p) >= 1)
      ensures mapPonAniConfig ==
              if ok
              then old(mapPonAniConfig)[uniID := old(mapPonAniConfig[uniID]).(gems := Gems(p.upstream[..Count(p)]))]
              else old(mapPonAniConfig) - {uniID}
    {
      read := false;
      ghost var was := mapPonAniConfig;
      var pos := 0;
      while pos < |p.upstream| && pos != p.numGemPorts
        invariant 0 <= pos <= Count(p) && (read <==> pos >= 1)
        invariant PriosValid(p.upstream[..pos])
        invariant mapPonAniConfig == was[uniID := was[uniID].(gems := Gems(p.upstream[..pos]))]
      {
        var content := p.upstream[pos];
        read := true;
        if 7 < content.priorityQueue {
          mapPonAniConfig := mapPonAniConfig - {uniID};
          assert p.upstream[..Count(p)][pos] == content;
          return false, read;
        }
        var config := mapPonAniConfig[uniID];
        assert p.upstream[..pos + 1][..pos] == p.upstream[..pos];
        mapPonAniConfig := mapPonAniConfig[uniID := config.(gems := config.gems[pos % 0x1_0000 := GemOf(content)])];
        pos := pos + 1;
      }
      return true, read;
    }

    /** A new profile displaces what the UNI had before. */
    method NoteProfile(uniID: uint8, profileType: string, idText: string) returns (ok: bool)
      requires Valid()
      modifies this
      ensures Valid() && mapPonAniConfig == old(mapPonAniConfig) - {uniID}
      ensures mapUniTpIndication == Noted(old(mapUniTpIndication), uniID, profileType, idText)
      ensures ok <==> ParseUint32(idText).Some?
    {
      hide ParseUint32;
      if uniID in mapUniTpIndication {
        mapPonAniConfig := mapPonAniConfig - {uniID};
      } else {
        mapUniTpIndication := mapUniTpIndication[uniID := Indication("", 0, false)];
      }
      mapUniTpIndication := mapUniTpIndication[uniID := mapUniTpIndication[uniID].(profileType := profileType)];
      var profID := ParseUint32(idText);
      if profID.None? { return false; }
      var indication := mapUniTpIndication[uniID].(profileID := profID.value % 0x1_0000);
      mapUniTpIndication := mapUniTpIndication[uniID := indication];
      return true;
    }

    /** `path` is the profile's path, split at its slashes; the result is the processing step or 0. */
    method ReadAniSideConfigFromTechProfile(uniID: uint8, path: seq<string>, fetched: Fetched, step: uint8)
      returns (done: uint8)
      requires Valid()
      modifies this
      ensures Valid()
      ensures var ok := |path| > 2 && ParseUint32(path[1]).Some? && fetched.Fetched? && Accepted(fetched.profile);
              && done == (if ok then step else 0)
              && mapPonAniConfig ==
                 (if ok then old(mapPonAniConfig)[uniID := ConfigOf(fetched.profile)]
                  else if |path| > 2 then old(mapPonAniConfig) - {uniID} else old(mapPonAniConfig))
              && mapUniTpIndication ==
                 (if |path| > 2 then Noted(old(mapUniTpIndication), uniID, path[0], path[1])
                  else old(mapUniTpIndication))
    {
      hide Gems, GemOf, PriosValid, Count, ParseUint32, Noted;
      if |path| > 2 { NotedHas(mapUniTpIndication, uniID, path[0], path[1]); }
      if |path| <= 2 { return 0; }
      var parsed := NoteProfile(uniID, path[0], path[1]);
      if !parsed || !fetched.Fetched? { return 0; }
      var p := fetched.profile;
      var sched := if p.qSchedPolicy == "StrictPrio" then 1 else 2;
      mapPonAniConfig := mapPonAniConfig[uniID := AniConfig(p.allocID % 0x1_0000, sched, map[])];
      var ok, read := ReadGemPorts(uniID, p);
      if !ok { return 0; }
      if !read {
        mapPonAniConfig := mapPonAniConfig - {uniID};
        return 0;
      }
      return step;
    }
  }

  // ---- what a success means ----

  lemma {:induction false} GemsOfList(contents: seq<GemContent>)
    requires |contents| <= 0x1_0000
    ensures forall i: uint16 :: i in Gems(contents) <==> i < |contents|
    ensures forall i: uint16 | i < |contents| :: Gems(contents)[i] == GemOf(contents[i])
    decreases |contents|
  {
    hide GemOf;
    if contents != [] { GemsOfList(contents[..|contents| - 1]); }
  }

  predicate HasGem(gems: map<uint16, GemPort>, i: nat) { i < 0x1_0000 && i in gems }

  /** The gem ports are numbered like the list. */
  ghost predicate LikeList(gems: map<uint16, GemPort>, contents: seq<GemContent>) {
    && (forall i: nat :: HasGem(gems, i) <==> i < |contents|)
    && forall i: nat | i < |contents| && HasGem(gems, i) :: gems[i] == GemOf(contents[i])
  }

  lemma SmallPrio(c: GemContent)
    requires c.priorityQueue <= 7
    ensures GemOf(c).prioQueueIndex <= 7
  {
  }

  /** All or nothing, seen from a taken over profile: its gem ports are 0..k-1 with k the smaller of the
      list's length and the announced number, each from its list element, none with a priority above 7;
      exactly as long as the list does not outgrow the 16-bit index. */
  lemma AcceptedProfile(p: Profile)
    requires Accepted(p)
    ensures Count(p) >= 1 && (Count(p) == p.numGemPorts || Count(p) == |p.upstream|)
    ensures LikeList(ConfigOf(p).gems, p.upstream[..Count(p)]) <==> Count(p) <= 0x1_0000
    ensures Count(p) <= 0x1_0000 ==> forall i | i in ConfigOf(p).gems :: ConfigOf(p).gems[i].prioQueueIndex <= 7
  {
    var contents := p.upstream[..Count(p)];
    hide Gems, GemOf;
    if Count(p) <= 0x1_0000 {
      GemsOfList(contents);
      forall i | i in ConfigOf(p).gems ensures ConfigOf(p).gems[i].prioQueueIndex <= 7 {
        assert contents[i].priorityQueue <= 7;
        SmallPrio(contents[i]);
      }
    } else {
      assert !HasGem(ConfigOf(p).gems, 0x1_0000);
    }
  }

  /** What a profile's path leaves behind for its UNI and for no other: its type, the low half of its number if it
      is one of 32 bits, and the mark of a configuration done before. */
  lemma IndicationMeaning(m: map<uint8, Indication>, uniID: uint8, profileType: string, n: nat)
    ensures var noted := Noted(m, uniID, profileType, Itoa(n));
            && noted.Keys == m.Keys + {uniID} && (forall u | u in m && u != uniID :: noted[u] == m[u])
            && noted[uniID].profileType == profileType
            && (n < 0x1_0000_0000 ==> noted[uniID].profileID == n % 0x1_0000)
            && (n >= 0x1_0000_0000 ==> noted[uniID].profileID == if uniID in m then m[uniID].profileID else 0)
            && (noted[uniID].configDone <==> uniID in m && m[uniID].configDone)
  {
    ParseRange(n);
    hide ParseUint32, Itoa;
  }

  /** Every field of a gem port, from its list element. */
  predicate GemRead(c: GemContent, g: GemPort) {
    && g.gemPortID == c.gemportID % 0x1_0000 && g.direction == 3 && g.prioQueueIndex == c.priorityQueue % 0x100
    && g.pbitString == (if |c.pbitMap| >= 2 && c.pbitMap[..2] == "0b" then c.pbitMap[2..] else c.pbitMap)
    && g.encState == (if c.aesEncryption == "True" then 1 else 0) && g.discardPolicy == c.discardPolicy
    && g.queueSchedPolicy == c.schedulingPolicy && g.queueWeight == c.weight % 0x100
  }

  /** When a profile is taken over, and what becomes of it. */
  lemma ConfigMeaning(p: Profile)
    ensures Accepted(p) <==>
            && p.numGemPorts >= 1 && p.upstream != []
            && forall i | 0 <= i < |p.upstream| && i < p.numGemPorts :: p.upstream[i].priorityQueue <= 7
    ensures ConfigOf(p).allocID == p.allocID % 0x1_0000
    ensures ConfigOf(p).schedPolicy == if p.qSchedPolicy == "StrictPrio" then 1 else 2
    ensures |p.upstream| <= 0x1_0000 ==>
              forall i | 0 <= i < |p.upstream| && i < p.numGemPorts ::
                HasGem(ConfigOf(p).gems, i) && GemRead(p.upstream[i], ConfigOf(p).gems[i])
  {
    var read := p.upstream[..Count(p)];
    assert forall i | 0 <= i < |read| :: read[i] == p.upstream[i];
    if |p.upstream| <= 0x1_0000 {
      GemsOfList(read);
      hide Gems;
      forall i | 0 <= i < |p.upstream| && i < p.numGemPorts
        ensures HasGem(ConfigOf(p).gems, i) && GemRead(p.upstream[i], ConfigOf(p).gems[i])
      {
        assert read[i] == p.upstream[i];
      }
    }
  }
}
