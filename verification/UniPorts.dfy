/** Numbering and creating the UNI ports: platform.go and processMibDatabaseSyncEvent. */
module UniPorts {
  import opened Types
  import opened Bits
  import opened MeDb

  /** intfID above onuID above four bits of uniID; too large parts are only warned about. */
  function MkUniPortNum(intfID: uint32, onuID: uint32, uniID: uint32): nat {
    Or(Or(Shl(intfID, 12), Shl(onuID, 4)), uniID)
  }

  /** The parts a port number was made of, by the layout of the comment in platform.go. */
  function PartsOf(portNo: nat): (nat, nat, nat) { (portNo / 0x1000 % 0x100, portNo / 0x10 % 0x100, portNo % 0x10) }

  lemma PortNumIsSum(intfID: uint32, onuID: uint32, uniID: uint32)
    requires intfID < 0x100 && onuID < 0x100 && uniID < 0x10
    ensures MkUniPortNum(intfID, onuID, uniID) == intfID * 0x1000 + onuID * 0x10 + uniID
  {
    Powers();
    hide Pow2, Or;
    OrAboveBits(intfID, 12, onuID * 0x10);
    OrAboveBits(intfID * 0x100 + onuID, 4, uniID);
  }

  lemma SumParts(intfID: nat, onuID: nat, uniID: nat)
    requires intfID < 0x100 && onuID < 0x100 && uniID < 0x10
    ensures PartsOf(intfID * 0x1000 + onuID * 0x10 + uniID) == (intfID, onuID, uniID)
  {
    DivMod(intfID, 0x1000, onuID * 0x10 + uniID);
    DivMod(intfID * 0x100 + onuID, 0x10, uniID);
    DivMod(intfID, 0x100, onuID);
  }

  lemma PartRanges(portNo: nat)
    ensures PartsOf(portNo).0 < 0x100 && PartsOf(portNo).1 < 0x100 && PartsOf(portNo).2 < 0x10
  {
  }

  /** A port number can be taken apart again exactly when every part fits its bits. */
  lemma PortNumDecodesIff(intfID: uint32, onuID: uint32, uniID: uint32)
    ensures PartsOf(MkUniPortNum(intfID, onuID, uniID)) == (intfID, onuID, uniID) <==>
            intfID < 0x100 && onuID < 0x100 && uniID < 0x10
  {
    if intfID < 0x100 && onuID < 0x100 && uniID < 0x10 {
      PortNumIsSum(intfID, onuID, uniID);
      SumParts(intfID, onuID, uniID);
    }
    PartRanges(MkUniPortNum(intfID, onuID, uniID));
    hide MkUniPortNum, PartsOf;
  }

  /** Whatever the other parts are, the UNI stands in the low four bits. */
  lemma LowBits(intfID: uint32, onuID: uint32, uniID: uint32)
    requires uniID < 0x10
    ensures MkUniPortNum(intfID, onuID, uniID) % 0x10 == uniID
  {
    Powers();
    hide Or, Pow2;
    TruncatedSixteen(intfID * 0x100);
    TruncatedSixteen(onuID);
    var a, b := intfID * 0x100 % 0x1000_0000, onuID % 0x1000_0000;
    OrSixteen(a, b);
    OrAboveBits(Or(a, b), 4, uniID);
  }

  lemma PortNumInjective(intfID: uint32, onuID: uint32, u: uint32, v: uint32)
    requires u < 0x10 && v < 0x10
    ensures MkUniPortNum(intfID, onuID, u) == MkUniPortNum(intfID, onuID, v) ==> u == v
  {
    LowBits(intfID, onuID, u);
    LowBits(intfID, onuID, v);
    hide MkUniPortNum;
  }

  datatype PortType = Pptp | Veip
  datatype UniPort = UniPort(portNo: nat, portType: PortType, uniID: uint8, macBpNo: uint8, entityID: uint16)
  datatype Instance = Instance(inst: uint16, portType: PortType)

  type PortMap = map<nat, UniPort>

  /** The counter of the bring-up loops is one octet. */
  function Octet(n: nat): uint8 { n % 0x100 }

  lemma OctetNext(n: nat)
    ensures (Octet(n) + 1) % 0x100 == Octet(n + 1)
  {
  }

  function NewPort(portNo: nat, uniID: uint8, x: Instance): UniPort {
    UniPort(portNo, x.portType, uniID, (uniID + 1) % 0x100, x.inst)
  }

  /** addUniPort: an existing port stays. */
  function Added(m: PortMap, intfID: uint32, onuID: uint32, uniID: uint8, x: Instance): PortMap {
    var portNo := MkUniPortNum(intfID, onuID, uniID);
    if portNo in m then m else m[portNo := NewPort(portNo, uniID, x)]
  }

  /** The bring-up loops over a list of instances. */
  function AllAdded(m: PortMap, intfID: uint32, onuID: uint32, xs: seq<Instance>): PortMap
    decreases |xs|
  {
    if xs == [] then m
    else
      var n := |xs| - 1;
      Added(AllAdded(m, intfID, onuID, xs[..n]), intfID, onuID, Octet(n), xs[n])
  }

  function Typed(keys: seq<uint16>, t: PortType): seq<Instance> {
    seq(|keys|, i requires 0 <= i < |keys| => Instance(keys[i], t))
  }

  lemma TypedLength(keys: seq<uint16>, t: PortType)
    ensures |Typed(keys, t)| == |keys|
  {
  }

  class DeviceHandler {
    const intfID: uint32
    const onuID: uint32
    var uniEntityMap: PortMap

    constructor (intfID: uint32, onuID: uint32)
      ensures this.intfID == intfID && this.onuID == onuID && uniEntityMap == map[]
    {
      this.intfID, this.onuID, uniEntityMap := intfID, onuID, map[];
    }

    method AddUniPort(inst: uint16, uniID: uint8, portType: PortType)
      modifies this
      ensures uniEntityMap == Added(old(uniEntityMap), intfID, onuID, uniID, Instance(inst, portType))
    {
      var uniNo := MkUniPortNum(intfID, onuID, uniID);
      if uniNo !in uniEntityMap {
        uniEntityMap := uniEntityMap[uniNo := NewPort(uniNo, uniID, Instance(inst, portType))];
      }
    }

    /** One of the two loops; `i` is the counter they share. */
    method AddUniPorts(keys: seq<uint16>, portType: PortType, ghost start: PortMap, ghost done: seq<Instance>, i: uint8)
      returns (next: uint8)
      requires uniEntityMap == AllAdded(start, intfID, onuID, done) && i == Octet(|done|)
      modifies this
      ensures uniEntityMap == AllAdded(start, intfID, onuID, done + Typed(keys, portType))
      ensures next == Octet(|done| + |keys|)
    {
      hide Added, Octet;
      next := i;
      var n := 0;
      assert done + Typed(keys[..0], portType) == done;
      while n < |keys|
        invariant 0 <= n <= |keys| && next == Octet(|done| + n)
        invariant uniEntityMap == AllAdded(start, intfID, onuID, done + Typed(keys[..n], portType))
      {
        ghost var more := done + Typed(keys[..n + 1], portType);
        assert more[..|more| - 1] == done + Typed(keys[..n], portType);
        AddUniPort(keys[n], next, portType);
        OctetNext(|done| + n);
        next := (next + 1) % 0x100;
        n := n + 1;
      }
      assert keys[..n] == keys;
    }

    /** The UNI part of processMibDatabaseSyncEvent. */
    method CreateUniPorts(db: OnuDeviceDB) returns (ghost unis: seq<uint16>, ghost veips: seq<uint16>)
      modifies this
      ensures Sorted(unis) && Elems(unis) == Insts(db.meDb, 264).Keys
      ensures Sorted(veips) && Elems(veips) == Insts(db.meDb, 329).Keys
      ensures uniEntityMap ==
              AllAdded(old(uniEntityMap), intfID, onuID, Typed(unis, Pptp) + Typed(veips, PortType.Veip))
    {
      ghost var start := uniEntityMap;
      assert start == AllAdded(start, intfID, onuID, []) && Octet(0) == 0;
      hide *;
      var uniKeys := db.GetSortedInstKeys(UNI_G);
      var i := AddUniPorts(uniKeys, Pptp, start, [], 0);
      assert [] + Typed(uniKeys, Pptp) == Typed(uniKeys, Pptp);
      TypedLength(uniKeys, Pptp);
      var veipKeys := db.GetSortedInstKeys(VEIP);
      i := AddUniPorts(veipKeys, PortType.Veip, start, Typed(uniKeys, Pptp), i);
      unis, veips := uniKeys, veipKeys;
    }
  }

  ghost predicate HasPort(m: PortMap, intfID: uint32, onuID: uint32, j: nat, x: Instance)
    requires j < 0x10
  {
    var portNo := MkUniPortNum(intfID, onuID, j);
    portNo in m && m[portNo] == UniPort(portNo, x.portType, j, j + 1, x.inst)
  }

  lemma OctetSmall(n: nat)
    requires n < 0x100
    ensures Octet(n) == n
  {
  }

  lemma SmallPort(portNo: nat, n: nat, x: Instance)
    requires n < 0x10
    ensures Octet(n) == n && NewPort(portNo, Octet(n), x) == UniPort(portNo, x.portType, n, n + 1, x.inst)
  {
  }

  lemma AddedPort(m: PortMap, intfID: uint32, onuID: uint32, n: nat, x: Instance)
    requires n < 0x10 && MkUniPortNum(intfID, onuID, n) !in m
    ensures var m2 := Added(m, intfID, onuID, Octet(n), x);
            && |m2| == |m| + 1 && m2.Keys == m.Keys + {MkUniPortNum(intfID, onuID, n)}
            && HasPort(m2, intfID, onuID, n, x)
            && forall k | k in m :: m2[k] == m[k]
  {
    var portNo := MkUniPortNum(intfID, onuID, n);
    SmallPort(portNo, n, x);
    AddedIs(m, intfID, onuID, Octet(n), x, portNo);
    MoreKeys(m, portNo, NewPort(portNo, Octet(n), x));
    hide MkUniPortNum, Octet, NewPort, Added;
  }

  lemma AddedIs(m: PortMap, intfID: uint32, onuID: uint32, uniID: uint8, x: Instance, portNo: nat)
    requires portNo == MkUniPortNum(intfID, onuID, uniID) && portNo !in m
    ensures Added(m, intfID, onuID, uniID, x) == m[portNo := NewPort(portNo, uniID, x)]
  {
    hide MkUniPortNum, NewPort;
  }

  lemma MoreKeys(m: PortMap, k: nat, p: UniPort)
    requires k !in m
    ensures var m2 := m[k := p]; |m2| == |m| + 1 && m2.Keys == m.Keys + {k} && forall x | x in m :: m2[x] == m[x]
  {
    var m2 := m[k := p];
    assert m2.Keys == m.Keys + {k} && |m2.Keys| == |m2| && |m.Keys| == |m|;
  }

  lemma KeptPort(m: PortMap, m2: PortMap, intfID: uint32, onuID: uint32, j: nat, x: Instance)
    requires j < 0x10 && HasPort(m, intfID, onuID, j, x) && m.Keys <= m2.Keys && forall k | k in m :: m2[k] == m[k]
    ensures HasPort(m2, intfID, onuID, j, x)
  {
    hide MkUniPortNum;
  }

  function PortNos(intfID: uint32, onuID: uint32, n: nat): set<nat>
    requires n <= 0x10
  {
    if n == 0 then {} else PortNos(intfID, onuID, n - 1) + {MkUniPortNum(intfID, onuID, n - 1)}
  }

  lemma {:induction false} NewPortNo(intfID: uint32, onuID: uint32, n: nat, u: nat)
    requires n <= u < 0x10
    ensures MkUniPortNum(intfID, onuID, u) !in PortNos(intfID, onuID, n)
  {
    hide MkUniPortNum;
    if n > 0 {
      NewPortNo(intfID, onuID, n - 1, u);
      PortNumInjective(intfID, onuID, n - 1, u);
    }
  }

  /** Bringing up at most sixteen UNIs: the j-th instance gets UNI j and a port number of its own, there are
      no other ports, and the numbers decode back exactly if the interface and the ONU fit their octets. */
  lemma {:induction false} Numbering(intfID: uint32, onuID: uint32, xs: seq<Instance>)
    requires |xs| <= 0x10
    ensures var m := AllAdded(map[], intfID, onuID, xs);
            && |m| == |xs| && m.Keys == PortNos(intfID, onuID, |xs|)
            && (forall j | 0 <= j < |xs| :: HasPort(m, intfID, onuID, j, xs[j]))
    ensures forall j | 0 <= j < |xs| ::
              PartsOf(MkUniPortNum(intfID, onuID, j)) == (intfID, onuID, j) <==> intfID < 0x100 && onuID < 0x100
    decreases |xs|
  {
    hide MkUniPortNum, Added, PartsOf, HasPort;
    if xs != [] {
      var n := |xs| - 1;
      Numbering(intfID, onuID, xs[..n]);
      NewPortNo(intfID, onuID, n, n);
      var m, m2 := AllAdded(map[], intfID, onuID, xs[..n]), AllAdded(map[], intfID, onuID, xs);
      AddedPort(m, intfID, onuID, n, xs[n]);
      forall j | 0 <= j < n ensures HasPort(m2, intfID, onuID, j, xs[j]) {
        assert xs[..n][j] == xs[j];
        KeptPort(m, m2, intfID, onuID, j, xs[j]);
      }
      PortNumDecodesIff(intfID, onuID, n);
    }
  }

  /** The number given to the j-th instance. */
  function PortNo(intfID: uint32, onuID: uint32, j: nat): nat { MkUniPortNum(intfID, onuID, j % 0x100) }

  predicate FirstWith(intfID: uint32, onuID: uint32, k: nat, j: nat) {
    PortNo(intfID, onuID, j) == k && forall i | 0 <= i < j :: PortNo(intfID, onuID, i) != k
  }

  /** However many instances there are: the numbers given are the numbers of the ports, and a number belongs to the
      first instance that was given it; an instance that finds its number taken is lost. */
  lemma {:induction false} FirstWins(intfID: uint32, onuID: uint32, xs: seq<Instance>, k: nat)
    ensures var m := AllAdded(map[], intfID, onuID, xs);
            && (k in m <==> exists j :: 0 <= j < |xs| && PortNo(intfID, onuID, j) == k)
            && forall j: nat | j < |xs| && FirstWith(intfID, onuID, k, j) ::
                 k in m && m[k] == UniPort(k, xs[j].portType, j % 0x100, (j + 1) % 0x100, xs[j].inst)
    decreases |xs|
  {
    hide PortNo;
    if xs != [] {
      var n := |xs| - 1;
      var m, m2 := AllAdded(map[], intfID, onuID, xs[..n]), AllAdded(map[], intfID, onuID, xs);
      FirstWins(intfID, onuID, xs[..n], k);
      StepAdds(m, intfID, onuID, xs[n], n);
      assert m2 == Added(m, intfID, onuID, Octet(n), xs[n]);
      hide AllAdded, Added, Octet;
      assert k in m2 <==> k in m || k == PortNo(intfID, onuID, n);
      forall j: nat | j < |xs| && FirstWith(intfID, onuID, k, j)
        ensures k in m2 && m2[k] == UniPort(k, xs[j].portType, j % 0x100, (j + 1) % 0x100, xs[j].inst)
      {
        if j < n { assert xs[..n][j] == xs[j]; }
      }
    }
  }

  lemma StepAdds(m: PortMap, intfID: uint32, onuID: uint32, x: Instance, n: nat)
    ensures var portNo := PortNo(intfID, onuID, n);
            Added(m, intfID, onuID, Octet(n), x) ==
            if portNo in m then m
            else m[portNo := UniPort(portNo, x.portType, n % 0x100, (n + 1) % 0x100, x.inst)]
  {
    OctetNext(n);
    hide MkUniPortNum;
  }

  predicate Decodes(intfID: uint32, onuID: uint32, j: nat) {
    PartsOf(MkUniPortNum(intfID, onuID, Octet(j))) == (intfID, onuID, j)
  }

  lemma DecodesIff(intfID: uint32, onuID: uint32, j: nat)
    ensures Decodes(intfID, onuID, j) <==> intfID < 0x100 && onuID < 0x100 && j < 0x10
  {
    if j < 0x10 {
      OctetSmall(j);
      PortNumDecodesIff(intfID, onuID, j);
    }
    PartRanges(MkUniPortNum(intfID, onuID, Octet(j)));
    hide MkUniPortNum, Octet, PartsOf;
  }

  /** Every UNI's port number decodes to it if and only if there is none, or interface and ONU fit their octets
      and there are at most sixteen. */
  lemma NumberingIff(intfID: uint32, onuID: uint32, n: nat)
    ensures (forall j | 0 <= j < n :: Decodes(intfID, onuID, j)) <==>
            n == 0 || (intfID < 0x100 && onuID < 0x100 && n <= 0x10)
  {
    forall j: nat ensures Decodes(intfID, onuID, j) <==> intfID < 0x100 && onuID < 0x100 && j < 0x10 {
      DecodesIff(intfID, onuID, j);
    }
    hide Decodes;
    if n > 0 { assert Decodes(intfID, onuID, 0) ==> intfID < 0x100 && onuID < 0x100; }
    if n > 0x10 { assert !Decodes(intfID, onuID, 0x10); }
  }
}
