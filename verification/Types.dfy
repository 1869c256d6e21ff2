/** Shared vocabulary: machine integers as ranges of int, optional values and
    the managed entities (MEs) that OMCI requests carry. */
module Types {

  type uint8 = x: int | 0 <= x < 0x100
  type uint16 = x: int | 0 <= x < 0x1_0000
  type uint32 = x: int | 0 <= x < 0x1_0000_0000

  datatype Option<+T> = None | Some(value: T)

  predicate Distinct<T(==)>(xs: seq<T>) { forall i, j | 0 <= i < j < |xs| :: xs[i] != xs[j] }

  /** The ME classes this adapter reads or writes. */
  datatype ClassId =
    | Gal | Onu2G | OnuG | UniG | Veip
    | Mbsp | Mbpcd | Evtocd | Vtfd
    | Mapper | TCont | GemNctp | GemIw | PriorityQueue

  /** The two OMCI actions the sessions use; a response carries the action it answers. */
  datatype Op = Create | Set

  datatype Attr = Num(n: int) | Octets(bytes: seq<uint8>)

  /** One request: the action, the addressed instance and the attribute values. */
  datatype Me = Me(op: Op, cls: ClassId, inst: uint16, attrs: map<string, Attr>)
}
