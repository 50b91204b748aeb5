/** The records of the critical-path annotator and the names its tables are keyed by. */
module CpaRecords {

  const OP_BEGIN: nat := 0x01
  const OP_WAIT_EMPTY: nat := 0x02
  const OP_WAIT_FULL: nat := 0x03
  const OP_QUEUE: nat := 0x04
  const OP_DEQUEUE: nat := 0x05
  const OP_SIZE_QUEUE: nat := 0x08
  const OP_PEEK: nat := 0x09
  const OP_LINK: nat := 0x0A
  const OP_IDENT: nat := 0x0B
  const OP_RESERVE: nat := 0x0C

  const UNKNOWN_SM: nat := 0xFFFF
  const MAX_IDS: nat := 65535
  const INT32_MAX: int := 0x7fff_ffff

  /** `data` and `origData` hold the signed reading of the 32-bit fields. */
  datatype AnnotateData = AnnotateData(time: int, data: int, origData: int, sm: nat, stq: nat,
                                       op: nat, flag: nat, cpu: nat, dump: bool)

  /** Records are shared by the log, the queues and the link table: a pointer is an index. */
  type Heap = seq<AnnotateData>
  type Pointer = nat

  datatype System = System(name: string)
  datatype Id = Id(name: string, context: nat)
  datatype StackId = StackId(sys: nat, frame: nat)
}
