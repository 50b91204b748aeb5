/**
 What each call does to the annotator, as a function of its state.  The state leaves out how much
 of the log has been written: `heap` holds every record ever made, in order.
 */
module CpaSpec {
  import opened CpaRecords
  import opened CpaQueues
  import opened CpaTables

  datatype Core = Core(
    now: int, heap: Heap, qSize: seq<int>, qBytes: seq<int>, qData: seq<seq<Pointer>>, t: Tables,
    scLinks: seq<map<Id, Pointer>>, smStack: map<StackId, seq<nat>>, lnMap: map<nat, nat>,
    swExpl: map<StackId, bool>, lastState: map<nat, nat>, conId: nat)

  /** The simulation goes on in a new state, or an assertion, `fatal` or `panic` ends it. */
  datatype Outcome = Goes(s: Core) | Stops

  const FL_HW: nat := 0x01
  const FL_QOPP: nat := 0x04

  /** The flags of a call with the mark of hardware among them. */
  function Hardware(flags: nat): nat {
    if flags % 2 == 1 then flags else flags + FL_HW
  }

  predicate QueuesInFront(flags: nat) {
    flags / FL_QOPP % 2 == 1
  }

  function WrapInt32(x: int): int {
    (x + 0x8000_0000) % 0x1_0000_0000 - 0x8000_0000
  }

  predicate IsInt32(x: int) {
    -0x8000_0000 <= x <= INT32_MAX
  }

  // ----- The log -----

  /** A new record; numbers are cut to the width of their fields. */
  function Record(now: int, op: nat, flag: nat, cpuid: nat, sm: nat, stq: nat, d: int): AnnotateData {
    AnnotateData(now, d, d, sm, stq % 0x1_0000, op, flag % 256, cpuid % 256, true)
  }

  function Logged(s: Core, op: nat, flag: nat, cpuid: nat, sm: nat, stq: nat, d: int): Core {
    s.(heap := s.heap + [Record(s.now, op, flag, cpuid, sm, stq, d)])
  }

  /** A link record that must not be written before its target is known. */
  predicate Awaiting(r: AnnotateData) {
    !r.dump && r.op == OP_LINK && r.stq == UNKNOWN_SM
  }

  /** What may happen to a record: bytes are taken out of it, and a held link learns its target. */
  predicate RecordKept(a: AnnotateData, b: AnnotateData) {
    && b == a.(data := b.data, stq := b.stq, dump := b.dump)
    && ((b.stq == a.stq && b.dump == a.dump) || (Awaiting(a) && b.dump))
  }

  /** Every record made is still there, in its place. */
  predicate Extends(before: Heap, after: Heap) {
    |before| <= |after| && forall p :: 0 <= p < |before| ==> RecordKept(before[p], after[p])
  }

  lemma ExtendsTrans(a: Heap, b: Heap, c: Heap)
    requires Extends(a, b) && Extends(b, c)
    ensures Extends(a, c)
  {
    forall p | 0 <= p < |a| ensures RecordKept(a[p], c[p]) {
      assert RecordKept(a[p], b[p]) && RecordKept(b[p], c[p]);
    }
  }

  lemma ExtendsAdded(a: Heap, rs: seq<AnnotateData>)
    ensures Extends(a, a + rs)
  {
  }

  // ----- Names -----

  function KnowSys(s: Core, sys: System): Core {
    s.(t := InternSys(s.t, sys),
       scLinks := if sys in s.t.nameCache then s.scLinks else s.scLinks + [map[]])
  }

  function SysId(s: Core, sys: System): nat {
    if sys in s.t.nameCache then s.t.nameCache[sys].1 else 0
  }

  predicate KnownSys(s: Core, sysi: nat) {
    1 <= sysi <= |s.t.smCache| == |s.t.qCache| == |s.t.numQ|
  }

  function KnowSm(s: Core, sysi: nat, id: Id): Outcome {
    if KnownSys(s, sysi) && InternSm(s.t, sysi, id).numSm < MAX_IDS
    then Goes(s.(t := InternSm(s.t, sysi, id))) else Stops
  }

  function SmId(s: Core, sysi: nat, id: Id): nat {
    if KnownSys(s, sysi) && id in s.t.smCache[sysi - 1] then s.t.smCache[sysi - 1][id] else 0
  }

  ghost function KnowSt(s: Core, sm: string, st: string): Core {
    if StatesOk(s.t) then s.(t := InternSt(s.t, sm, st)) else s
  }

  function StId(s: Core, sm: string, st: string): nat {
    if sm in s.t.smtCache && 1 <= s.t.smtCache[sm] <= |s.t.stCache| && st in s.t.stCache[s.t.smtCache[sm] - 1]
    then s.t.stCache[s.t.smtCache[sm] - 1][st] else 0
  }

  function KnowQ(s: Core, sysi: nat, id: Id): Outcome {
    if !KnownSys(s, sysi) || InternQ(s.t, sysi, id).numQs >= MAX_IDS then Stops
    else if id in s.t.qCache[sysi - 1] then Goes(s)
    else Goes(s.(t := InternQ(s.t, sysi, id), qSize := s.qSize + [0], qBytes := s.qBytes + [0],
      qData := s.qData + [[]]))
  }

  function QId(s: Core, sysi: nat, id: Id): nat {
    if KnownSys(s, sysi) && id in s.t.qCache[sysi - 1] then s.t.qCache[sysi - 1][id] else 0
  }

  // ----- Queues -----

  predicate KnownQ(s: Core, qi: nat) {
    1 <= qi <= |s.qSize| == |s.qBytes| == |s.qData|
  }

  function WithQueue(s: Core, qi: nat, q: seq<Pointer>, bytes: int): Core
    requires KnownQ(s, qi)
  {
    s.(qSize := s.qSize[qi - 1 := |q|], qBytes := s.qBytes[qi - 1 := bytes], qData := s.qData[qi - 1 := q])
  }

  function Enqueue(s: Core, flags: nat, cpuid: nat, sm: nat, qi: nat, count: int): Outcome {
    if !KnownQ(s, qi) || !(0 <= s.qBytes[qi - 1] + count <= INT32_MAX) then Stops
    else
      var q := Joined(s.qData[qi - 1], |s.heap|, QueuesInFront(flags));
      Goes(WithQueue(Logged(s, OP_QUEUE, flags, cpuid, sm, qi, count), qi, q, s.qBytes[qi - 1] + count))
  }

  /** Records and store after need bytes are taken from the front. */
  function TakeFront(heap: Heap, q: seq<Pointer>, need: int): (Heap, seq<Pointer>)
    decreases |q|
  {
    if need <= 0 || q == [] || q[0] >= |heap| then (heap, q)
    else if heap[q[0]].data > need then (Shrunk(heap, q[0], need), q)
    else TakeFront(heap, q[1..], need - heap[q[0]].data)
  }

  /** And from the back. */
  function TakeBack(heap: Heap, q: seq<Pointer>, need: int): (Heap, seq<Pointer>)
    decreases |q|
  {
    if need <= 0 || q == [] || q[|q| - 1] >= |heap| then (heap, q)
    else if heap[q[|q| - 1]].data > need then (Shrunk(heap, q[|q| - 1], need), q)
    else TakeBack(heap, q[..|q| - 1], need - heap[q[|q| - 1]].data)
  }

  /** Negative counts can drive what is still needed out of 32 bits, which C++ leaves undefined. */
  predicate FrontOverflows(heap: Heap, q: seq<Pointer>, need: int)
    decreases |q|
  {
    need > 0 && q != [] && q[0] < |heap| && heap[q[0]].data <= need &&
    var rest := need - heap[q[0]].data;
    rest > INT32_MAX || FrontOverflows(heap, q[1..], rest)
  }

  predicate BackOverflows(heap: Heap, q: seq<Pointer>, need: int)
    decreases |q|
  {
    need > 0 && q != [] && q[|q| - 1] < |heap| && heap[q[|q| - 1]].data <= need &&
    var rest := need - heap[q[|q| - 1]].data;
    rest > INT32_MAX || BackOverflows(heap, q[..|q| - 1], rest)
  }

  function Dequeued(s: Core, qi: nat, count: int): Core
    requires KnownQ(s, qi)
  {
    var (heap, q) := TakeFront(s.heap, s.qData[qi - 1], count);
    WithQueue(s.(heap := heap), qi, q, s.qBytes[qi - 1] - count)
  }

  function Dequeue(s: Core, flags: nat, cpuid: nat, sm: nat, qi: nat, count: int): Outcome {
    if !KnownQ(s, qi) then Stops
    else if count == -1 then Goes(WithQueue(Logged(s, OP_DEQUEUE, flags, cpuid, sm, qi, count), qi, [], 0))
    else if count <= 0 || s.qBytes[qi - 1] < count || FrontOverflows(s.heap, s.qData[qi - 1], count) then Stops
    else Goes(Logged(Dequeued(s, qi, count), OP_DEQUEUE, flags, cpuid, sm, qi, count))
  }

  function Trimmed(s: Core, qi: nat, size: int): Core
    requires KnownQ(s, qi)
  {
    var (heap, q) := TakeBack(s.heap, s.qData[qi - 1], s.qBytes[qi - 1] - size);
    WithQueue(s.(heap := heap), qi, q, size)
  }

  /** A new size, zero or less, is logged and the queue emptied. */
  function Emptied(s: Core, qi: nat, cpuid: nat, smi: nat, size: int): Core
    requires KnownQ(s, qi)
  {
    WithQueue(Logged(s, OP_SIZE_QUEUE, 0, cpuid, smi, qi, size), qi, [], 0)
  }

  function Resized(s: Core, cpuid: nat, smi: nat, qi: nat, size: int): Outcome
    requires KnownQ(s, qi)
  {
    var bytes := s.qBytes[qi - 1];
    if bytes < size then Enqueue(s, 0, cpuid, smi, qi, size - bytes)
    else if bytes == size then Goes(s)
    else if size <= 0 then Goes(Emptied(s, qi, cpuid, smi, size))
    else
      var s1 := Logged(s, OP_SIZE_QUEUE, 0, cpuid, smi, qi, size);
      if BackOverflows(s1.heap, s1.qData[qi - 1], bytes - size) then Stops else Goes(Trimmed(s1, qi, size))
  }

  function Resize(s: Core, reset: bool, cpuid: nat, smi: nat, qi: nat, size: int): Outcome {
    if !KnownQ(s, qi) then Stops
    else Resized(if reset then Emptied(s, qi, cpuid, smi, 0) else s, cpuid, smi, qi, size)
  }

  // ----- State machines -----

  function Stack(s: Core, sid: StackId): seq<nat> {
    if sid in s.smStack then s.smStack[sid] else []
  }

  function Top(s: Core, sid: StackId): nat
    requires Stack(s, sid) != []
  {
    Stack(s, sid)[|Stack(s, sid)| - 1]
  }

  /** Looking a stack up creates it. */
  function WithStack(s: Core, sid: StackId): Core {
    s.(smStack := if sid in s.smStack then s.smStack else s.smStack[sid := []])
  }

  /** One link into a machine at a time. */
  function LinkIn(s: Core, smi: nat, from: nat): Outcome {
    if smi in s.lnMap && s.lnMap[smi] != 0 then Stops else Goes(s.(lnMap := s.lnMap[smi := from]))
  }

  function LinkFromTop(s: Core, sid: StackId, smi: nat, cpuid: nat): Outcome {
    var s1 := WithStack(s, sid);
    if Stack(s1, sid) == [] then Goes(s1)
    else match LinkIn(s1, smi, Top(s1, sid))
      case Stops => Stops
      case Goes(s2) => Goes(Logged(s2, OP_LINK, 0, cpuid, Top(s1, sid), smi, 0))
  }

  function Pushed(s: Core, sid: StackId, smi: nat): Core {
    s.(smStack := s.smStack[sid := Stack(s, sid) + [smi]], swExpl := s.swExpl[sid := false])
  }

  function Hold(scLinks: seq<map<Id, Pointer>>, x: nat, id: Id, p: Pointer): seq<map<Id, Pointer>>
    requires x < |scLinks|
  {
    scLinks[x := Put(scLinks[x], id, p)]
  }

  function Release(scLinks: seq<map<Id, Pointer>>, x: nat, id: Id): seq<map<Id, Pointer>>
    requires x < |scLinks|
  {
    scLinks[x := scLinks[x] - {id}]
  }

  /** A held link to the machine learns its target. */
  function Resolved(s: Core, sysi: nat, id: Id, smi: nat): Outcome {
    if !(1 <= sysi <= |s.scLinks|) then Stops
    else if id !in s.scLinks[sysi - 1] then Goes(s)
    else
      var p := s.scLinks[sysi - 1][id];
      if p >= |s.heap| then Stops
      else
        var told := s.heap[p := s.heap[p].(stq := smi, dump := true)];
        LinkIn(s.(heap := told, scLinks := Release(s.scLinks, sysi - 1, id)), smi, s.heap[p].sm)
  }

  ghost function Entered(s: Core, sm: string, state: string, flag: nat, cpuid: nat, smi: nat, always: bool): Core {
    var s1 := KnowSt(s, sm, state);
    var sti := StId(s1, sm, state);
    if !always && smi in s.lastState && s.lastState[smi] == sti then s1
    else Logged(s1.(lastState := s1.lastState[smi := sti]), OP_BEGIN, flag, cpuid, smi, sti, 0)
  }

  function JoinStack(s: Core, sid: StackId, smi: nat, cpuid: nat, link: bool): Outcome {
    match if link then LinkFromTop(s, sid, smi, cpuid) else Goes(s)
    case Stops => Stops
    case Goes(s1) => Goes(Pushed(s1, sid, smi))
  }

  ghost function Arrive(s: Core, sysi: nat, id: Id, smi: nat, cpuid: nat, state: string): Outcome {
    match Resolved(s, sysi, id, smi)
    case Stops => Stops
    case Goes(s1) => Goes(if state == "" then s1 else Entered(s1, id.name, state, 0, cpuid, smi, true))
  }

  ghost function SmBegins(s: Core, sys: System, frame: nat, cpuid: nat, sm: string, context: nat, link: bool,
                          state: string): Outcome {
    var s1 := KnowSys(s, sys);
    var sysi := SysId(s1, sys);
    match KnowSm(s1, sysi, Id(sm, context))
    case Stops => Stops
    case Goes(s2) =>
      var smi := SmId(s2, sysi, Id(sm, context));
      match JoinStack(s2, StackId(sysi, frame), smi, cpuid, link)
      case Stops => Stops
      case Goes(s3) => Arrive(s3, sysi, Id(sm, frame), smi, cpuid, state)
  }

  function Unlinked(s: Core, smi: nat, cpuid: nat): Core {
    if smi in s.lnMap && s.lnMap[smi] != 0
    then Logged(s, OP_LINK, 0, cpuid, smi, s.lnMap[smi], 0).(lnMap := s.lnMap - {smi})
    else s.(lnMap := s.lnMap[smi := 0])
  }

  function Resumed(s: Core, smi: nat, cpuid: nat): Core {
    var last := if smi in s.lastState then s.lastState[smi] else 0;
    Logged(s.(lastState := s.lastState[smi := last]), OP_BEGIN, 0, cpuid, smi, last, 0)
  }

  function Finished(s: Core, smi: nat, cpuid: nat, more: bool): Core {
    if more then Resumed(Unlinked(s, smi, cpuid), smi, cpuid) else Unlinked(s, smi, cpuid)
  }

  function SmName(s: Core, smi: nat): string {
    if 1 <= smi <= |s.t.smMap| then s.t.smMap[smi - 1].1.name else ""
  }

  function TopEnds(s: Core, sid: StackId, sm: string, cpuid: nat): Core
    requires Stack(s, sid) != []
  {
    var stack := Stack(s, sid);
    if SmName(s, Top(s, sid)) != sm then s
    else Finished(s.(smStack := s.smStack[sid := stack[..|stack| - 1]]), Top(s, sid), cpuid, |stack| > 1)
  }

  function SmEnds(s: Core, sys: System, cpuid: nat, sm: string, frame: nat): Outcome {
    var s1 := KnowSys(s, sys);
    var sid := StackId(SysId(s1, sys), frame);
    var s2 := WithStack(s1.(swExpl := s1.swExpl[sid := false]), sid);
    if Stack(s2, sid) == [] then Stops else Goes(TopEnds(s2, sid, sm, cpuid))
  }

  const IGNORED_SYMBOLS: seq<string> := [
    "m5a_", "ret_from_sys_call", "ret_from_reschedule", "_spin_", "local_bh_", "restore_all", "Call_Pal_",
    "pal_post_interrupt", "rti_to_", "sys_int_2", "sys_interrupt", "normal_int", "TRAP_INTERRUPT_10_",
    "Trap_Interrupt", "do_entInt", "__do_softirq", "_end", "entInt", "entSys"]

  /** The table is built by stringizing literals, so its entries keep their quotes and their final zero. */
  function Stringized(literal: string): string {
    ['\"'] + literal + ['\"', '\0']
  }

  predicate Ignored(state: string) {
    exists i :: 0 <= i < |IGNORED_SYMBOLS| && Stringized(IGNORED_SYMBOLS[i]) <= state
  }

  /** No C string is ever ignored. */
  lemma NothingIgnored(state: string)
    requires '\0' !in state
    ensures !Ignored(state)
  {
    forall i | 0 <= i < |IGNORED_SYMBOLS| ensures !(Stringized(IGNORED_SYMBOLS[i]) <= state) {
      var entry := Stringized(IGNORED_SYMBOLS[i]);
      assert entry[|entry| - 1] == '\0';
      if entry <= state { assert false; }
    }
  }

  ghost function Begins(s: Core, sys: System, cpuid: nat, state: string, frame: nat, expl: bool, flag: nat): Core {
    if Ignored(state) then s else StateBegins(s, sys, cpuid, state, frame, expl, flag)
  }

  ghost function StateBegins(s: Core, sys: System, cpuid: nat, state: string, frame: nat, expl: bool, flag: nat): Core {
    var s1 := KnowSys(s, sys);
    var sid := StackId(SysId(s1, sys), frame);
    var s2 := WithStack(s1, sid);
    if Stack(s2, sid) == [] then s2
    else
      var was := sid in s2.swExpl && s2.swExpl[sid];
      var s3 := s2.(swExpl := s2.swExpl[sid := expl || was]);
      if !expl && was then s3
      else Entered(s3, SmName(s3, Top(s3, sid)), state, flag, cpuid, Top(s3, sid), false)
  }

  /** An explicit state ends: symbols count again, and the symbol of the caller, if known, is entered. */
  ghost function StateEnds(s: Core, sys: System, cpuid: nat, state: string, frame: nat): Core {
    var s1 := KnowSys(s, sys);
    var sid := StackId(SysId(s1, sys), frame);
    var s2 := WithStack(s1, sid);
    if Stack(s2, sid) == [] then s2
    else
      var s3 := s2.(swExpl := s2.swExpl[sid := false]);
      if state == "" then s3
      else Entered(s3, SmName(s3, Top(s3, sid)), state, 0, cpuid, Top(s3, sid), true)
  }

  function Links(s: Core, sys: System, cpuid: nat, frame: nat, lsm: string, context: nat, ends: bool,
                 sm: string): Outcome {
    var s1 := KnowSys(s, sys);
    var sysi := SysId(s1, sys);
    var sid := StackId(sysi, frame);
    var s2 := WithStack(s1, sid);
    if Stack(s2, sid) == [] then Goes(s2)
    else match KnowSm(s2, sysi, Id(lsm, context))
      case Stops => Stops
      case Goes(s3) =>
        var lsmi := SmId(s3, sysi, Id(lsm, context));
        match LinkIn(s3, lsmi, Top(s2, sid))
        case Stops => Stops
        case Goes(s4) =>
          var s5 := Logged(s4, OP_LINK, 0, cpuid, Top(s2, sid), lsmi, 0);
          if ends then SmEnds(s5, sys, cpuid, sm, frame) else Goes(s5)
  }

  function Held(s: Core, sysi: nat, id: Id, cpuid: nat, smi: nat): Core
    requires 1 <= sysi <= |s.scLinks|
  {
    var r := Record(s.now, OP_LINK, 0, cpuid, smi, UNKNOWN_SM, 0).(dump := false);
    s.(heap := s.heap + [r], scLinks := Hold(s.scLinks, sysi - 1, id, |s.heap|))
  }

  function SyscallLinks(s: Core, sys: System, cpuid: nat, frame: nat, lsm: string, ends: bool, sm: string): Outcome {
    var s1 := KnowSys(s, sys);
    var sysi := SysId(s1, sys);
    var sid := StackId(sysi, frame);
    var s2 := WithStack(s1, sid);
    if Stack(s2, sid) == [] then Goes(s2)
    else if !(1 <= sysi <= |s2.scLinks|) || Id(lsm, frame) in s2.scLinks[sysi - 1] then Stops
    else
      var s3 := Held(s2, sysi, Id(lsm, frame), cpuid, Top(s2, sid));
      if ends then SmEnds(s3, sys, cpuid, sm, frame) else Goes(s3)
  }

  /** Connection numbers; the record holds the low 32 bits. */
  function GetsId(s: Core, sys: System, cpuid: nat, frame: nat): Outcome {
    var s1 := KnowSys(s.(conId := s.conId + 1), sys);
    var sid := StackId(SysId(s1, sys), frame);
    var s2 := WithStack(s1, sid);
    if Stack(s2, sid) == [] then Stops
    else Goes(Logged(s2, OP_IDENT, 0, cpuid, Top(s2, sid), 0, WrapInt32(s2.conId)))
  }

  /** The guest names a connection; the record holds the low 32 bits. */
  function Identifies(s: Core, sys: System, cpuid: nat, frame: nat, id: nat): Core {
    var s1 := KnowSys(s, sys);
    var sid := StackId(SysId(s1, sys), frame);
    var s2 := WithStack(s1, sid);
    if Stack(s2, sid) == [] then s2 else Logged(s2, OP_IDENT, 0, cpuid, Top(s2, sid), 0, WrapInt32(id))
  }

  datatype QueueCall =
    | Enqueues(count: int)
    | Dequeues(count: int)
    | Resizes(count: int, reset: bool)
    | Peeks(count: int)
    | Reserves(count: int)
    | AwaitsFull(count: int)
    | AwaitsEmpty(count: int)
  {
    /** Software that works on a queue takes up symbols as states again; resizing and waiting do not. */
    predicate Unmarks() { Enqueues? || Dequeues? || Peeks? || Reserves? }

    /** Calls that only leave a record, and the operation in it. */
    predicate OnlyNotes() { Peeks? || Reserves? || AwaitsFull? || AwaitsEmpty? }

    function Operation(): nat
      requires OnlyNotes()
    {
      if Peeks? then OP_PEEK else if Reserves? then OP_RESERVE
      else if AwaitsFull? then OP_WAIT_FULL else OP_WAIT_EMPTY
    }
  }

  function BytesIn(s: Core, sysi: nat, name: Id): int {
    if KnownQ(s, QId(s, sysi, name)) then s.qBytes[QId(s, sysi, name) - 1] else 0
  }

  /** Software must not peek at more bytes than there are, nor peek at or reserve none. */
  predicate Refused(s: Core, op: QueueCall, sysi: nat, name: Id) {
    || (op.Peeks? && (op.count == 0 || BytesIn(s, sysi, name) < op.count))
    || (op.Reserves? && op.count == 0)
  }

  function QueueOps(s: Core, op: QueueCall, flag: nat, cpuid: nat, smi: nat, sysi: nat, name: Id): Outcome {
    match KnowQ(s, sysi, name)
    case Stops => Stops
    case Goes(s1) =>
      var qi := QId(s1, sysi, name);
      if op.OnlyNotes() then Goes(Logged(s1, op.Operation(), flag, cpuid, smi, qi, op.count))
      else match op
        case Enqueues(count) => Enqueue(s1, flag, cpuid, smi, qi, count)
        case Dequeues(count) => Dequeue(s1, flag, cpuid, smi, qi, count)
        case Resizes(count, reset) => Resize(s1, reset, cpuid, smi, qi, count)
  }

  ghost function HwBegins(s: Core, flag: nat, sys: System, frame: nat, sm: string, state: string): Outcome {
    var s1 := KnowSys(s, sys);
    match KnowSm(s1, SysId(s1, sys), Id(sm, frame))
    case Stops => Stops
    case Goes(s2) =>
      var s3 := KnowSt(s2, sm, state);
      Goes(Logged(s3, OP_BEGIN, Hardware(flag), 0, SmId(s3, SysId(s1, sys), Id(sm, frame)), StId(s3, sm, state), 0))
  }

  function HwQueues(s: Core, op: QueueCall, flag: nat, sys: System, frame: nat, sm: string, qSys: System,
                    q: Id): Outcome {
    var s1 := KnowSys(s, sys);
    var sysi := SysId(s1, sys);
    var s2 := KnowSys(s1, qSys);
    match KnowSm(s2, sysi, Id(sm, frame))
    case Stops => Stops
    case Goes(s3) => QueueOps(s3, op, Hardware(flag), 0, SmId(s3, sysi, Id(sm, frame)), SysId(s2, qSys), q)
  }

  function SwQueues(s: Core, op: QueueCall, sys: System, frame: nat, cpuid: nat, q: Id): Outcome {
    var s1 := KnowSys(s, sys);
    var sysi := SysId(s1, sys);
    var sid := StackId(sysi, frame);
    var s2 := WithStack(s1, sid);
    if Stack(s2, sid) == [] then Goes(s2)
    else
      var s3 := if op.Unmarks() then s2.(swExpl := s2.swExpl[sid := false]) else s2;
      if op.Enqueues? && op.count == 0 then KnowQ(s3, sysi, q)
      else if Refused(s3, op, sysi, q) then Stops
      else QueueOps(s3, op, 0, cpuid, Top(s3, sid), sysi, q)
  }

  /** Waiting for a queue may end a machine. */
  function Waits(s: Core, op: QueueCall, sys: System, frame: nat, cpuid: nat, q: Id, ends: bool, sm: string): Outcome {
    var s1 := KnowSys(s, sys);
    var running := Stack(s, StackId(SysId(s1, sys), frame)) != [];
    match SwQueues(s, op, sys, frame, cpuid, q)
    case Stops => Stops
    case Goes(s2) => if ends && running then SmEnds(s2, sys, cpuid, sm, frame) else Goes(s2)
  }

  /** Checking the size of a queue only numbers it; a wrong size is a warning. */
  function Checks(s: Core, sys: System, q: Id): Outcome {
    var s1 := KnowSys(s, sys);
    KnowQ(s1, SysId(s1, sys), q)
  }

  // ----- Whole runs -----

  /** The calls that guest software, hardware models and the simulator clock make. */
  datatype Call =
    | SmBegin(sys: System, frame: nat, cpuid: nat, sm: string, context: nat, link: bool, state: string)
    | SmEnd(sys: System, frame: nat, cpuid: nat, sm: string)
    | Begin(sys: System, frame: nat, cpuid: nat, state: string, expl: bool, flag: nat)
    | Link(sys: System, frame: nat, cpuid: nat, lsm: string, context: nat, ends: bool, sm: string)
    | SyscallLink(sys: System, frame: nat, cpuid: nat, lsm: string, ends: bool, sm: string)
    | GetId(sys: System, frame: nat, cpuid: nat)
    | HardwareBegin(flag: nat, sys: System, frame: nat, sm: string, state: string)
    | HardwareQueue(op: QueueCall, flag: nat, sys: System, frame: nat, sm: string, qSys: System, q: Id)
    | SoftwareQueue(op: QueueCall, sys: System, frame: nat, cpuid: nat, q: Id)
    | Wait(full: bool, count: int, sys: System, frame: nat, cpuid: nat, q: Id, ends: bool, sm: string)
    | CheckQueue(sys: System, q: Id)
    | End(sys: System, frame: nat, cpuid: nat, state: string)
    | Identify(sys: System, frame: nat, cpuid: nat, id: nat)
    | Tick(now: int)
  {
    predicate WellTyped() {
      && (HardwareQueue? || SoftwareQueue? ==> IsInt32(op.count))
      && (Wait? ==> IsInt32(count))
    }

    function Awaited(): QueueCall
      requires Wait?
    {
      if full then AwaitsFull(count) else AwaitsEmpty(count)
    }

    predicate Unsigned() {
      (HardwareQueue? || SoftwareQueue?) && op.Enqueues? ==> op.count >= 0
    }
  }

  ghost function Next(s: Core, c: Call): Outcome {
    match c
    case SmBegin(sys, frame, cpuid, sm, context, link, state) =>
      SmBegins(s, sys, frame, cpuid, sm, context, link, state)
    case SmEnd(sys, frame, cpuid, sm) => SmEnds(s, sys, cpuid, sm, frame)
    case Begin(sys, frame, cpuid, state, expl, flag) => Goes(Begins(s, sys, cpuid, state, frame, expl, flag))
    case Link(sys, frame, cpuid, lsm, context, ends, sm) => Links(s, sys, cpuid, frame, lsm, context, ends, sm)
    case SyscallLink(sys, frame, cpuid, lsm, ends, sm) => SyscallLinks(s, sys, cpuid, frame, lsm, ends, sm)
    case GetId(sys, frame, cpuid) => GetsId(s, sys, cpuid, frame)
    case HardwareBegin(flag, sys, frame, sm, state) => HwBegins(s, flag, sys, frame, sm, state)
    case HardwareQueue(op, flag, sys, frame, sm, qSys, q) => HwQueues(s, op, flag, sys, frame, sm, qSys, q)
    case SoftwareQueue(op, sys, frame, cpuid, q) => SwQueues(s, op, sys, frame, cpuid, q)
    case Wait(_, _, sys, frame, cpuid, q, ends, sm) => Waits(s, c.Awaited(), sys, frame, cpuid, q, ends, sm)
    case CheckQueue(sys, q) => Checks(s, sys, q)
    case End(sys, frame, cpuid, state) => Goes(StateEnds(s, sys, cpuid, state, frame))
    case Identify(sys, frame, cpuid, id) => Goes(Identifies(s, sys, cpuid, frame, id))
    case Tick(now) => Goes(s.(now := now))
  }

  /** The state after a run of calls, if none of them stops it. */
  ghost function After(s: Core, calls: seq<Call>): Outcome {
    if calls == [] then Goes(s)
    else match After(s, calls[..|calls| - 1])
      case Stops => Stops
      case Goes(s1) => Next(s1, calls[|calls| - 1])
  }
}
