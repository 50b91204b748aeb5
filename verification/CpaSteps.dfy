/** Every call keeps the annotator in order, loses no record, and does to the queues what it should. */
module CpaSteps {
  import opened CpaRecords
  import opened CpaQueues
  import opened CpaTables
  import opened CpaSpec
  import opened CpaInvariant

  /** Tables, queues, held links and stacks are in order and agree with each other. */
  ghost predicate Inv(heap: Heap, qSize: seq<int>, qBytes: seq<int>, qData: seq<seq<Pointer>>, t: Tables,
                      scLinks: seq<map<Id, Pointer>>, smStack: map<StackId, seq<nat>>) {
    && TablesOk(t)
    && QueuesOk(heap, qSize, qBytes, qData) && |qData| == t.numQs
    && LinksOk(heap, scLinks) && |scLinks| == t.numSys
    && StacksOk(smStack, t.smMap)
  }

  ghost predicate CoreOk(s: Core) {
    Inv(s.heap, s.qSize, s.qBytes, s.qData, s.t, s.scLinks, s.smStack)
  }

  /** No queue holds a record with a negative count. */
  ghost predicate Unsigned(s: Core) {
    AllNonNegative(s.heap, s.qData)
  }

  /** The byte units of queue qi. */
  ghost function UnitsOf(s: Core, qi: nat): seq<Pointer>
    requires CoreOk(s) && 1 <= qi <= |s.qData|
  {
    Units(s.heap, s.qData[qi - 1])
  }

  ghost predicate UnsignedQ(s: Core, qi: nat)
    requires CoreOk(s) && 1 <= qi <= |s.qData|
  {
    NonNegative(s.heap, s.qData[qi - 1])
  }

  /** From s to s' everything stays in order, no record is lost and machines keep their numbers. */
  ghost predicate Steady(s: Core, s': Core, unsigned: bool) {
    && CoreOk(s') && Extends(s.heap, s'.heap)
    && s.t.smMap <= s'.t.smMap && s.t.numSys <= s'.t.numSys
    && (unsigned && Unsigned(s) ==> Unsigned(s'))
  }

  lemma SteadyTrans(s: Core, s1: Core, s2: Core, unsigned: bool)
    requires Steady(s, s1, unsigned) && Steady(s1, s2, unsigned)
    ensures Steady(s, s2, unsigned)
  {
    hide CoreOk, Extends, Unsigned;
    ExtendsTrans(s.heap, s1.heap, s2.heap);
  }

  lemma SteadyRefl(s: Core)
    requires CoreOk(s)
    ensures Steady(s, s, true)
  {
    hide CoreOk, Unsigned;
    assert s.heap + [] == s.heap;
    ExtendsAdded(s.heap, []);
  }

  lemma Weaken(s: Core, s': Core, unsigned: bool)
    requires Steady(s, s', true)
    ensures Steady(s, s', unsigned)
  {
  }

  lemma Shape(s: Core)
    requires CoreOk(s)
    ensures TablesOk(s.t) && StatesOk(s.t) && |s.scLinks| == s.t.numSys &&
        |s.qData| == s.t.numQs == |s.qSize| == |s.qBytes|
    ensures |s.t.smCache| == |s.t.qCache| == |s.t.numQ| == s.t.numSys
    ensures |s.t.smMap| == s.t.numSm < MAX_IDS && |s.t.qMap| == s.t.numQs < MAX_IDS
  {
    hide LinksOk, StacksOk;
    TablesShape(s.t);
    QueuesShape(s.heap, s.qSize, s.qBytes, s.qData);
  }

  // ----- The log and the names -----

  lemma LoggedSteady(s: Core, op: nat, flag: nat, cpuid: nat, sm: nat, stq: nat, d: int)
    requires CoreOk(s)
    ensures Steady(s, Logged(s, op, flag, cpuid, sm, stq, d), true)
    ensures OthersKept(s.heap, s.qData, Logged(s, op, flag, cpuid, sm, stq, d).heap, s.qData, -1)
  {
    var r := Record(s.now, op, flag, cpuid, sm, stq, d);
    hide QueuesOk, LinksOk, TablesOk, StacksOk, OthersKept, Extends, AllNonNegative;
    QueuesAppend(s.heap, r, s.qSize, s.qBytes, s.qData);
    LinksAppend(s.heap, s.scLinks, r);
    ExtendsAdded(s.heap, [r]);
    KeepUnsigned(s.heap, s.qData, s.heap + [r], s.qData);
  }

  lemma KnowSysSteady(s: Core, sys: System)
    requires CoreOk(s)
    ensures var s' := KnowSys(s, sys);
      && Steady(s, s', true) && 1 <= SysId(s', sys) <= s'.t.numSys && KnownSys(s', SysId(s', sys))
      && sys in s'.t.nameCache && s'.t.smMap == s.t.smMap
      && (sys in s.t.nameCache ==> s' == s)
  {
    hide QueuesOk, LinksOk, TablesOk, StacksOk, Extends, AllNonNegative;
    InternSysOk(s.t, sys);
    if sys !in s.t.nameCache { LinksGrow(s.heap, s.scLinks); }
    var s' := KnowSys(s, sys);
    SystemIdRange(s'.t, sys);
    TablesShape(s'.t);
    assert s.heap + [] == s.heap;
    ExtendsAdded(s.heap, []);
  }

  lemma KnowSmSteady(s: Core, sysi: nat, id: Id)
    requires CoreOk(s) && 1 <= sysi <= s.t.numSys
    ensures KnownSys(s, sysi)
    ensures KnowSm(s, sysi, id).Goes? ==>
      var s' := KnowSm(s, sysi, id).s;
      && Steady(s, s', true) && KnownSys(s', sysi) && s'.t.nameCache == s.t.nameCache && s'.t.numSys == s.t.numSys
      && 1 <= SmId(s', sysi, id) <= |s'.t.smMap| && s'.t.smMap[SmId(s', sysi, id) - 1] == (sysi, id)
  {
    hide QueuesOk, LinksOk, TablesOk, StacksOk, Extends, AllNonNegative;
    TablesShape(s.t);
    if KnowSm(s, sysi, id).Goes? {
      var s' := KnowSm(s, sysi, id).s;
      InternSmOk(s.t, sysi, id);
      TablesShape(s'.t);
      StacksExtend(s.smStack, s.t.smMap, s'.t.smMap);
      SmListed(s'.t, sysi, id);
      assert s.heap + [] == s.heap;
      ExtendsAdded(s.heap, []);
    }
  }

  lemma StShape(t: Tables, sm: string, st: string)
    requires StatesOk(t)
    ensures var u := InternSt(t, sm, st);
      && u.smMap == t.smMap && u.qMap == t.qMap && u.nameCache == t.nameCache
      && u.numSys == t.numSys && u.numQs == t.numQs && u.numSm == t.numSm
      && sm in u.smtCache && 1 <= u.smtCache[sm] <= |u.stCache| && st in u.stCache[u.smtCache[sm] - 1]
      && u.stCache[u.smtCache[sm] - 1][st] >= 1
  {
    hide StatesOk, Numbered;
    InternSmtOk(t, sm);
    var v := InternSmt(t, sm);
    SmtRange(v, sm);
    StRange(v, v.smtCache[sm] - 1, st);
  }

  lemma KnowStSteady(s: Core, sm: string, st: string)
    requires CoreOk(s)
    ensures var s' := KnowSt(s, sm, st);
      && Steady(s, s', true) && s' == s.(t := s'.t) && s'.t.smMap == s.t.smMap
      && s'.t.nameCache == s.t.nameCache && s'.t.numSys == s.t.numSys
      && StId(s', sm, st) >= 1
  {
    hide QueuesOk, LinksOk, TablesOk, StacksOk, StatesOk, InternSt, Extends, AllNonNegative;
    TablesShape(s.t);
    InternStOk(s.t, sm, st);
    StShape(s.t, sm, st);
    assert s.heap + [] == s.heap;
    ExtendsAdded(s.heap, []);
  }

  lemma GrowUnsigned(heap: Heap, qData: seq<seq<Pointer>>)
    ensures AllNonNegative(heap, qData) ==> AllNonNegative(heap, qData + [[]])
  {
  }

  lemma KnowQSteady(s: Core, sysi: nat, id: Id)
    requires CoreOk(s) && 1 <= sysi <= s.t.numSys
    ensures KnownSys(s, sysi)
    ensures KnowQ(s, sysi, id).Goes? ==>
      var s' := KnowQ(s, sysi, id).s;
      && Steady(s, s', true) && s.qData <= s'.qData && s'.heap == s.heap
      && 1 <= QId(s', sysi, id) <= s'.t.numQs && KnownQ(s', QId(s', sysi, id))
      && s'.t.qMap[QId(s', sysi, id) - 1] == (sysi, id)
      && (QId(s', sysi, id) > |s.qData| ==> s'.qData[QId(s', sysi, id) - 1] == [])
  {
    hide QueuesOk, LinksOk, TablesOk, StacksOk, Extends, AllNonNegative;
    Shape(s);
    if KnowQ(s, sysi, id).Goes? {
      var s' := KnowQ(s, sysi, id).s;
      NewQueueSteady(s, sysi, id);
      QListed(s'.t, sysi, id);
      Shape(s');
      if id in s.t.qCache[sysi - 1] {
        QListed(s.t, sysi, id);
        SteadyRefl(s);
      }
    }
  }

  lemma NewQueueSteady(s: Core, sysi: nat, id: Id)
    requires CoreOk(s) && KnownSys(s, sysi) && KnowQ(s, sysi, id).Goes? && 1 <= sysi <= s.t.numSys
    ensures Steady(s, KnowQ(s, sysi, id).s, true)
  {
    hide QueuesOk, LinksOk, TablesOk, StacksOk, Extends, AllNonNegative;
    var s' := KnowQ(s, sysi, id).s;
    TablesShape(s.t);
    InternQOk(s.t, sysi, id);
    QueuesGrow(s.heap, s.qSize, s.qBytes, s.qData);
    GrowUnsigned(s.heap, s.qData);
    assert s.heap + [] == s.heap;
    ExtendsAdded(s.heap, []);
  }

  // ----- Queues -----

  ghost predicate OthersSame(s: Core, s': Core, qi: nat) {
    OthersKept(s.heap, s.qData, s'.heap, s'.qData, qi - 1)
  }

  lemma QueueOf(s: Core, qi: nat)
    requires CoreOk(s) && 1 <= qi <= s.t.numQs
    ensures KnownQ(s, qi) && InHeap(s.heap, s.qData[qi - 1]) && Distinct(s.qData[qi - 1])
    ensures s.qSize[qi - 1] == |s.qData[qi - 1]|
    ensures 0 <= s.qBytes[qi - 1] <= INT32_MAX && s.qBytes[qi - 1] == Bytes(s.heap, s.qData[qi - 1])
  {
    hide LinksOk, TablesOk, StacksOk, QueuesOk;
    QueueAt(s.heap, s.qSize, s.qBytes, s.qData, qi - 1);
  }

  /** If the others keep theirs and queue qi is unsigned, all queues are. */
  lemma StaysUnsigned(s: Core, s': Core, qi: nat)
    requires CoreOk(s') && 1 <= qi <= |s'.qData| && OthersSame(s, s', qi)
    ensures Unsigned(s) && UnsignedQ(s', qi) ==> Unsigned(s')
  {
    hide Inv, OthersKept, AllNonNegative, NonNegative;
    assert InHeap(s'.heap, s'.qData[qi - 1]) by { InHeapOf(s', qi); }
    KeepAllBut(s.heap, s.qData, s'.heap, s'.qData, qi - 1);
  }

  lemma InHeapOf(s: Core, qi: nat)
    requires CoreOk(s) && 1 <= qi <= |s.qData|
    ensures InHeap(s.heap, s.qData[qi - 1])
  {
    hide LinksOk, TablesOk, StacksOk;
  }

  lemma UnsignedAt(s: Core, qi: nat)
    requires CoreOk(s) && 1 <= qi <= |s.qData| && Unsigned(s)
    ensures UnsignedQ(s, qi)
  {
    hide Inv;
  }

  lemma PushInv(heap: Heap, qSize: seq<int>, qBytes: seq<int>, qData: seq<seq<Pointer>>, t: Tables,
                scLinks: seq<map<Id, Pointer>>, smStack: map<StackId, seq<nat>>, r: AnnotateData, x: nat, front: bool)
    requires Inv(heap, qSize, qBytes, qData, t, scLinks, smStack) && x < |qData| && r.dump
    requires |qSize| == |qBytes| == |qData| && 0 <= qBytes[x] + r.data <= INT32_MAX
    ensures Inv(heap + [r], qSize[x := qSize[x] + 1], qBytes[x := qBytes[x] + r.data],
                qData[x := Joined(qData[x], |heap|, front)], t, scLinks, smStack)
    ensures var q := Joined(qData[x], |heap|, front);
      && OthersKept(heap, qData, heap + [r], qData[x := q], x) && InHeap(heap, qData[x]) && InHeap(heap + [r], q)
      && Units(heap + [r], q) == JoinedUnits(Units(heap, qData[x]), |heap|, r.data, front)
      && (r.data >= 0 && NonNegative(heap, qData[x]) ==> NonNegative(heap + [r], q))
  {
    hide QueuesOk, LinksOk, TablesOk, StacksOk, OthersKept, Units, JoinedUnits, InHeap, NonNegative, Joined;
    PushToQueue(heap, r, qSize, qBytes, qData, x, front);
    LinksAppend(heap, scLinks, r);
  }

  /** A record of count bytes joins queue qi at the tail, or in front if the flag says so. */
  lemma EnqueueAdds(s: Core, flags: nat, cpuid: nat, sm: nat, qi: nat, count: int)
    requires CoreOk(s) && 1 <= qi <= s.t.numQs
    ensures KnownQ(s, qi)
    ensures Enqueue(s, flags, cpuid, sm, qi, count).Goes? ==>
      var s' := Enqueue(s, flags, cpuid, sm, qi, count).s;
      && Steady(s, s', count >= 0) && |s'.qData| == |s.qData| && OthersSame(s, s', qi)
      && UnitsOf(s', qi) == (if flags / 4 % 2 == 1 then Repeat(|s.heap|, count) + UnitsOf(s, qi)
                             else UnitsOf(s, qi) + Repeat(|s.heap|, count))
      && (count >= 0 && UnsignedQ(s, qi) ==> UnsignedQ(s', qi))
  {
    hide Inv, Enqueue, OthersKept, Units, Repeat, InHeap, NonNegative, Extends, AllNonNegative, Joined;
    hide Distinct, Bytes;
    QueueOf(s, qi);
    EnqueueFields(s, flags, cpuid, sm, qi, count);
    if Enqueue(s, flags, cpuid, sm, qi, count).Goes? {
      var s' := Enqueue(s, flags, cpuid, sm, qi, count).s;
      var r := Record(s.now, OP_QUEUE, flags, cpuid, sm, qi, count);
      PushInv(s.heap, s.qSize, s.qBytes, s.qData, s.t, s.scLinks, s.smStack, r, qi - 1, QueuesInFront(flags));
      ExtendsAdded(s.heap, [r]);
      StaysUnsigned(s, s', qi);
      if Unsigned(s) { UnsignedAt(s, qi); }
    }
  }

  /** What an enqueue changes, field by field. */
  lemma EnqueueFields(s: Core, flags: nat, cpuid: nat, sm: nat, qi: nat, count: int)
    requires KnownQ(s, qi) && s.qSize[qi - 1] == |s.qData[qi - 1]|
    ensures Enqueue(s, flags, cpuid, sm, qi, count).Goes? <==> 0 <= s.qBytes[qi - 1] + count <= INT32_MAX
    ensures Enqueue(s, flags, cpuid, sm, qi, count).Goes? ==>
      Enqueue(s, flags, cpuid, sm, qi, count).s == s.(
        heap := s.heap + [Record(s.now, OP_QUEUE, flags, cpuid, sm, qi, count)],
        qSize := s.qSize[qi - 1 := s.qSize[qi - 1] + 1], qBytes := s.qBytes[qi - 1 := s.qBytes[qi - 1] + count],
        qData := s.qData[qi - 1 := Joined(s.qData[qi - 1], |s.heap|, QueuesInFront(flags))])
  {
    hide Record, QueuesInFront;
  }

  /** The same with the byte count wrapping around in 32 bits: it goes on exactly when that is not negative. */
  lemma EnqueueStep(s: Core, flags: nat, cpuid: nat, sm: nat, qi: nat, count: int)
    requires CoreOk(s) && 1 <= qi <= s.t.numQs && IsInt32(count)
    ensures KnownQ(s, qi)
    ensures Enqueue(s, flags, cpuid, sm, qi, count).Goes? <==> WrapInt32(s.qBytes[qi - 1] + count) >= 0
    ensures Enqueue(s, flags, cpuid, sm, qi, count).Goes? ==>
      var s' := Enqueue(s, flags, cpuid, sm, qi, count).s;
      CoreOk(s') && s' == s.(
        heap := s.heap + [Record(s.now, OP_QUEUE, flags, cpuid, sm, qi, count)],
        qSize := s.qSize[qi - 1 := s.qSize[qi - 1] + 1],
        qBytes := s.qBytes[qi - 1 := WrapInt32(s.qBytes[qi - 1] + count)],
        qData := s.qData[qi - 1 := Joined(s.qData[qi - 1], |s.heap|, QueuesInFront(flags))])
  {
    hide Inv, Enqueue, Record, QueuesInFront, WrapInt32, Joined, InHeap, Distinct, Bytes, Units, JoinedUnits;
    hide NonNegative;
    QueueOf(s, qi);
    EnqueueFields(s, flags, cpuid, sm, qi, count);
    EnqueueAdds(s, flags, cpuid, sm, qi, count);
    WrapSum(s.qBytes[qi - 1], count);
  }

  lemma {:induction false} TakeFrontRemoves(heap0: Heap, q0: seq<Pointer>, count: int,
                                            heap: Heap, q: seq<Pointer>, need: int)
    requires Removing(heap0, q0, count, heap, q, need) && InHeap(heap0, q0) && InHeap(heap, q)
    requires count <= Bytes(heap0, q0)
    requires NonNegative(heap0, q0) ==> FrontGone(heap0, q0, count, heap, q, need)
    ensures var (h, r) := TakeFront(heap, q, need);
      Removing(heap0, q0, count, h, r, 0) && InHeap(h, r)
      && (NonNegative(heap0, q0) ==> FrontGone(heap0, q0, count, h, r, 0))
    decreases |q|
  {
    hide Removing, FrontGone, NonNegative, Bytes;
    RemovingInHeap(heap0, q0, count, heap, q, need);
    if need > 0 {
      NeverRunsDry(heap0, q0, count, heap, q, need);
      var b := heap[q[0]].data;
      if b > need {
        RemoveFromHead(heap0, q0, count, heap, q, need);
        RemovingInHeap(heap0, q0, count, Shrunk(heap, q[0], need), q, 0);
      } else {
        RemoveHead(heap0, q0, count, heap, q, need);
        RemovingInHeap(heap0, q0, count, heap, q[1..], need - b);
        TakeFrontRemoves(heap0, q0, count, heap, q[1..], need - b);
      }
    }
  }

  lemma {:induction false} TakeBackRemoves(heap0: Heap, q0: seq<Pointer>, count: int,
                                           heap: Heap, q: seq<Pointer>, need: int)
    requires Removing(heap0, q0, count, heap, q, need) && InHeap(heap0, q0) && InHeap(heap, q)
    requires count <= Bytes(heap0, q0)
    requires NonNegative(heap0, q0) ==> BackGone(heap0, q0, count, heap, q, need)
    ensures var (h, r) := TakeBack(heap, q, need);
      Removing(heap0, q0, count, h, r, 0) && InHeap(h, r)
      && (NonNegative(heap0, q0) ==> BackGone(heap0, q0, count, h, r, 0))
    decreases |q|
  {
    hide Removing, BackGone, NonNegative, Bytes;
    RemovingInHeap(heap0, q0, count, heap, q, need);
    if need > 0 {
      NeverRunsDry(heap0, q0, count, heap, q, need);
      var last := |q| - 1;
      var b := heap[q[last]].data;
      if b > need {
        RemoveFromTail(heap0, q0, count, heap, q, need);
        RemovingInHeap(heap0, q0, count, Shrunk(heap, q[last], need), q, 0);
      } else {
        RemoveTail(heap0, q0, count, heap, q, need);
        RemovingInHeap(heap0, q0, count, heap, q[..last], need - b);
        TakeBackRemoves(heap0, q0, count, heap, q[..last], need - b);
      }
    }
  }

  lemma RemovedExtends(heap0: Heap, q0: seq<Pointer>, count: int, heap: Heap, q: seq<Pointer>)
    requires Removing(heap0, q0, count, heap, q, 0)
    ensures Extends(heap0, heap) && |heap| == |heap0|
    ensures forall p :: 0 <= p < |heap0| ==> heap[p] == heap0[p].(data := heap[p].data)
  {
    hide Bytes, NonNegative;
  }

  /** Whatever a removal loop leaves in queue qi, everything is in order again. */
  lemma RemovedSteady(s: Core, qi: nat, count: int, heap: Heap, q: seq<Pointer>)
    requires CoreOk(s) && 1 <= qi <= s.t.numQs && KnownQ(s, qi) && 0 <= count <= s.qBytes[qi - 1]
    requires Removing(s.heap, s.qData[qi - 1], count, heap, q, 0)
    ensures var s' := WithQueue(s.(heap := heap), qi, q, s.qBytes[qi - 1] - count);
      && Steady(s, s', true) && |s'.qData| == |s.qData| && OthersSame(s, s', qi)
      && (UnsignedQ(s, qi) ==> UnsignedQ(s', qi))
  {
    var s' := WithQueue(s.(heap := heap), qi, q, s.qBytes[qi - 1] - count);
    hide LinksOk, TablesOk, StacksOk, QueuesOk, OthersKept, Removing, Extends, AllNonNegative, NonNegative;
    RemovedFromQueue(s.heap, heap, s.qSize, s.qBytes, s.qData, qi - 1, count, q);
    RemovedExtends(s.heap, s.qData[qi - 1], count, heap, q);
    LinksFrame(s.heap, heap, s.scLinks);
    FrontGoneDone(s.heap, s.qData[qi - 1], count, heap, q);
    InHeapOf(s, qi);
    InHeapOf(s', qi);
    StaysUnsigned(s, s', qi);
    if Unsigned(s) { UnsignedAt(s, qi); }
  }

  /** Exactly the first count units go. */
  lemma DequeuedDrops(s: Core, qi: nat, count: int)
    requires CoreOk(s) && 1 <= qi <= s.t.numQs && KnownQ(s, qi) && 0 < count <= s.qBytes[qi - 1]
    ensures var s' := Dequeued(s, qi, count);
      && Steady(s, s', true) && |s'.qData| == |s.qData| && |s'.heap| == |s.heap| && OthersSame(s, s', qi)
      && (UnsignedQ(s, qi) ==>
            UnsignedQ(s', qi) && count <= |UnitsOf(s, qi)| && UnitsOf(s', qi) == UnitsOf(s, qi)[count..])
  {
    hide Inv, Units, Bytes, InHeap, Distinct, NonNegative, Removing, Steady, OthersSame, TakeFront;
    QueueOf(s, qi);
    var q := s.qData[qi - 1];
    FrontTaken(s.heap, q, count);
    var (h, r) := TakeFront(s.heap, q, count);
    RemovedSteady(s, qi, count, h, r);
  }

  lemma FrontTaken(heap: Heap, q: seq<Pointer>, count: int)
    requires InHeap(heap, q) && Distinct(q) && 0 < count <= Bytes(heap, q)
    ensures var (h, r) := TakeFront(heap, q, count);
      && Removing(heap, q, count, h, r, 0) && InHeap(h, r) && |h| == |heap|
      && (NonNegative(heap, q) ==> count <= |Units(heap, q)| && Units(h, r) == Units(heap, q)[count..])
  {
    hide Units, Bytes, InHeap, Distinct, NonNegative, Removing, FrontGone, TakeFront;
    RemovingStarts(heap, q, count);
    TakeFrontRemoves(heap, q, count, heap, q, count);
    var (h, r) := TakeFront(heap, q, count);
    RemovingInHeap(heap, q, count, h, r, 0);
    FrontGoneDone(heap, q, count, h, r);
  }

  lemma BackTaken(heap: Heap, q: seq<Pointer>, size: int)
    requires InHeap(heap, q) && Distinct(q) && 0 < size < Bytes(heap, q)
    ensures var count := Bytes(heap, q) - size;
      var (h, r) := TakeBack(heap, q, count);
      && Removing(heap, q, count, h, r, 0) && InHeap(h, r) && |h| == |heap|
      && (NonNegative(heap, q) ==> size <= |Units(heap, q)| && Units(h, r) == Units(heap, q)[..size])
  {
    hide Units, Bytes, InHeap, Distinct, NonNegative, Removing, BackGone, TakeBack;
    var count := Bytes(heap, q) - size;
    RemovingStarts(heap, q, count);
    TakeBackRemoves(heap, q, count, heap, q, count);
    var (h, r) := TakeBack(heap, q, count);
    RemovingInHeap(heap, q, count, h, r, 0);
    BackGoneDone(heap, q, count, h, r);
    if NonNegative(heap, q) { UnitsCount(heap, q); }
  }

  /** Exactly the first size units stay. */
  lemma TrimmedKeeps(s: Core, qi: nat, size: int)
    requires CoreOk(s) && 1 <= qi <= s.t.numQs && KnownQ(s, qi) && 0 < size < s.qBytes[qi - 1]
    ensures var s' := Trimmed(s, qi, size);
      && Steady(s, s', true) && |s'.qData| == |s.qData| && |s'.heap| == |s.heap| && OthersSame(s, s', qi)
      && (UnsignedQ(s, qi) ==>
            UnsignedQ(s', qi) && size <= |UnitsOf(s, qi)| && UnitsOf(s', qi) == UnitsOf(s, qi)[..size])
  {
    hide Inv, Units, Bytes, InHeap, Distinct, NonNegative, Removing, Steady, OthersSame, TakeBack;
    QueueOf(s, qi);
    var q := s.qData[qi - 1];
    var count := s.qBytes[qi - 1] - size;
    BackTaken(s.heap, q, size);
    var (h, r) := TakeBack(s.heap, q, count);
    RemovedSteady(s, qi, count, h, r);
  }

  /** A record in the log leaves every queue as it is. */
  lemma LoggedKeeps(s: Core, op: nat, flag: nat, cpuid: nat, sm: nat, stq: nat, d: int, qi: nat)
    requires CoreOk(s) && 1 <= qi <= |s.qData|
    ensures var s' := Logged(s, op, flag, cpuid, sm, stq, d);
      && Steady(s, s', true) && UnitsOf(s', qi) == UnitsOf(s, qi) && (UnsignedQ(s, qi) ==> UnsignedQ(s', qi))
      && OthersSame(s, s', qi)
  {
    hide Inv, Units, OthersKept, NonNegative;
    LoggedSteady(s, op, flag, cpuid, sm, stq, d);
    var s' := Logged(s, op, flag, cpuid, sm, stq, d);
    KeptAt(s.heap, s.qData, s'.heap, s'.qData, -1, qi - 1);
    KeptRefl2(s.heap, s.qData, s'.heap, qi - 1);
  }

  lemma KeptRefl2(heap: Heap, qData: seq<seq<Pointer>>, heap': Heap, x: int)
    requires OthersKept(heap, qData, heap', qData, -1)
    ensures OthersKept(heap, qData, heap', qData, x)
  {
  }

  lemma OthersTrans(s: Core, s1: Core, s2: Core, qi: nat)
    requires OthersSame(s, s1, qi) && OthersSame(s1, s2, qi)
    ensures OthersSame(s, s2, qi)
  {
    hide OthersKept;
    OthersKeptTrans(s.heap, s.qData, s1.heap, s1.qData, s2.heap, s2.qData, qi - 1, qi - 1, qi - 1);
  }

  lemma ClearedSteady(s: Core, qi: nat)
    requires CoreOk(s) && 1 <= qi <= s.t.numQs && KnownQ(s, qi)
    ensures var s' := WithQueue(s, qi, [], 0);
      Steady(s, s', true) && OthersSame(s, s', qi) && UnitsOf(s', qi) == [] && UnsignedQ(s', qi)
  {
    var s' := WithQueue(s, qi, [], 0);
    hide LinksOk, TablesOk, StacksOk, QueuesOk, OthersKept, Extends, AllNonNegative;
    ClearedQueue(s.heap, s.qSize, s.qBytes, s.qData, qi - 1);
    EmptyUnsigned(s.heap);
    assert s.heap + [] == s.heap;
    ExtendsAdded(s.heap, []);
    StaysUnsigned(s, s', qi);
  }

  lemma EmptiedClears(s: Core, qi: nat, cpuid: nat, smi: nat, size: int)
    requires CoreOk(s) && 1 <= qi <= s.t.numQs && KnownQ(s, qi)
    ensures var s' := Emptied(s, qi, cpuid, smi, size);
      Steady(s, s', true) && OthersSame(s, s', qi) && UnitsOf(s', qi) == [] && UnsignedQ(s', qi)
  {
    hide Inv, Steady, OthersSame, Units, NonNegative;
    LoggedKeeps(s, OP_SIZE_QUEUE, 0, cpuid, smi, qi, size, qi);
    var s1 := Logged(s, OP_SIZE_QUEUE, 0, cpuid, smi, qi, size);
    SteadyOk(s, s1, true);
    ClearedSteady(s1, qi);
    SteadyTrans(s, s1, Emptied(s, qi, cpuid, smi, size), true);
    OthersTrans(s, s1, Emptied(s, qi, cpuid, smi, size), qi);
  }

  lemma SteadyOk(s: Core, s': Core, unsigned: bool)
    requires Steady(s, s', unsigned)
    ensures CoreOk(s') && Extends(s.heap, s'.heap) && s.t.smMap <= s'.t.smMap && s.t.numSys <= s'.t.numSys
  {
  }

  /** Taking count units from the front, or all of them for -1. */
  lemma DequeueDrops(s: Core, flags: nat, cpuid: nat, sm: nat, qi: nat, count: int)
    requires CoreOk(s) && 1 <= qi <= s.t.numQs
    ensures KnownQ(s, qi)
    ensures UnsignedQ(s, qi) ==>
      (Dequeue(s, flags, cpuid, sm, qi, count).Goes? <==> count == -1 || 0 < count <= s.qBytes[qi - 1])
    ensures Dequeue(s, flags, cpuid, sm, qi, count).Goes? ==>
      var s' := Dequeue(s, flags, cpuid, sm, qi, count).s;
      && Steady(s, s', true) && |s'.qData| == |s.qData| && OthersSame(s, s', qi)
      && (count == -1 ==> UnitsOf(s', qi) == [] && UnsignedQ(s', qi))
      && (count != -1 && UnsignedQ(s, qi) ==>
            UnsignedQ(s', qi) && count <= |UnitsOf(s, qi)| && UnitsOf(s', qi) == UnitsOf(s, qi)[count..])
  {
    hide Inv, Steady, OthersSame, Units, NonNegative, InHeap, Distinct, Bytes, Dequeued, FrontOverflows;
    QueueOf(s, qi);
    if UnsignedQ(s, qi) && count <= s.qBytes[qi - 1] { NoFrontOverflow(s.heap, s.qData[qi - 1], count); }
    if Dequeue(s, flags, cpuid, sm, qi, count).Goes? {
      var s' := Dequeue(s, flags, cpuid, sm, qi, count).s;
      if count == -1 {
        LoggedKeeps(s, OP_DEQUEUE, flags, cpuid, sm, qi, count, qi);
        var s1 := Logged(s, OP_DEQUEUE, flags, cpuid, sm, qi, count);
        SteadyOk(s, s1, true);
        ClearedSteady(s1, qi);
        SteadyTrans(s, s1, s', true);
        OthersTrans(s, s1, s', qi);
      } else {
        DequeuedDrops(s, qi, count);
        var s1 := Dequeued(s, qi, count);
        SteadyOk(s, s1, true);
        LoggedKeeps(s1, OP_DEQUEUE, flags, cpuid, sm, qi, count, qi);
        SteadyTrans(s, s1, s', true);
        OthersTrans(s, s1, s', qi);
      }
    }
  }

  /** Without a reset: grow at the tail, or trim from it, to size units. */
  lemma ResizedSets(s: Core, cpuid: nat, smi: nat, qi: nat, size: int)
    requires CoreOk(s) && 1 <= qi <= s.t.numQs && KnownQ(s, qi) && IsInt32(size)
    ensures UnsignedQ(s, qi) ==> Resized(s, cpuid, smi, qi, size).Goes?
    ensures Resized(s, cpuid, smi, qi, size).Goes? ==>
      var s' := Resized(s, cpuid, smi, qi, size).s;
      && Steady(s, s', true) && |s'.qData| == |s.qData| && OthersSame(s, s', qi)
      && s'.qBytes[qi - 1] == (if size > 0 then size else 0)
      && (UnsignedQ(s, qi) ==> UnsignedQ(s', qi))
      && (size >= s.qBytes[qi - 1] ==> UnitsOf(s', qi) == UnitsOf(s, qi) + Repeat(|s.heap|, size - s.qBytes[qi - 1]))
      && (UnsignedQ(s, qi) && 0 <= size < s.qBytes[qi - 1] ==>
            size <= |UnitsOf(s, qi)| && UnitsOf(s', qi) == UnitsOf(s, qi)[..size])
      && (size < 0 ==> UnitsOf(s', qi) == [])
  {
    hide Inv, Steady, OthersSame, Units, NonNegative, InHeap, Distinct, Bytes, Trimmed, Emptied, JoinedUnits, Repeat;
    hide BackOverflows;
    QueueOf(s, qi);
    var bytes := s.qBytes[qi - 1];
    NothingJoined(UnitsOf(s, qi), |s.heap|, size - bytes);
    if bytes < size {
      EnqueueAdds(s, 0, cpuid, smi, qi, size - bytes);
    } else if bytes == size {
      SteadyRefl(s);
      OthersRefl(s, qi);
      assert Repeat(|s.heap|, 0) == [];
    } else if size <= 0 {
      EmptiedClears(s, qi, cpuid, smi, size);
      EmptiedShape(s, qi, cpuid, smi, size);
    } else {
      LoggedKeeps(s, OP_SIZE_QUEUE, 0, cpuid, smi, qi, size, qi);
      var s1 := Logged(s, OP_SIZE_QUEUE, 0, cpuid, smi, qi, size);
      SteadyOk(s, s1, true);
      TrimmedKeeps(s1, qi, size);
      TrimmedShape(s1, qi, size);
      SteadyTrans(s, s1, Trimmed(s1, qi, size), true);
      OthersTrans(s, s1, Trimmed(s1, qi, size), qi);
      if UnsignedQ(s, qi) { InHeapOf(s1, qi); NoBackOverflow(s1.heap, s1.qData[qi - 1], bytes - size); }
    }
  }

  /** Three records, one of them negative and put in front, whose bytes suffice and yet overflow. */
  lemma OverflowHappens(now: int)
    ensures var r := (count: int) => Record(now, OP_QUEUE, 0, 0, 1, 1, count);
      var heap := [r(-INT32_MAX), r(INT32_MAX), r(INT32_MAX)];
      && InHeap(heap, [0, 1, 2]) && Bytes(heap, [0, 1, 2]) == INT32_MAX && FrontOverflows(heap, [0, 1, 2], 1)
  {
    var r := (count: int) => Record(now, OP_QUEUE, 0, 0, 1, 1, count);
    var heap := [r(-INT32_MAX), r(INT32_MAX), r(INT32_MAX)];
    assert [0, 1, 2][1..] == [1, 2] && [1, 2][1..] == [2] && [2][1..] == [];
    assert Bytes(heap, [1, 2]) == INT32_MAX + Bytes(heap, [2]);
  }

  /** Counts that are not negative only bring the need down. */
  lemma {:induction false} NoFrontOverflow(heap: Heap, q: seq<Pointer>, need: int)
    requires InHeap(heap, q) && NonNegative(heap, q) && need <= INT32_MAX
    ensures !FrontOverflows(heap, q, need)
    decreases |q|
  {
    if q != [] { NoFrontOverflow(heap, q[1..], need - heap[q[0]].data); }
  }

  lemma {:induction false} NoBackOverflow(heap: Heap, q: seq<Pointer>, need: int)
    requires InHeap(heap, q) && NonNegative(heap, q) && need <= INT32_MAX
    ensures !BackOverflows(heap, q, need)
    decreases |q|
  {
    if q != [] { NoBackOverflow(heap, q[..|q| - 1], need - heap[q[|q| - 1]].data); }
  }

  lemma OthersRefl(s: Core, qi: nat)
    requires CoreOk(s)
    ensures OthersSame(s, s, qi)
  {
    hide LinksOk, TablesOk, StacksOk, OthersKept;
    KeptRefl(s.heap, s.qSize, s.qBytes, s.qData);
    KeptRefl2(s.heap, s.qData, s.heap, qi - 1);
  }

  lemma EmptiedShape(s: Core, qi: nat, cpuid: nat, smi: nat, size: int)
    requires KnownQ(s, qi)
    ensures var s' := Emptied(s, qi, cpuid, smi, size);
      KnownQ(s', qi) && |s'.qData| == |s.qData| && s'.qBytes[qi - 1] == 0 && s'.t == s.t && |s'.heap| == |s.heap| + 1
  {
  }

  lemma TrimmedShape(s: Core, qi: nat, size: int)
    requires KnownQ(s, qi)
    ensures Trimmed(s, qi, size).qBytes == s.qBytes[qi - 1 := size] && |Trimmed(s, qi, size).qData| == |s.qData|
  {
  }

  lemma ResizeSets(s: Core, reset: bool, cpuid: nat, smi: nat, qi: nat, size: int)
    requires CoreOk(s) && 1 <= qi <= s.t.numQs && IsInt32(size)
    ensures KnownQ(s, qi) && (reset || UnsignedQ(s, qi) ==> Resize(s, reset, cpuid, smi, qi, size).Goes?)
    ensures Resize(s, reset, cpuid, smi, qi, size).Goes? ==>
      var s' := Resize(s, reset, cpuid, smi, qi, size).s;
      && Steady(s, s', true) && |s'.qData| == |s.qData| && OthersSame(s, s', qi)
      && s'.qBytes[qi - 1] == (if size > 0 then size else 0)
      && (reset || UnsignedQ(s, qi) ==> UnsignedQ(s', qi))
      && (reset ==> UnitsOf(s', qi) == Repeat(|s.heap| + 1, size))
      && (!reset && size >= s.qBytes[qi - 1] ==>
            UnitsOf(s', qi) == UnitsOf(s, qi) + Repeat(|s.heap|, size - s.qBytes[qi - 1]))
      && (!reset && UnsignedQ(s, qi) && 0 <= size < s.qBytes[qi - 1] ==>
            size <= |UnitsOf(s, qi)| && UnitsOf(s', qi) == UnitsOf(s, qi)[..size])
      && (!reset && size < 0 ==> UnitsOf(s', qi) == [])
  {
    hide Inv, Steady, OthersSame, Units, NonNegative, InHeap, Distinct, Bytes, Resized, Emptied, Repeat;
    QueueOf(s, qi);
    if reset {
      EmptiedClears(s, qi, cpuid, smi, 0);
      EmptiedShape(s, qi, cpuid, smi, 0);
      var s1 := Emptied(s, qi, cpuid, smi, 0);
      SteadyOk(s, s1, true);
      ResizedSets(s1, cpuid, smi, qi, size);
      var s' := Resized(s1, cpuid, smi, qi, size).s;
      SteadyTrans(s, s1, s', true);
      OthersTrans(s, s1, s', qi);
      assert size < 0 ==> Repeat(|s.heap| + 1, size) == [] by { NoRepeat(|s.heap| + 1, size); }
    } else {
      ResizedSets(s, cpuid, smi, qi, size);
    }
  }

  lemma NoRepeat(p: Pointer, n: int)
    ensures n <= 0 ==> Repeat(p, n) == []
  {
  }

  // ----- State machines -----

  /** Only links, marks, last states, connection numbers or the clock differ. */
  ghost predicate SameStore(s: Core, s': Core) {
    && s'.heap == s.heap && s'.qSize == s.qSize && s'.qBytes == s.qBytes && s'.qData == s.qData
    && s'.t == s.t && s'.scLinks == s.scLinks && s'.smStack == s.smStack
  }

  lemma SameStoreSteady(s: Core, s': Core)
    requires CoreOk(s) && SameStore(s, s')
    ensures Steady(s, s', true)
  {
    hide Inv, Extends, AllNonNegative;
    assert s.heap + [] == s.heap;
    ExtendsAdded(s.heap, []);
  }

  lemma StackSteady(s: Core, sid: StackId, stack: seq<nat>, marks: map<StackId, bool>)
    requires CoreOk(s) && forall i :: 0 <= i < |stack| ==> OnStackOk(sid, stack[i], s.t.smMap)
    ensures Steady(s, s.(smStack := s.smStack[sid := stack], swExpl := marks), true)
  {
    hide TablesOk, QueuesOk, LinksOk, Extends, AllNonNegative;
    assert s.heap + [] == s.heap;
    ExtendsAdded(s.heap, []);
  }

  lemma WithStackSteady(s: Core, sid: StackId)
    requires CoreOk(s)
    ensures Steady(s, WithStack(s, sid), true) && sid in WithStack(s, sid).smStack
    ensures Stack(WithStack(s, sid), sid) == Stack(s, sid)
  {
    hide Inv, Steady;
    if sid in s.smStack {
      assert WithStack(s, sid) == s;
      SteadyRefl(s);
    } else {
      StackSteady(s, sid, [], s.swExpl);
      assert WithStack(s, sid) == s.(smStack := s.smStack[sid := []], swExpl := s.swExpl);
    }
  }

  /** The machine on top of a stack is numbered and belongs to the stack's system. */
  lemma TopKnown(s: Core, sid: StackId)
    requires CoreOk(s) && Stack(s, sid) != []
    ensures forall i :: 0 <= i < |Stack(s, sid)| ==> OnStackOk(sid, Stack(s, sid)[i], s.t.smMap)
    ensures OnStackOk(sid, Top(s, sid), s.t.smMap)
  {
    hide TablesOk, QueuesOk, LinksOk;
  }

  lemma LinkFromTopSteady(s: Core, sid: StackId, smi: nat, cpuid: nat)
    requires CoreOk(s)
    ensures LinkFromTop(s, sid, smi, cpuid).Goes? ==>
      var s' := LinkFromTop(s, sid, smi, cpuid).s;
      Steady(s, s', true) && Stack(s', sid) == Stack(s, sid) && s'.t == s.t && s'.scLinks == s.scLinks
  {
    hide Inv, Steady;
    WithStackSteady(s, sid);
    var s1 := WithStack(s, sid);
    SteadyOk(s, s1, true);
    if Stack(s1, sid) != [] && LinkIn(s1, smi, Top(s1, sid)).Goes? {
      var s2 := LinkIn(s1, smi, Top(s1, sid)).s;
      SameStoreSteady(s1, s2);
      SteadyOk(s1, s2, true);
      LoggedSteady(s2, OP_LINK, 0, cpuid, Top(s1, sid), smi, 0);
      SteadyTrans(s1, s2, Logged(s2, OP_LINK, 0, cpuid, Top(s1, sid), smi, 0), true);
      SteadyTrans(s, s1, Logged(s2, OP_LINK, 0, cpuid, Top(s1, sid), smi, 0), true);
    }
  }

  lemma PushedSteady(s: Core, sid: StackId, smi: nat)
    requires CoreOk(s) && OnStackOk(sid, smi, s.t.smMap)
    ensures Steady(s, Pushed(s, sid, smi), true)
  {
    hide Inv, Steady;
    if Stack(s, sid) != [] { TopKnown(s, sid); }
    StackSteady(s, sid, Stack(s, sid) + [smi], s.swExpl[sid := false]);
  }

  lemma JoinStackSteady(s: Core, sid: StackId, smi: nat, cpuid: nat, link: bool)
    requires CoreOk(s) && OnStackOk(sid, smi, s.t.smMap)
    ensures JoinStack(s, sid, smi, cpuid, link).Goes? ==>
      var s' := JoinStack(s, sid, smi, cpuid, link).s;
      Steady(s, s', true) && s'.t == s.t && s'.scLinks == s.scLinks && Stack(s', sid) == Stack(s, sid) + [smi]
  {
    hide Inv, Steady, LinkFromTop;
    LinkFromTopSteady(s, sid, smi, cpuid);
    SteadyRefl(s);
    if JoinStack(s, sid, smi, cpuid, link).Goes? {
      var s1 := if link then LinkFromTop(s, sid, smi, cpuid).s else s;
      SteadyOk(s, s1, true);
      PushedSteady(s1, sid, smi);
      SteadyTrans(s, s1, Pushed(s1, sid, smi), true);
    }
  }

  /** The held record learns its target; nothing else in the store changes. */
  lemma ToldSteady(s: Core, sysi: nat, id: Id, smi: nat)
    requires CoreOk(s) && 1 <= sysi <= s.t.numSys && |s.scLinks| == s.t.numSys && id in s.scLinks[sysi - 1]
    ensures var p := s.scLinks[sysi - 1][id];
      && p < |s.heap| && Awaiting(s.heap[p])
      && Steady(s, s.(heap := s.heap[p := s.heap[p].(stq := smi, dump := true)],
                      scLinks := Release(s.scLinks, sysi - 1, id)), true)
  {
    hide TablesOk, QueuesOk, StacksOk, LinksUnique, AllLinked, OthersKept, AllNonNegative;
    var p := s.scLinks[sysi - 1][id];
    assert LinksHeld(s.heap, s.scLinks);
    var told := s.heap[p := s.heap[p].(stq := smi, dump := true)];
    LinksRelease(s.heap, told, s.scLinks, sysi - 1, id);
    QueuesFrame(s.heap, told, s.qSize, s.qBytes, s.qData);
    KeepUnsigned(s.heap, s.qData, told, s.qData);
  }

  lemma ResolvedSteady(s: Core, sysi: nat, id: Id, smi: nat)
    requires CoreOk(s) && 1 <= sysi <= s.t.numSys
    ensures Resolved(s, sysi, id, smi).Goes? ==>
      var s' := Resolved(s, sysi, id, smi).s;
      && Steady(s, s', true) && s'.t == s.t && s'.smStack == s.smStack
      && |s'.scLinks| == |s.scLinks| >= sysi && id !in s'.scLinks[sysi - 1]
  {
    hide Inv, Steady;
    Shape(s);
    if Resolved(s, sysi, id, smi).Goes? {
      var s' := Resolved(s, sysi, id, smi).s;
      if id !in s.scLinks[sysi - 1] {
        SteadyRefl(s);
      } else {
        ToldSteady(s, sysi, id, smi);
        var p := s.scLinks[sysi - 1][id];
        var s1 := s.(heap := s.heap[p := s.heap[p].(stq := smi, dump := true)],
                     scLinks := Release(s.scLinks, sysi - 1, id));
        SteadyOk(s, s1, true);
        SameStoreSteady(s1, s');
        SteadyTrans(s, s1, s', true);
      }
    }
  }

  lemma EnteredSteady(s: Core, sm: string, state: string, flag: nat, cpuid: nat, smi: nat, always: bool)
    requires CoreOk(s)
    ensures var s' := Entered(s, sm, state, flag, cpuid, smi, always);
      Steady(s, s', true) && s'.t.smMap == s.t.smMap && s'.t.nameCache == s.t.nameCache
      && s'.smStack == s.smStack && s'.scLinks == s.scLinks
  {
    hide Inv, Steady, KnowSt, StId;
    KnowStSteady(s, sm, state);
    var s1 := KnowSt(s, sm, state);
    SteadyOk(s, s1, true);
    var sti := StId(s1, sm, state);
    var s2 := s1.(lastState := s1.lastState[smi := sti]);
    SameStoreSteady(s1, s2);
    SteadyOk(s1, s2, true);
    LoggedSteady(s2, OP_BEGIN, flag, cpuid, smi, sti, 0);
    var s3 := Logged(s2, OP_BEGIN, flag, cpuid, smi, sti, 0);
    SteadyTrans(s1, s2, s3, true);
    SteadyTrans(s, s1, s3, true);
  }

  lemma ArriveSteady(s: Core, sysi: nat, id: Id, smi: nat, cpuid: nat, state: string)
    requires CoreOk(s) && 1 <= sysi <= s.t.numSys
    ensures Arrive(s, sysi, id, smi, cpuid, state).Goes? ==>
      var s' := Arrive(s, sysi, id, smi, cpuid, state).s;
      && Steady(s, s', true) && s'.smStack == s.smStack && s'.t.smMap == s.t.smMap && s'.t.nameCache == s.t.nameCache
      && |s'.scLinks| >= sysi && id !in s'.scLinks[sysi - 1]
  {
    hide Inv, Steady, Resolved, Entered;
    ResolvedSteady(s, sysi, id, smi);
    if Arrive(s, sysi, id, smi, cpuid, state).Goes? {
      var s1 := Resolved(s, sysi, id, smi).s;
      SteadyOk(s, s1, true);
      if state != "" {
        EnteredSteady(s1, id.name, state, 0, cpuid, smi, true);
        SteadyTrans(s, s1, Entered(s1, id.name, state, 0, cpuid, smi, true), true);
      }
    }
  }

  /** The machine has its number, is on top of its thread's stack, and no held link for it remains. */
  lemma SmBeginsSteady(s: Core, sys: System, frame: nat, cpuid: nat, sm: string, context: nat, link: bool,
                       state: string)
    requires CoreOk(s)
    ensures SmBegins(s, sys, frame, cpuid, sm, context, link, state).Goes? ==>
      var s' := SmBegins(s, sys, frame, cpuid, sm, context, link, state).s;
      var sysi := SysId(s', sys);
      var sid := StackId(sysi, frame);
      && Steady(s, s', true) && Stack(s', sid) != []
      && OnStackOk(sid, Top(s', sid), s'.t.smMap) && s'.t.smMap[Top(s', sid) - 1].1 == Id(sm, context)
      && Stack(s', sid)[..|Stack(s', sid)| - 1] == Stack(s, sid)
      && 1 <= sysi <= |s'.scLinks| && Id(sm, frame) !in s'.scLinks[sysi - 1]
  {
    hide Inv, Steady, KnowSys, KnowSm, SmId, JoinStack, Arrive;
    KnowSysSteady(s, sys);
    var s1 := KnowSys(s, sys);
    KnowSysStacks(s, sys);
    SteadyOk(s, s1, true);
    var sysi := SysId(s1, sys);
    KnowSmSteady(s1, sysi, Id(sm, context));
    if SmBegins(s, sys, frame, cpuid, sm, context, link, state).Goes? {
      var s2 := KnowSm(s1, sysi, Id(sm, context)).s;
      KnowSmStacks(s1, sysi, Id(sm, context));
      SteadyOk(s1, s2, true);
      SteadyTrans(s, s1, s2, true);
      var smi := SmId(s2, sysi, Id(sm, context));
      var sid := StackId(sysi, frame);
      JoinStackSteady(s2, sid, smi, cpuid, link);
      var s3 := JoinStack(s2, sid, smi, cpuid, link).s;
      SteadyOk(s2, s3, true);
      SteadyTrans(s, s2, s3, true);
      ArriveSteady(s3, sysi, Id(sm, frame), smi, cpuid, state);
      SteadyTrans(s, s3, Arrive(s3, sysi, Id(sm, frame), smi, cpuid, state).s, true);
    }
  }

  lemma KnowSysStacks(s: Core, sys: System)
    ensures KnowSys(s, sys).smStack == s.smStack
  {
  }

  lemma KnowSmStacks(s: Core, sysi: nat, id: Id)
    ensures KnowSm(s, sysi, id).Goes? ==> KnowSm(s, sysi, id).s.smStack == s.smStack
  {
  }

  lemma UnlinkedSteady(s: Core, smi: nat, cpuid: nat)
    requires CoreOk(s)
    ensures Steady(s, Unlinked(s, smi, cpuid), true)
  {
    hide Inv, Steady;
    if smi in s.lnMap && s.lnMap[smi] != 0 {
      LoggedSteady(s, OP_LINK, 0, cpuid, smi, s.lnMap[smi], 0);
      var s1 := Logged(s, OP_LINK, 0, cpuid, smi, s.lnMap[smi], 0);
      SteadyOk(s, s1, true);
      SameStoreSteady(s1, Unlinked(s, smi, cpuid));
      SteadyTrans(s, s1, Unlinked(s, smi, cpuid), true);
    } else {
      SameStoreSteady(s, Unlinked(s, smi, cpuid));
    }
  }

  lemma ResumedSteady(s: Core, smi: nat, cpuid: nat)
    requires CoreOk(s)
    ensures Steady(s, Resumed(s, smi, cpuid), true)
  {
    hide Inv, Steady;
    var last := if smi in s.lastState then s.lastState[smi] else 0;
    var s1 := s.(lastState := s.lastState[smi := last]);
    SameStoreSteady(s, s1);
    SteadyOk(s, s1, true);
    LoggedSteady(s1, OP_BEGIN, 0, cpuid, smi, last, 0);
    SteadyTrans(s, s1, Resumed(s, smi, cpuid), true);
  }

  lemma FinishedSteady(s: Core, smi: nat, cpuid: nat, more: bool)
    requires CoreOk(s)
    ensures Steady(s, Finished(s, smi, cpuid, more), true)
  {
    hide Inv, Steady, Unlinked, Resumed;
    UnlinkedSteady(s, smi, cpuid);
    var s1 := Unlinked(s, smi, cpuid);
    SteadyOk(s, s1, true);
    ResumedSteady(s1, smi, cpuid);
    SteadyTrans(s, s1, Resumed(s1, smi, cpuid), true);
  }

  lemma TopEndsSteady(s: Core, sid: StackId, sm: string, cpuid: nat)
    requires CoreOk(s) && Stack(s, sid) != []
    ensures Steady(s, TopEnds(s, sid, sm, cpuid), true)
  {
    hide Inv, Steady, Finished;
    TopKnown(s, sid);
    SteadyRefl(s);
    var stack := Stack(s, sid);
    var s1 := s.(smStack := s.smStack[sid := stack[..|stack| - 1]]);
    StackSteady(s, sid, stack[..|stack| - 1], s.swExpl);
    assert s1 == s.(smStack := s.smStack[sid := stack[..|stack| - 1]], swExpl := s.swExpl);
    SteadyOk(s, s1, true);
    FinishedSteady(s1, Top(s, sid), cpuid, |stack| > 1);
    SteadyTrans(s, s1, Finished(s1, Top(s, sid), cpuid, |stack| > 1), true);
  }

  lemma SmEndsSteady(s: Core, sys: System, cpuid: nat, sm: string, frame: nat)
    requires CoreOk(s)
    ensures SmEnds(s, sys, cpuid, sm, frame).Goes? ==> Steady(s, SmEnds(s, sys, cpuid, sm, frame).s, true)
  {
    hide Inv, Steady, KnowSys, TopEnds, SysId;
    var s1, sid, s2 := ThreadSteady(s, sys, frame, true);
    if SmEnds(s, sys, cpuid, sm, frame).Goes? {
      TopEndsSteady(s2, sid, sm, cpuid);
      SteadyTrans(s, s2, TopEnds(s2, sid, sm, cpuid), true);
    }
  }

  /** Finding the stack of a thread, as every call from guest software does. */
  lemma ThreadSteady(s: Core, sys: System, frame: nat, unmark: bool) returns (s1: Core, sid: StackId, s2: Core)
    requires CoreOk(s)
    ensures s1 == KnowSys(s, sys) && sid == StackId(SysId(s1, sys), frame)
    ensures s2 == WithStack(if unmark then s1.(swExpl := s1.swExpl[sid := false]) else s1, sid)
    ensures CoreOk(s1) && CoreOk(s2) && Steady(s, s2, true) && s2.t == s1.t && s2.scLinks == s1.scLinks
    ensures sys in s2.t.nameCache && SysId(s2, sys) == sid.sys && 1 <= sid.sys <= s2.t.numSys && KnownSys(s2, sid.sys)
  {
    hide Inv, Steady, KnowSys;
    KnowSysSteady(s, sys);
    s1 := KnowSys(s, sys);
    SteadyOk(s, s1, true);
    sid := StackId(SysId(s1, sys), frame);
    var m := if unmark then s1.(swExpl := s1.swExpl[sid := false]) else s1;
    SameStoreSteady(s1, m);
    SteadyOk(s1, m, true);
    WithStackSteady(m, sid);
    s2 := WithStack(m, sid);
    SteadyOk(m, s2, true);
    SteadyTrans(s1, m, s2, true);
    SteadyTrans(s, s1, s2, true);
  }

  lemma BeginsSteady(s: Core, sys: System, cpuid: nat, state: string, frame: nat, expl: bool, flag: nat)
    requires CoreOk(s)
    ensures Steady(s, Begins(s, sys, cpuid, state, frame, expl, flag), true)
  {
    hide Inv, Steady, StateBegins, Ignored;
    SteadyRefl(s);
    StateBeginsSteady(s, sys, cpuid, state, frame, expl, flag);
  }

  lemma StateBeginsSteady(s: Core, sys: System, cpuid: nat, state: string, frame: nat, expl: bool, flag: nat)
    requires CoreOk(s)
    ensures Steady(s, StateBegins(s, sys, cpuid, state, frame, expl, flag), true)
  {
    hide Inv, Steady, KnowSys, Entered, SysId, SmName;
    var s1, sid, s2 := ThreadSteady(s, sys, frame, false);
    if Stack(s2, sid) != [] {
      var was := sid in s2.swExpl && s2.swExpl[sid];
      var s3 := s2.(swExpl := s2.swExpl[sid := expl || was]);
      SameStoreSteady(s2, s3);
      SteadyOk(s2, s3, true);
      SteadyTrans(s, s2, s3, true);
      if expl || !was {
        var s4 := Entered(s3, SmName(s3, Top(s3, sid)), state, flag, cpuid, Top(s3, sid), false);
        EnteredSteady(s3, SmName(s3, Top(s3, sid)), state, flag, cpuid, Top(s3, sid), false);
        SteadyTrans(s, s3, s4, true);
      }
    }
  }

  lemma StateEndsSteady(s: Core, sys: System, cpuid: nat, state: string, frame: nat)
    requires CoreOk(s)
    ensures Steady(s, StateEnds(s, sys, cpuid, state, frame), true)
  {
    hide Inv, Steady, KnowSys, Entered, SysId, SmName;
    var s1, sid, s2 := ThreadSteady(s, sys, frame, false);
    if Stack(s2, sid) != [] {
      var s3 := s2.(swExpl := s2.swExpl[sid := false]);
      SameStoreSteady(s2, s3);
      SteadyOk(s2, s3, true);
      SteadyTrans(s, s2, s3, true);
      var s4 := Entered(s3, SmName(s3, Top(s3, sid)), state, 0, cpuid, Top(s3, sid), true);
      EnteredSteady(s3, SmName(s3, Top(s3, sid)), state, 0, cpuid, Top(s3, sid), true);
      SteadyTrans(s, s3, s4, true);
    }
  }

  lemma IdentifiesSteady(s: Core, sys: System, cpuid: nat, frame: nat, id: nat)
    requires CoreOk(s)
    ensures Steady(s, Identifies(s, sys, cpuid, frame, id), true)
  {
    hide Inv, Steady, KnowSys, SysId, WrapInt32;
    var s1, sid, s2 := ThreadSteady(s, sys, frame, false);
    if Stack(s2, sid) != [] {
      LoggedSteady(s2, OP_IDENT, 0, cpuid, Top(s2, sid), 0, WrapInt32(id));
      SteadyTrans(s, s2, Identifies(s, sys, cpuid, frame, id), true);
    }
  }

  lemma LinksSteady(s: Core, sys: System, cpuid: nat, frame: nat, lsm: string, context: nat, ends: bool, sm: string)
    requires CoreOk(s)
    ensures Links(s, sys, cpuid, frame, lsm, context, ends, sm).Goes? ==>
      Steady(s, Links(s, sys, cpuid, frame, lsm, context, ends, sm).s, true)
  {
    hide Inv, Steady, KnowSys, KnowSm, SmId, SmEnds, SysId;
    var s1, sid, s2 := ThreadSteady(s, sys, frame, false);
    KnowSmSteady(s2, sid.sys, Id(lsm, context));
    if Stack(s2, sid) != [] && Links(s, sys, cpuid, frame, lsm, context, ends, sm).Goes? {
      var s3 := KnowSm(s2, sid.sys, Id(lsm, context)).s;
      SteadyOk(s2, s3, true);
      SteadyTrans(s, s2, s3, true);
      var lsmi := SmId(s3, sid.sys, Id(lsm, context));
      var s4 := LinkIn(s3, lsmi, Top(s2, sid)).s;
      SameStoreSteady(s3, s4);
      SteadyOk(s3, s4, true);
      SteadyTrans(s, s3, s4, true);
      LoggedSteady(s4, OP_LINK, 0, cpuid, Top(s2, sid), lsmi, 0);
      var s5 := Logged(s4, OP_LINK, 0, cpuid, Top(s2, sid), lsmi, 0);
      SteadyOk(s4, s5, true);
      SteadyTrans(s, s4, s5, true);
      if ends {
        SmEndsSteady(s5, sys, cpuid, sm, frame);
        SteadyTrans(s, s5, SmEnds(s5, sys, cpuid, sm, frame).s, true);
      }
    }
  }

  lemma HeldInv(heap: Heap, qSize: seq<int>, qBytes: seq<int>, qData: seq<seq<Pointer>>, t: Tables,
                scLinks: seq<map<Id, Pointer>>, smStack: map<StackId, seq<nat>>, x: nat, id: Id, r: AnnotateData)
    requires Inv(heap, qSize, qBytes, qData, t, scLinks, smStack)
    requires x < |scLinks| && id !in scLinks[x] && Awaiting(r)
    ensures Inv(heap + [r], qSize, qBytes, qData, t, Hold(scLinks, x, id, |heap|), smStack)
    ensures AllNonNegative(heap, qData) ==> AllNonNegative(heap + [r], qData)
  {
    hide QueuesOk, LinksOk, TablesOk, StacksOk, OthersKept, AllNonNegative, Awaiting, Hold;
    HoldKeepsSize(scLinks, x, id, |heap|);
    QueuesAppend(heap, r, qSize, qBytes, qData);
    LinksHold(heap, scLinks, x, id, r);
    KeepUnsigned(heap, qData, heap + [r], qData);
  }

  lemma HeldSteady(s: Core, sysi: nat, id: Id, cpuid: nat, smi: nat)
    requires CoreOk(s) && 1 <= sysi <= |s.scLinks| && id !in s.scLinks[sysi - 1]
    ensures Steady(s, Held(s, sysi, id, cpuid, smi), true)
  {
    hide Inv, Record, Awaiting, Hold, Extends, AllNonNegative;
    var r := Record(s.now, OP_LINK, 0, cpuid, smi, UNKNOWN_SM, 0).(dump := false);
    PlaceholderAwaits(s.now, cpuid, smi);
    HeldInv(s.heap, s.qSize, s.qBytes, s.qData, s.t, s.scLinks, s.smStack, sysi - 1, id, r);
    ExtendsAdded(s.heap, [r]);
  }

  lemma PlaceholderAwaits(now: int, cpuid: nat, smi: nat)
    ensures Awaiting(Record(now, OP_LINK, 0, cpuid, smi, UNKNOWN_SM, 0).(dump := false))
  {
  }

  lemma HoldKeepsSize(scLinks: seq<map<Id, Pointer>>, x: nat, id: Id, p: Pointer)
    requires x < |scLinks|
    ensures |Hold(scLinks, x, id, p)| == |scLinks|
  {
  }

  lemma SyscallLinksSteady(s: Core, sys: System, cpuid: nat, frame: nat, lsm: string, ends: bool, sm: string)
    requires CoreOk(s)
    ensures SyscallLinks(s, sys, cpuid, frame, lsm, ends, sm).Goes? ==>
      Steady(s, SyscallLinks(s, sys, cpuid, frame, lsm, ends, sm).s, true)
  {
    hide Inv, Steady, KnowSys, SmEnds, SysId, Held;
    var s1, sid, s2 := ThreadSteady(s, sys, frame, false);
    if Stack(s2, sid) != [] && SyscallLinks(s, sys, cpuid, frame, lsm, ends, sm).Goes? {
      HeldSteady(s2, sid.sys, Id(lsm, frame), cpuid, Top(s2, sid));
      var s3 := Held(s2, sid.sys, Id(lsm, frame), cpuid, Top(s2, sid));
      SteadyOk(s2, s3, true);
      SteadyTrans(s, s2, s3, true);
      if ends {
        SmEndsSteady(s3, sys, cpuid, sm, frame);
        SteadyTrans(s, s3, SmEnds(s3, sys, cpuid, sm, frame).s, true);
      }
    }
  }

  lemma GetsIdSteady(s: Core, sys: System, cpuid: nat, frame: nat)
    requires CoreOk(s)
    ensures GetsId(s, sys, cpuid, frame).Goes? ==> Steady(s, GetsId(s, sys, cpuid, frame).s, true)
  {
    hide Inv, Steady, KnowSys, SysId, WrapInt32;
    var s0 := s.(conId := s.conId + 1);
    SameStoreSteady(s, s0);
    SteadyOk(s, s0, true);
    var s1, sid, s2 := ThreadSteady(s0, sys, frame, false);
    SteadyTrans(s, s0, s2, true);
    if Stack(s2, sid) != [] {
      LoggedSteady(s2, OP_IDENT, 0, cpuid, Top(s2, sid), 0, WrapInt32(s2.conId));
      SteadyTrans(s, s2, Logged(s2, OP_IDENT, 0, cpuid, Top(s2, sid), 0, WrapInt32(s2.conId)), true);
    }
  }

  predicate UnsignedOp(op: QueueCall) { op.Enqueues? ==> op.count >= 0 }

  lemma QueueOpsSteady(s: Core, op: QueueCall, flag: nat, cpuid: nat, smi: nat, sysi: nat, name: Id)
    requires CoreOk(s) && 1 <= sysi <= s.t.numSys && IsInt32(op.count)
    ensures QueueOps(s, op, flag, cpuid, smi, sysi, name).Goes? ==>
      Steady(s, QueueOps(s, op, flag, cpuid, smi, sysi, name).s, UnsignedOp(op))
  {
    hide Inv, Steady, KnowQ, QId, Enqueue, Dequeue, Resize, OthersSame, Units, NonNegative, JoinedUnits, Repeat;
    KnowQSteady(s, sysi, name);
    if QueueOps(s, op, flag, cpuid, smi, sysi, name).Goes? {
      var s1 := KnowQ(s, sysi, name).s;
      var qi := QId(s1, sysi, name);
      SteadyOk(s, s1, true);
      Weaken(s, s1, UnsignedOp(op));
      var s2 := QueueOps(s, op, flag, cpuid, smi, sysi, name).s;
      match op {
        case Enqueues(count) =>
          EnqueueAdds(s1, flag, cpuid, smi, qi, count);
        case Dequeues(count) =>
          DequeueDrops(s1, flag, cpuid, smi, qi, count);
        case Resizes(count, reset) =>
          ResizeSets(s1, reset, cpuid, smi, qi, count);
        case _ =>
          LoggedSteady(s1, op.Operation(), flag, cpuid, smi, qi, op.count);
      }
      SteadyTrans(s, s1, s2, UnsignedOp(op));
    }
  }

  lemma HwBeginsSteady(s: Core, flag: nat, sys: System, frame: nat, sm: string, state: string)
    requires CoreOk(s)
    ensures HwBegins(s, flag, sys, frame, sm, state).Goes? ==>
        Steady(s, HwBegins(s, flag, sys, frame, sm, state).s, true)
  {
    hide Inv, Steady, KnowSys, KnowSm, KnowSt, SmId, StId, SysId;
    KnowSysSteady(s, sys);
    var s1 := KnowSys(s, sys);
    SteadyOk(s, s1, true);
    KnowSmSteady(s1, SysId(s1, sys), Id(sm, frame));
    if HwBegins(s, flag, sys, frame, sm, state).Goes? {
      var s2 := KnowSm(s1, SysId(s1, sys), Id(sm, frame)).s;
      SteadyOk(s1, s2, true);
      SteadyTrans(s, s1, s2, true);
      KnowStSteady(s2, sm, state);
      var s3 := KnowSt(s2, sm, state);
      SteadyOk(s2, s3, true);
      SteadyTrans(s, s2, s3, true);
      var smi, sti := SmId(s3, SysId(s1, sys), Id(sm, frame)), StId(s3, sm, state);
      LoggedSteady(s3, OP_BEGIN, Hardware(flag), 0, smi, sti, 0);
      SteadyTrans(s, s3, Logged(s3, OP_BEGIN, Hardware(flag), 0, smi, sti, 0), true);
    }
  }

  lemma HwQueuesSteady(s: Core, op: QueueCall, flag: nat, sys: System, frame: nat, sm: string, qSys: System, q: Id)
    requires CoreOk(s) && IsInt32(op.count)
    ensures HwQueues(s, op, flag, sys, frame, sm, qSys, q).Goes? ==>
      Steady(s, HwQueues(s, op, flag, sys, frame, sm, qSys, q).s, UnsignedOp(op))
  {
    hide Inv, Steady, KnowSys, KnowSm, SmId, SysId, QueueOps;
    KnowSysSteady(s, sys);
    var s1 := KnowSys(s, sys);
    SteadyOk(s, s1, true);
    KnowSysSteady(s1, qSys);
    var s2 := KnowSys(s1, qSys);
    SteadyOk(s1, s2, true);
    SteadyTrans(s, s1, s2, true);
    KnowSmSteady(s2, SysId(s1, sys), Id(sm, frame));
    if HwQueues(s, op, flag, sys, frame, sm, qSys, q).Goes? {
      var s3 := KnowSm(s2, SysId(s1, sys), Id(sm, frame)).s;
      SteadyOk(s2, s3, true);
      SteadyTrans(s, s2, s3, true);
      Weaken(s, s3, UnsignedOp(op));
      QueueOpsSteady(s3, op, Hardware(flag), 0, SmId(s3, SysId(s1, sys), Id(sm, frame)), SysId(s2, qSys), q);
      SteadyTrans(s, s3, HwQueues(s, op, flag, sys, frame, sm, qSys, q).s, UnsignedOp(op));
    }
  }

  lemma SwQueuesSteady(s: Core, op: QueueCall, sys: System, frame: nat, cpuid: nat, q: Id)
    requires CoreOk(s) && IsInt32(op.count)
    ensures SwQueues(s, op, sys, frame, cpuid, q).Goes? ==>
      Steady(s, SwQueues(s, op, sys, frame, cpuid, q).s, UnsignedOp(op))
  {
    hide Inv, Steady, KnowSys, KnowQ, SysId, QueueOps, Refused;
    var s1, sid, s2 := ThreadSteady(s, sys, frame, false);
    Weaken(s, s2, UnsignedOp(op));
    if Stack(s2, sid) != [] && SwQueues(s, op, sys, frame, cpuid, q).Goes? {
      var s3 := if op.Unmarks() then s2.(swExpl := s2.swExpl[sid := false]) else s2;
      SameStoreSteady(s2, s3);
      SteadyOk(s2, s3, true);
      SteadyTrans(s, s2, s3, true);
      Weaken(s, s3, UnsignedOp(op));
      var s4 := SwQueues(s, op, sys, frame, cpuid, q).s;
      if op.Enqueues? && op.count == 0 {
        KnowQSteady(s3, sid.sys, q);
        Weaken(s3, s4, UnsignedOp(op));
      } else {
        QueueOpsSteady(s3, op, 0, cpuid, Top(s3, sid), sid.sys, q);
      }
      SteadyTrans(s, s3, s4, UnsignedOp(op));
    }
  }

  lemma WaitsSteady(s: Core, op: QueueCall, sys: System, frame: nat, cpuid: nat, q: Id, ends: bool, sm: string)
    requires CoreOk(s) && IsInt32(op.count) && UnsignedOp(op)
    ensures Waits(s, op, sys, frame, cpuid, q, ends, sm).Goes? ==>
      Steady(s, Waits(s, op, sys, frame, cpuid, q, ends, sm).s, true)
  {
    hide Inv, Steady, KnowSys, SysId, SwQueues, SmEnds;
    SwQueuesSteady(s, op, sys, frame, cpuid, q);
    if SwQueues(s, op, sys, frame, cpuid, q).Goes? {
      var s1 := SwQueues(s, op, sys, frame, cpuid, q).s;
      SteadyOk(s, s1, true);
      SmEndsSteady(s1, sys, cpuid, sm, frame);
      if SmEnds(s1, sys, cpuid, sm, frame).Goes? { SteadyTrans(s, s1, SmEnds(s1, sys, cpuid, sm, frame).s, true); }
    }
  }

  lemma ChecksSteady(s: Core, sys: System, q: Id)
    requires CoreOk(s)
    ensures Checks(s, sys, q).Goes? ==> Steady(s, Checks(s, sys, q).s, true)
  {
    hide Inv, Steady, KnowSys, SysId, KnowQ;
    KnowSysSteady(s, sys);
    var s1 := KnowSys(s, sys);
    SteadyOk(s, s1, true);
    KnowQSteady(s1, SysId(s1, sys), q);
    if Checks(s, sys, q).Goes? { SteadyTrans(s, s1, Checks(s, sys, q).s, true); }
  }

  // ----- Whole runs -----

  /** Each call that goes on keeps everything in order and every record in its place. */
  lemma NextSteady(s: Core, c: Call)
    requires CoreOk(s) && c.WellTyped()
    ensures Next(s, c).Goes? ==> Steady(s, Next(s, c).s, c.Unsigned())
  {
    hide Inv, Steady, SmBegins, SmEnds, Begins, Links, SyscallLinks, GetsId, HwBegins, HwQueues, SwQueues;
    hide Waits, Checks, StateEnds, Identifies;
    match c {
      case SmBegin(sys, frame, cpuid, sm, context, link, state) =>
        SmBeginsSteady(s, sys, frame, cpuid, sm, context, link, state);
      case SmEnd(sys, frame, cpuid, sm) => SmEndsSteady(s, sys, cpuid, sm, frame);
      case Begin(sys, frame, cpuid, state, expl, flag) => BeginsSteady(s, sys, cpuid, state, frame, expl, flag);
      case Link(sys, frame, cpuid, lsm, context, ends, sm) => LinksSteady(s, sys, cpuid, frame, lsm, context, ends, sm);
      case SyscallLink(sys, frame, cpuid, lsm, ends, sm) => SyscallLinksSteady(s, sys, cpuid, frame, lsm, ends, sm);
      case GetId(sys, frame, cpuid) => GetsIdSteady(s, sys, cpuid, frame);
      case HardwareBegin(flag, sys, frame, sm, state) => HwBeginsSteady(s, flag, sys, frame, sm, state);
      case HardwareQueue(op, flag, sys, frame, sm, qSys, q) => HwQueuesSteady(s, op, flag, sys, frame, sm, qSys, q);
      case SoftwareQueue(op, sys, frame, cpuid, q) => SwQueuesSteady(s, op, sys, frame, cpuid, q);
      case Wait(_, _, sys, frame, cpuid, q, ends, sm) => WaitsSteady(s, c.Awaited(), sys, frame, cpuid, q, ends, sm);
      case CheckQueue(sys, q) => ChecksSteady(s, sys, q);
      case End(sys, frame, cpuid, state) => StateEndsSteady(s, sys, cpuid, state, frame);
      case Identify(sys, frame, cpuid, id) => IdentifiesSteady(s, sys, cpuid, frame, id);
      case Tick(now) => SameStoreSteady(s, s.(now := now));
    }
  }

  predicate WellTypedAll(calls: seq<Call>) { forall i :: 0 <= i < |calls| ==> calls[i].WellTyped() }
  predicate UnsignedAll(calls: seq<Call>) { forall i :: 0 <= i < |calls| ==> calls[i].Unsigned() }

  /** So does every run: the records there before and those of any part of it are all still in place. */
  lemma {:induction false} RunSteady(s: Core, calls: seq<Call>, i: nat)
    requires CoreOk(s) && WellTypedAll(calls) && After(s, calls).Goes? && i <= |calls|
    ensures After(s, calls[..i]).Goes?
    ensures CoreOk(After(s, calls[..i]).s)
    ensures Steady(After(s, calls[..i]).s, After(s, calls).s, UnsignedAll(calls))
    decreases |calls|
  {
    hide Inv, Steady, Next;
    if i == |calls| {
      assert calls[..i] == calls;
      if calls != [] {
        var front := calls[..|calls| - 1];
        RunSteady(s, front, |front|);
        assert front[..|front|] == front;
        NextSteady(After(s, front).s, calls[|calls| - 1]);
        SteadyOk(After(s, front).s, After(s, calls).s, calls[|calls| - 1].Unsigned());
      }
      SteadyRefl(After(s, calls).s);
      Weaken(After(s, calls).s, After(s, calls).s, UnsignedAll(calls));
    } else {
      var front, last := calls[..|calls| - 1], calls[|calls| - 1];
      RunSteady(s, front, i);
      RunSteady(s, front, |front|);
      assert front[..i] == calls[..i] && front[..|front|] == front;
      var s1 := After(s, front).s;
      NextSteady(s1, last);
      Loosen(After(s, calls[..i]).s, s1, UnsignedAll(front), UnsignedAll(calls));
      Loosen(s1, After(s, calls).s, last.Unsigned(), UnsignedAll(calls));
      SteadyTrans(After(s, calls[..i]).s, s1, After(s, calls).s, UnsignedAll(calls));
    }
  }

  /**
   After every run without negative counts, each queue has as many records as `qSize` says and as many
   byte units as `qBytes` says.
   */
  lemma QueuesCounted(s: Core, calls: seq<Call>, x: nat)
    requires CoreOk(s) && Unsigned(s) && WellTypedAll(calls) && UnsignedAll(calls) && After(s, calls).Goes?
    requires x < |After(s, calls).s.qData|
    ensures var s' := After(s, calls).s;
      && |s'.qSize| == |s'.qBytes| == |s'.qData| && s'.qSize[x] == |s'.qData[x]|
      && InHeap(s'.heap, s'.qData[x]) && s'.qBytes[x] == |Units(s'.heap, s'.qData[x])|
  {
    hide Inv, Next, QueuesOk, Units, Bytes, InHeap, NonNegative, Distinct, Extends, AllNonNegative;
    RunSteady(s, calls, 0);
    assert calls[..0] == [];
    var s' := After(s, calls).s;
    Shape(s');
    QueueOf(s', x + 1);
    UnsignedAt(s', x + 1);
    UnitsCount(s'.heap, s'.qData[x]);
  }

  lemma Loosen(s: Core, s': Core, a: bool, b: bool)
    requires Steady(s, s', a) && (b ==> a)
    ensures Steady(s, s', b)
  {
  }
}
