/**
 The critical-path annotator as one object: interning tables, byte-counted queues, the
 record log with held-back link records, and the stacks of running state machines.

 Reading a missing key of a C++ map inserts it; the methods below do the same.  A failed
 assertion, `fatal` and `panic` end the simulation: the method then reports `Stopped`.
 Every method computes what the state functions say.
 */
module CpaAnnotator {
  import opened CpaRecords
  import opened CpaQueues
  import opened CpaTables
  import opened CpaLog
  import opened CpaSpec
  import opened CpaInvariant
  import opened CpaSteps

  datatype Status = Running | Stopped

  // ----- The annotator -----

  class CPA {
    var curTick: int

    var heap: Heap
    var data: seq<Pointer>
    var written: seq<Image>
    var numRecs: nat
    var annotateIdx: seq<nat>

    var qSize: seq<int>
    var qBytes: seq<int>
    var qData: seq<seq<Pointer>>

    var t: Tables

    var scLinks: seq<map<Id, Pointer>>
    var smStack: map<StackId, seq<nat>>
    var lnMap: map<nat, nat>
    var swExpl: map<StackId, bool>
    var lastState: map<nat, nat>
    var conId: nat

    ghost function Now(): Core
      reads this
    {
      Core(curTick, heap, qSize, qBytes, qData, t, scLinks, smStack, lnMap, swExpl, lastState, conId)
    }

    ghost predicate LogValid()
      reads this`heap, this`data, this`written, this`numRecs, this`annotateIdx
    {
      LogOk(heap, data, written, annotateIdx) && numRecs == |written|
    }

    ghost predicate Valid()
      reads this
    {
      CoreOk(Now()) && LogValid()
    }

    constructor ()
      ensures Valid() && Now() == EMPTY_CORE
      ensures data == [] && written == [] && numRecs == 0 && annotateIdx == []
    {
      curTick := 0;
      heap, data, written, numRecs, annotateIdx := [], [], [], 0, [];
      qSize, qBytes, qData := [], [], [];
      t := NO_TABLES;
      scLinks, smStack, lnMap, swExpl, lastState, conId := [], map[], map[], map[], map[], 0;
      new;
      EmptyCoreOk();
      hide CoreOk;
    }

    /** An annotator filled from a checkpoint: nothing written yet, all its records pending. */
    constructor Loaded(s: Core, data: seq<Pointer>)
      requires LogOk(s.heap, data, [], [])
      ensures Now() == s && this.data == data && written == [] && annotateIdx == []
      ensures CoreOk(s) ==> Valid()
    {
      hide LogOk, CoreOk;
      curTick := s.now;
      t, conId, qSize, qBytes, qData := s.t, s.conId, s.qSize, s.qBytes, s.qData;
      smStack, lnMap, swExpl, lastState := s.smStack, s.lnMap, s.swExpl, s.lastState;
      scLinks, heap, this.data := s.scLinks, s.heap, data;
      written, numRecs, annotateIdx := [], 0, [];
    }

    // ----- The log -----

    /** Writes pending records in order; an unforced dump stops at the first held one. */
    method Dump(all: bool)
      requires LogValid()
      modifies this`data, this`written, this`numRecs, this`annotateIdx
      ensures !all ==> LogValid()
      ensures !all && |old(data)| < DUMP_THRESHOLD ==> data == old(data) && written == old(written)
      ensures !all && |old(data)| >= DUMP_THRESHOLD ==> data == [] || !heap[data[0]].dump
      ensures all ==> data == [] && (forall i :: 0 <= i < |old(data)| ==> old(data)[i] < |heap|)
                      && written == old(written) + Images(heap, old(data))
      ensures IndexOk(annotateIdx, |written|) && old(written) <= written
    {
      hide Images, LogOk, IndexOk, NextIndex;
      LogIndexed(heap, data, written, annotateIdx);
      if data == [] || (!all && |data| < DUMP_THRESHOLD) {
        assert data == [] ==> Images(heap, data) == [] by { NoImages(heap); }
        return;
      }
      PendingInHeap(heap, data, written, annotateIdx);
      var i := 0;
      ghost var pending := data;
      ImagesNext(heap, pending, 0);
      assert pending[0..] == pending;
      while i < |data|
        invariant 0 <= i <= |data| && data == pending
        invariant written == old(written) + Images(heap, pending[..i]) && numRecs == |written|
        invariant IndexOk(annotateIdx, |written|)
        invariant !all ==> LogOk(heap, pending[i..], written, annotateIdx)
        modifies this`written, this`numRecs, this`annotateIdx
      {
        var an := heap[data[i]];
        if !an.dump && !all { break; }
        ImagesNext(heap, pending, i);
        assert pending[i..][0] == pending[i] && pending[i..][1..] == pending[i + 1..];
        if !all {
          FirstPending(heap, pending[i..], written, annotateIdx);
          WriteNext(heap, pending[i..], written, annotateIdx);
        }
        IndexStep(annotateIdx, |written|);
        WriteRecord(an);
        i := i + 1;
      }
      data := data[i..];
    }

    /** One record to the file, with an index entry for every hundred-thousandth. */
    method WriteRecord(an: AnnotateData)
      requires numRecs == |written|
      modifies this`written, this`numRecs, this`annotateIdx
      ensures written == old(written) + [ImageOf(an)] && numRecs == |written|
      ensures written == old(written) + [Image(an.time, an.origData, an.sm, an.stq, an.op, an.flag, an.cpu)]
      ensures annotateIdx == NextIndex(old(annotateIdx), |old(written)|)
    {
      numRecs := numRecs + 1;
      if numRecs % INDEX_STEP == 0 {
        annotateIdx := annotateIdx + [Position(|written|)];
      }
      written := written + [ImageOf(an)];
    }

    /** Appends a record; everything but a link may trigger a dump. */
    method Add(t: nat, f: nat, c: nat, sm: nat, stq: nat, d: int) returns (p: Pointer)
      requires LogValid()
      modifies this`heap, this`data, this`written, this`numRecs, this`annotateIdx
      ensures LogValid() && p == |old(heap)|
      ensures heap == old(heap) + [Record(curTick, t, f, c, sm, stq, d)]
      ensures heap[p] == AnnotateData(curTick, d, d, sm, stq % 0x1_0000, t, f % 256, c % 256, true)
      ensures old(written) <= written
      ensures t == OP_LINK ==> written == old(written)
      ensures t != OP_LINK ==> |data| < DUMP_THRESHOLD || !heap[data[0]].dump
    {
      var an := AnnotateData(curTick, d, d, sm, stq % 0x1_0000, t, f % 256, c % 256, true);
      p := |heap|;
      AppendPending(heap, data, written, annotateIdx, an);
      heap := heap + [an];
      data := data + [p];
      if t != OP_LINK {
        Dump(false);
      }
    }

    /** `Add` when the whole annotator is in order. */
    method Note(op: nat, flag: nat, cpuid: nat, sm: nat, stq: nat, d: int)
      requires Valid()
      modifies this`heap, this`data, this`written, this`numRecs, this`annotateIdx
      ensures Valid() && old(written) <= written
      ensures Now() == Logged(old(Now()), op, flag, cpuid, sm, stq, d)
    {
      hide LogOk, Inv;
      LoggedSteady(Now(), op, flag, cpuid, sm, stq, d);
      var _ := Add(op, flag, cpuid, sm, stq, d);
    }

    // ----- Interning -----

    method GetSys(s: System) returns (sysi: nat)
      requires Valid()
      modifies this`t, this`scLinks
      ensures Valid() && Now() == KnowSys(old(Now()), s) && sysi == SysId(Now(), s)
      ensures s in t.nameCache && 1 <= sysi <= t.numSys
    {
      hide LogOk, Inv;
      KnowSysSteady(Now(), s);
      if s !in t.nameCache {
        t := t.(numSys := t.numSys + 1);
        t := t.(nameCache := t.nameCache[s := (s.name, t.numSys)]);
        t := t.(numQ := t.numQ + [0], qCache := t.qCache + [map[]], smCache := t.smCache + [map[]]);
        scLinks := scLinks + [map[]];
      }
      sysi := t.nameCache[s].1;
    }

    method GetSm(sysi: nat, id: Id) returns (st: Status, smi: nat)
      requires Valid() && 1 <= sysi <= t.numSys
      modifies this`t
      ensures st.Running? <==> KnowSm(old(Now()), sysi, id).Goes?
      ensures st.Running? ==> Valid() && Now() == KnowSm(old(Now()), sysi, id).s && smi == SmId(Now(), sysi, id)
      ensures st.Running? ==> 1 <= smi <= |t.smMap| && t.smMap[smi - 1] == (sysi, id) && t.numSys == old(t.numSys)
      ensures st.Running? ==> t.nameCache == old(t.nameCache)
    {
      hide LogOk, Inv, TablesOk, StatesOk, Steady;
      Shape(Now());
      KnowSmSteady(Now(), sysi, id);
      if KnowSm(Now(), sysi, id).Goes? { SteadyCore(Now(), KnowSm(Now(), sysi, id).s); }
      NumberedFromOne(t, sysi, id);
      smi := if id in t.smCache[sysi - 1] then t.smCache[sysi - 1][id] else 0;
      if smi == 0 {
        smi := t.numSm + 1;
        t := t.(numSm := smi, smCache := AddName(t.smCache, sysi, id, smi));
        if !(smi < MAX_IDS) { return Stopped, smi; }
        t := t.(smMap := t.smMap + [(sysi, id)]);
      }
      st := Running;
    }

    method GetSt(sm: string, s: string) returns (sti: nat)
      requires Valid()
      modifies this`t
      ensures Valid() && Now() == KnowSt(old(Now()), sm, s) && sti == StId(Now(), sm, s) && sti >= 1
    {
      hide LogOk, Inv, TablesOk, StatesOk, Steady;
      ghost var before := t;
      KnowStSteady(Now(), sm, s);
      SteadyCore(Now(), KnowSt(Now(), sm, s));
      Shape(Now());
      StShape(before, sm, s);
      var smi := GetSmt(sm);
      StRange(t, smi - 1, s);
      sti := if s in t.stCache[smi - 1] then t.stCache[smi - 1][s] else 0;
      if sti == 0 {
        sti := t.numSt[smi - 1] + 1;
        t := t.(numSt := t.numSt[smi - 1 := sti], stCache := t.stCache[smi - 1 := Put(t.stCache[smi - 1], s, sti)]);
      }
    }

    /** The number of a kind of machine, with room for its states. */
    method GetSmt(sm: string) returns (smi: nat)
      requires StatesOk(t)
      modifies this`t
      ensures t == InternSmt(old(t), sm) && StatesOk(t)
      ensures sm in t.smtCache && smi == t.smtCache[sm] && 1 <= smi <= |t.stCache| == |t.numSt| == t.numSmt
    {
      hide StatesOk;
      ghost var before := t;
      InternSmtOk(before, sm);
      StatesShape(before);
      SmtRange(before, sm);
      smi := if sm in t.smtCache then t.smtCache[sm] else 0;
      if smi == 0 {
        smi := t.numSmt + 1;
        t := t.(numSmt := smi, smtCache := t.smtCache[sm := smi]);
      }
      while |t.stCache| < smi
        invariant smi == before.numSmt + 1 || t == before
        invariant smi == before.numSmt + 1 ==>
                    t == InternSmt(before, sm)
                    || t == InternSmt(before, sm).(stCache := before.stCache, numSt := before.numSt)
        invariant |t.stCache| == |t.numSt|
        decreases smi - |t.stCache|
      {
        t := t.(stCache := t.stCache + [map[]], numSt := t.numSt + [0]);
      }
      StatesShape(t);
    }

    method GetQ(sysi: nat, id: Id) returns (st: Status, qi: nat)
      requires Valid() && 1 <= sysi <= t.numSys
      modifies this`t, this`qSize, this`qBytes, this`qData
      ensures st.Running? <==> KnowQ(old(Now()), sysi, id).Goes?
      ensures st.Running? ==> Valid() && Now() == KnowQ(old(Now()), sysi, id).s && qi == QId(Now(), sysi, id)
      ensures st.Running? ==> 1 <= qi <= t.numQs
    {
      hide LogOk, Inv, TablesOk, StatesOk, Steady;
      Shape(Now());
      KnowQSteady(Now(), sysi, id);
      if KnowQ(Now(), sysi, id).Goes? { SteadyCore(Now(), KnowQ(Now(), sysi, id).s); }
      NumberedFromOne(t, sysi, id);
      qi := if id in t.qCache[sysi - 1] then t.qCache[sysi - 1][id] else 0;
      if qi == 0 {
        qi := t.numQs + 1;
        if !(qi < MAX_IDS) { return Stopped, qi; }
        NewQueue(sysi, id);
      }
      st := Running;
    }

    method NewQueue(sysi: nat, id: Id)
      requires KnownSys(Now(), sysi) && id !in t.qCache[sysi - 1]
      modifies this`t, this`qSize, this`qBytes, this`qData
      ensures t == InternQ(old(t), sysi, id)
      ensures qSize == old(qSize) + [0] && qBytes == old(qBytes) + [0] && qData == old(qData) + [[]]
    {
      var qi := t.numQs + 1;
      t := t.(numQs := qi, qCache := AddName(t.qCache, sysi, id, qi));
      qSize := qSize + [0];
      qBytes := qBytes + [0];
      qData := qData + [[]];
      t := t.(numQ := t.numQ[sysi - 1 := t.numQ[sysi - 1] + 1], qMap := t.qMap + [(sysi, id)]);
    }

    // ----- Queues -----

    /** Appends a record of `count` bytes, or puts it in front if the flag says so. */
    method DoQ(flags: nat, cpuid: nat, sm: nat, qi: nat, count: int) returns (st: Status)
      requires Valid() && 1 <= qi <= t.numQs && IsInt32(count)
      modifies this`heap, this`data, this`written, this`numRecs, this`annotateIdx, this`qSize, this`qBytes, this`qData
      ensures old(written) <= written
      ensures st.Running? <==> Enqueue(old(Now()), flags, cpuid, sm, qi, count).Goes?
      ensures st.Running? ==> Valid() && Now() == Enqueue(old(Now()), flags, cpuid, sm, qi, count).s
    {
      hide LogOk, Inv, Enqueue, Record, QueuesInFront, WrapInt32, Joined;
      EnqueueStep(Now(), flags, cpuid, sm, qi, count);
      var x := qi - 1;
      CountIn(x, count);
      var p := Add(OP_QUEUE, flags, cpuid, sm, qi, count);
      JoinQueue(x, p, QueuesInFront(flags));
      st := if qBytes[x] >= 0 then Running else Stopped;
    }

    /** One more record of count bytes. */
    method CountIn(x: nat, count: int)
      requires x < |qSize| == |qBytes|
      modifies this`qSize, this`qBytes
      ensures qSize == old(qSize)[x := old(qSize)[x] + 1]
      ensures qBytes == old(qBytes)[x := WrapInt32(old(qBytes)[x] + count)]
    {
      qSize := qSize[x := qSize[x] + 1];
      qBytes := qBytes[x := WrapInt32(qBytes[x] + count)];
    }

    /** Puts record p at one end of a queue. */
    method JoinQueue(x: nat, p: Pointer, front: bool)
      requires x < |qData|
      modifies this`qData
      ensures qData == old(qData)[x := Joined(old(qData)[x], p, front)]
    {
      if front {
        qData := qData[x := [p] + qData[x]];
      } else {
        qData := qData[x := qData[x] + [p]];
      }
    }

    /** Empties queue qi. */
    method Clear(qi: nat)
      requires Valid() && 1 <= qi <= t.numQs
      modifies this`qSize, this`qBytes, this`qData
      ensures KnownQ(old(Now()), qi) && Valid() && Now() == WithQueue(old(Now()), qi, [], 0)
    {
      hide LogOk, Inv, InHeap, Distinct, Bytes, Units, NonNegative, OthersSame;
      QueueOf(Now(), qi);
      ClearedSteady(Now(), qi);
      qData := qData[qi - 1 := []];
      qSize := qSize[qi - 1 := 0];
      qBytes := qBytes[qi - 1 := 0];
    }

    /**
     Takes `count` bytes from the front, splitting a record if need be; -1 takes everything.
     It stops the simulation exactly when more is asked for than the queue holds, or when negative
     counts drive the need out of 32 bits.
     */
    method DoDq(flags: nat, cpuid: nat, sm: nat, qi: nat, count: int) returns (st: Status)
      requires Valid() && 1 <= qi <= t.numQs && IsInt32(count)
      modifies this`heap, this`data, this`written, this`numRecs, this`annotateIdx, this`qSize, this`qBytes, this`qData
      ensures old(written) <= written
      ensures st.Running? <==> Dequeue(old(Now()), flags, cpuid, sm, qi, count).Goes?
      ensures st.Running? ==> Valid() && Now() == Dequeue(old(Now()), flags, cpuid, sm, qi, count).s
    {
      hide LogOk, Inv, InHeap, Distinct, Bytes, Dequeued, FrontOverflows;
      QueueOf(Now(), qi);
      if count == -1 {
        Note(OP_DEQUEUE, flags, cpuid, sm, qi, count);
        Clear(qi);
        return Running;
      }
      if !(count > 0) { return Stopped; }
      EmptyBytes(heap, qData[qi - 1]);
      if qSize[qi - 1] <= 0 || qBytes[qi - 1] <= 0 || |qData[qi - 1]| == 0 { return Stopped; }
      if qBytes[qi - 1] - count < 0 { return Stopped; }
      st := RemoveFront(qi, count);
      if st.Stopped? { return; }
      Note(OP_DEQUEUE, flags, cpuid, sm, qi, count);
    }

    /** Drops count bytes from the front. */
    method RemoveFront(qi: nat, count: int) returns (st: Status)
      requires Valid() && 1 <= qi <= t.numQs && KnownQ(Now(), qi) && 0 < count <= qBytes[qi - 1]
      modifies this`heap, this`qSize, this`qBytes, this`qData
      ensures st.Running? <==> !FrontOverflows(old(heap), old(qData)[qi - 1], count)
      ensures st.Running? ==> Valid() && Now() == Dequeued(old(Now()), qi, count)
    {
      hide LogOk, Inv, InHeap, Distinct, Bytes, Units, NonNegative, Removing, OthersSame, Steady, TakeFront;
      hide FrontOverflows;
      ghost var s := Now();
      QueueOf(s, qi);
      DequeuedDrops(s, qi, count);
      SteadyOk(s, Dequeued(s, qi, count), true);
      qBytes := qBytes[qi - 1 := qBytes[qi - 1] - count];
      st := TakeFrontLoop(qi - 1, count);
      if st.Running? { KeepLog(s.heap, s.qData[qi - 1], count, qData[qi - 1]); }
    }

    /** The loop; its check for an empty queue never fails. */
    method TakeFrontLoop(x: nat, count: int) returns (st: Status)
      requires x < |qData| && |qData| == |qSize| == |qBytes| && qSize[x] == |qData[x]| && 0 <= qBytes[x]
      requires InHeap(heap, qData[x]) && Distinct(qData[x]) && 0 < count <= Bytes(heap, qData[x])
      modifies this`heap, this`qSize, this`qData
      ensures st.Running? <==> !FrontOverflows(old(heap), old(qData)[x], count)
      ensures st.Running? ==>
        && |qData| == |old(qData)| && (heap, qData[x]) == TakeFront(old(heap), old(qData)[x], count)
        && qData == old(qData)[x := qData[x]] && qSize == old(qSize)[x := |qData[x]|]
        && Removing(old(heap), old(qData)[x], count, heap, qData[x], 0)
    {
      hide InHeap, Distinct, Bytes, Units, NonNegative, Removing, FrontGone, TakeFront, FrontOverflows;
      var need := count;
      ghost var heap0, q0 := heap, qData[x];
      RemovingStarts(heap, q0, count);
      while need > 0
        invariant 0 <= need && |qSize| == |qData| == |old(qData)|
        invariant qData == old(qData)[x := qData[x]] && qSize == old(qSize)[x := |qData[x]|]
        invariant Removing(heap0, q0, count, heap, qData[x], need)
        invariant TakeFront(heap, qData[x], need) == TakeFront(heap0, q0, count)
        invariant FrontOverflows(heap, qData[x], need) == FrontOverflows(heap0, q0, count)
        decreases |qData[x]|, need
      {
        NeverRunsDry(heap0, q0, count, heap, qData[x], need);
        RemovingInHeap(heap0, q0, count, heap, qData[x], need);
        assert qSize[x] > 0 && qBytes[x] >= 0;
        var front := qData[x][0];
        var headBytes := heap[front].data;
        TakeFrontStep(heap, qData[x], need);
        if headBytes <= need && need - headBytes > INT32_MAX { return Stopped; }
        if headBytes > need {
          RemoveFromHead(heap0, q0, count, heap, qData[x], need);
          heap := Shrunk(heap, front, need);
          need := 0;
        } else {
          RemoveHead(heap0, q0, count, heap, qData[x], need);
          PopRecord(x, true);
          need := if headBytes == need then 0 else need - headBytes;
        }
      }
      TakeNothing(heap, qData[x]);
      st := Running;
    }

    /** A used-up record leaves its end of the queue. */
    method PopRecord(x: nat, front: bool)
      requires x < |qData| == |qSize| && qData[x] != []
      modifies this`qData, this`qSize
      ensures qData == old(qData)[x := if front then old(qData)[x][1..] else old(qData)[x][..|old(qData)[x]| - 1]]
      ensures qSize == old(qSize)[x := old(qSize)[x] - 1]
    {
      if front {
        qData := qData[x := qData[x][1..]];
      } else {
        qData := qData[x := qData[x][..|qData[x]| - 1]];
      }
      qSize := qSize[x := qSize[x] - 1];
    }

    /** Taking bytes out of queued records does not disturb the log. */
    ghost method KeepLog(heap0: Heap, q0: seq<Pointer>, count: int, q: seq<Pointer>)
      requires Removing(heap0, q0, count, heap, q, 0) && LogOk(heap0, data, written, annotateIdx)
      ensures LogOk(heap, data, written, annotateIdx)
    {
      hide LogOk, Removing;
      RemovedExtends(heap0, q0, count, heap, q);
      WrittenInHeap(heap0, data, written, annotateIdx);
      LogFrame(heap0, heap, data, written, annotateIdx);
    }

    /**
     Makes queue qi hold `size` bytes: after an optional reset it grows by one record or is
     trimmed from the back.  It stops the simulation only when negative counts overflow.
     */
    method SwSq(reset: bool, cpuid: nat, smi: nat, qi: nat, size: int) returns (st: Status)
      requires Valid() && 1 <= qi <= t.numQs && IsInt32(size)
      modifies this`heap, this`data, this`written, this`numRecs, this`annotateIdx, this`qSize, this`qBytes, this`qData
      ensures old(written) <= written
      ensures st.Running? <==> Resize(old(Now()), reset, cpuid, smi, qi, size).Goes?
      ensures st.Running? ==> Valid() && Now() == Resize(old(Now()), reset, cpuid, smi, qi, size).s
    {
      hide LogOk, Inv, InHeap, Distinct, Bytes, Units, NonNegative, OthersSame, Steady, Repeat, Emptied, Trimmed;
      hide BackOverflows;
      QueueOf(Now(), qi);
      if reset {
        RecordAndClear(qi, cpuid, smi, 0);
      }
      QueueOf(Now(), qi);
      var bytes := qBytes[qi - 1];
      st := Running;
      if bytes < size {
        st := DoQ(0, cpuid, smi, qi, size - bytes);
      } else if bytes > size {
        if size <= 0 {
          RecordAndClear(qi, cpuid, smi, size);
        } else {
          Note(OP_SIZE_QUEUE, 0, cpuid, smi, qi, size);
          st := Trim(qi, size);
        }
      }
    }

    /** Logs a new size of zero bytes or less, and empties the queue. */
    method RecordAndClear(qi: nat, cpuid: nat, smi: nat, size: int)
      requires Valid() && 1 <= qi <= t.numQs
      modifies this`heap, this`data, this`written, this`numRecs, this`annotateIdx, this`qSize, this`qBytes, this`qData
      ensures Valid() && old(written) <= written
      ensures KnownQ(old(Now()), qi) && Now() == Emptied(old(Now()), qi, cpuid, smi, size)
    {
      hide LogOk, Inv, InHeap, Distinct, Bytes;
      QueueOf(Now(), qi);
      Note(OP_SIZE_QUEUE, 0, cpuid, smi, qi, size);
      Clear(qi);
    }

    /** Drops bytes from the back until `size` are left. */
    method Trim(qi: nat, size: int) returns (st: Status)
      requires Valid() && 1 <= qi <= t.numQs && KnownQ(Now(), qi) && 0 < size < qBytes[qi - 1]
      modifies this`heap, this`qSize, this`qBytes, this`qData
      ensures st.Running? <==> !BackOverflows(old(heap), old(qData)[qi - 1], old(qBytes)[qi - 1] - size)
      ensures st.Running? ==> Valid() && Now() == Trimmed(old(Now()), qi, size)
    {
      hide LogOk, Inv, InHeap, Distinct, Bytes, Units, NonNegative, Removing, OthersSame, Steady, TakeBack;
      hide BackOverflows;
      ghost var s := Now();
      QueueOf(s, qi);
      TrimmedKeeps(s, qi, size);
      SteadyOk(s, Trimmed(s, qi, size), true);
      var need := qBytes[qi - 1] - size;
      qBytes := qBytes[qi - 1 := size];
      st := TakeBackLoop(qi - 1, need);
      if st.Running? { KeepLog(s.heap, s.qData[qi - 1], need, qData[qi - 1]); }
    }

    /** The loop; its check for an empty queue never fails. */
    method TakeBackLoop(x: nat, count: int) returns (st: Status)
      requires x < |qData| && |qData| == |qSize| == |qBytes| && qSize[x] == |qData[x]| && 0 <= qBytes[x]
      requires InHeap(heap, qData[x]) && Distinct(qData[x]) && 0 < count <= Bytes(heap, qData[x])
      modifies this`heap, this`qSize, this`qData
      ensures st.Running? <==> !BackOverflows(old(heap), old(qData)[x], count)
      ensures st.Running? ==>
        && |qData| == |old(qData)| && (heap, qData[x]) == TakeBack(old(heap), old(qData)[x], count)
        && qData == old(qData)[x := qData[x]] && qSize == old(qSize)[x := |qData[x]|]
        && Removing(old(heap), old(qData)[x], count, heap, qData[x], 0)
    {
      hide InHeap, Distinct, Bytes, Units, NonNegative, Removing, BackGone, TakeBack, BackOverflows;
      var need := count;
      ghost var heap0, q0 := heap, qData[x];
      RemovingStarts(heap, q0, count);
      while need > 0
        invariant 0 <= need && |qSize| == |qData| == |old(qData)|
        invariant qData == old(qData)[x := qData[x]] && qSize == old(qSize)[x := |qData[x]|]
        invariant Removing(heap0, q0, count, heap, qData[x], need)
        invariant TakeBack(heap, qData[x], need) == TakeBack(heap0, q0, count)
        invariant BackOverflows(heap, qData[x], need) == BackOverflows(heap0, q0, count)
        decreases |qData[x]|, need
      {
        NeverRunsDry(heap0, q0, count, heap, qData[x], need);
        RemovingInHeap(heap0, q0, count, heap, qData[x], need);
        assert qSize[x] > 0 && qBytes[x] >= 0;
        var back := qData[x][|qData[x]| - 1];
        var tailBytes := heap[back].data;
        TakeBackStep(heap, qData[x], need);
        if tailBytes <= need && need - tailBytes > INT32_MAX { return Stopped; }
        if tailBytes > need {
          RemoveFromTail(heap0, q0, count, heap, qData[x], need);
          heap := Shrunk(heap, back, need);
          need := 0;
        } else {
          RemoveTail(heap0, q0, count, heap, qData[x], need);
          PopRecord(x, false);
          need := if tailBytes == need then 0 else need - tailBytes;
        }
      }
      TakeNothing(heap, qData[x]);
      st := Running;
    }

    // ----- State machines -----

    /** Looking a stack up creates it. */
    method StackOf(sid: StackId) returns (stack: seq<nat>)
      requires Valid()
      modifies this`smStack
      ensures Valid() && Now() == WithStack(old(Now()), sid) && stack == Stack(Now(), sid) && sid in smStack
    {
      hide LogOk, Inv;
      WithStackSteady(Now(), sid);
      if sid !in smStack {
        smStack := smStack[sid := []];
      }
      stack := smStack[sid];
    }

    method LinkOf(smi: nat) returns (to: nat)
      modifies this`lnMap
      ensures lnMap == (if smi in old(lnMap) then old(lnMap) else old(lnMap)[smi := 0]) && to == lnMap[smi]
    {
      if smi !in lnMap {
        lnMap := lnMap[smi := 0];
      }
      to := lnMap[smi];
    }

    /** Records that machine smi was entered from machine `from`; a machine has at most one such link. */
    method LinkBack(smi: nat, from: nat) returns (st: Status)
      requires Valid()
      modifies this`lnMap
      ensures st.Running? <==> LinkIn(old(Now()), smi, from).Goes?
      ensures st.Running? ==> Valid() && Now() == LinkIn(old(Now()), smi, from).s
    {
      hide LogOk, Inv;
      var linked := LinkOf(smi);
      if linked != 0 { return Stopped; }
      lnMap := lnMap[smi := from];
      st := Running;
    }

    /** A machine enters a state: remember it and log it. */
    method EnterState(sm: string, state: string, flag: nat, cpuid: nat, smi: nat, always: bool)
      requires Valid()
      modifies this`t, this`lastState, this`heap, this`data, this`written, this`numRecs, this`annotateIdx
      ensures Valid() && old(written) <= written
      ensures Now() == Entered(old(Now()), sm, state, flag, cpuid, smi, always)
    {
      hide LogOk, Inv, KnowSt, StId;
      KnowStSteady(Now(), sm, state);
      hide Steady;
      var sti := GetSt(sm, state);
      if !always {
        var last := if smi in lastState then lastState[smi] else 0;
        if last == sti { return; }
      }
      lastState := lastState[smi := sti];
      Note(OP_BEGIN, flag, cpuid, smi, sti, 0);
    }

    /** Links machine smi to the top of the stack it is about to join, if there is one. */
    method LinkToTop(sid: StackId, smi: nat, cpuid: nat) returns (st: Status)
      requires Valid()
      modifies this`smStack, this`lnMap, this`heap, this`data, this`written, this`numRecs, this`annotateIdx
      ensures old(written) <= written
      ensures st.Running? <==> LinkFromTop(old(Now()), sid, smi, cpuid).Goes?
      ensures st.Running? ==> Valid() && Now() == LinkFromTop(old(Now()), sid, smi, cpuid).s
    {
      hide LogOk, Inv;
      var stack := StackOf(sid);
      if stack == [] { return Running; }
      st := LinkBack(smi, stack[|stack| - 1]);
      if st.Stopped? { return; }
      Note(OP_LINK, 0, cpuid, stack[|stack| - 1], smi, 0);
    }

    method PushMachine(sid: StackId, smi: nat)
      requires Valid() && OnStackOk(sid, smi, t.smMap)
      modifies this`smStack, this`swExpl
      ensures Valid() && Now() == Pushed(old(Now()), sid, smi)
    {
      hide LogOk, Inv, OnStackOk;
      PushedSteady(Now(), sid, smi);
      hide Steady;
      SteadyOk(Now(), Pushed(Now(), sid, smi), true);
      var stack := StackOf(sid);
      smStack := smStack[sid := stack + [smi]];
      swExpl := swExpl[sid := false];
      assert smStack == old(smStack)[sid := stack + [smi]];
    }

    /** If a system call announced this machine, its held record gets resolved. */
    method ResolveSyscall(sysi: nat, id: Id, smi: nat) returns (st: Status)
      requires Valid() && 1 <= sysi <= t.numSys
      modifies this`heap, this`scLinks, this`lnMap
      ensures st.Running? <==> Resolved(old(Now()), sysi, id, smi).Goes?
      ensures st.Running? ==> Valid() && Now() == Resolved(old(Now()), sysi, id, smi).s
    {
      hide LogOk, Inv, Steady;
      Shape(Now());
      if id !in scLinks[sysi - 1] { return Running; }
      ToldSteady(Now(), sysi, id, smi);
      var p := scLinks[sysi - 1][id];
      var from := heap[p].sm;
      ghost var heap0 := heap;
      ghost var told := Now().(
        heap := heap[p := heap[p].(stq := smi, dump := true)], scLinks := Release(scLinks, sysi - 1, id));
      SteadyOk(Now(), told, true);
      HeldIsPending(heap, data, written, annotateIdx, p);
      heap := heap[p := heap[p].(stq := smi, dump := true)];
      scLinks := Release(scLinks, sysi - 1, id);
      WrittenInHeap(heap0, data, written, annotateIdx);
      LogFrame(heap0, heap, data, written, annotateIdx);
      st := LinkBack(smi, from);
    }

    /** Puts a machine on its stack, linked from the one on top if asked. */
    method Join(sid: StackId, smi: nat, cpuid: nat, link: bool) returns (st: Status)
      requires Valid() && OnStackOk(sid, smi, t.smMap)
      modifies this`smStack, this`swExpl, this`lnMap, this`heap, this`data, this`written, this`numRecs, this`annotateIdx
      ensures old(written) <= written
      ensures st.Running? <==> JoinStack(old(Now()), sid, smi, cpuid, link).Goes?
      ensures st.Running? ==> Valid() && Now() == JoinStack(old(Now()), sid, smi, cpuid, link).s
    {
      hide LogOk, Inv, OnStackOk, LinkFromTop, Pushed;
      st := Running;
      if link {
        LinkFromTopSteady(Now(), sid, smi, cpuid);
        st := LinkToTop(sid, smi, cpuid);
        if st.Stopped? { return; }
      }
      PushMachine(sid, smi);
    }

    /** Resolves a link to the machine and enters its first state. */
    method Settle(sysi: nat, id: Id, smi: nat, cpuid: nat, state: string) returns (st: Status)
      requires Valid() && 1 <= sysi <= t.numSys
      modifies this`t, this`scLinks, this`lnMap, this`lastState,
               this`heap, this`data, this`written, this`numRecs, this`annotateIdx
      ensures old(written) <= written
      ensures st.Running? <==> Arrive(old(Now()), sysi, id, smi, cpuid, state).Goes?
      ensures st.Running? ==> Valid() && Now() == Arrive(old(Now()), sysi, id, smi, cpuid, state).s
    {
      hide LogOk, Inv, Resolved, Entered;
      st := ResolveSyscall(sysi, id, smi);
      if st.Stopped? { return; }
      if state != "" {
        EnterState(id.name, state, 0, cpuid, smi, true);
      }
    }

    /** Puts a new machine on the stack of its thread, linking it to its predecessors. */
    method SwSmBegin(sys: System, frame: nat, cpuid: nat, sm: string, context: nat, link: bool, state: string)
      returns (st: Status)
      requires Valid()
      modifies this
      ensures old(written) <= written
      ensures st.Running? <==> SmBegins(old(Now()), sys, frame, cpuid, sm, context, link, state).Goes?
      ensures st.Running? ==> Valid() && Now() == SmBegins(old(Now()), sys, frame, cpuid, sm, context, link, state).s
    {
      hide LogOk, Inv, KnowSys, SysId, KnowSm, SmId, JoinStack, Arrive;
      var sysi := GetSys(sys);
      var smi;
      st, smi := GetSm(sysi, Id(sm, context));
      if st.Stopped? { return; }
      ghost var s2 := Now();
      JoinStackSteady(s2, StackId(sysi, frame), smi, cpuid, link);
      st := Join(StackId(sysi, frame), smi, cpuid, link);
      if st.Stopped? { return; }
      st := Settle(sysi, Id(sm, frame), smi, cpuid, state);
    }

    /** Logs the way back from an ended machine and forgets its link. */
    method FinishMachine(smi: nat, cpuid: nat, more: bool)
      requires Valid()
      modifies this`lnMap, this`lastState, this`heap, this`data, this`written, this`numRecs, this`annotateIdx
      ensures Valid() && old(written) <= written && Now() == Finished(old(Now()), smi, cpuid, more)
    {
      hide LogOk, Inv;
      var linked := LinkOf(smi);
      if linked != 0 {
        Note(OP_LINK, 0, cpuid, smi, linked, 0);
        lnMap := lnMap - {smi};
      }
      if more {
        if smi !in lastState {
          lastState := lastState[smi := 0];
        }
        ghost var s1 := Now();
        Note(OP_BEGIN, 0, cpuid, smi, lastState[smi], 0);
        assert s1.lastState[smi := s1.lastState[smi]] == s1.lastState;
      }
    }

    /** Looks a machine's number up again; it is always the one at hand. */
    method CheckMachine(sysi: nat, smi: nat)
      requires Valid() && 1 <= sysi <= t.numSys && 1 <= smi <= |t.smMap| && t.smMap[smi - 1].0 == sysi
      modifies this`t
      ensures Valid() && t == old(t)
    {
      hide LogOk, Inv, TablesOk, StatesOk, InternSm;
      Shape(Now());
      KnownMachine(t, sysi, smi);
      var id := t.smMap[smi - 1].1;
      var checked, again := GetSm(sysi, id);
      assert checked.Running? && again == smi;
    }

    /** Ends the machine on top of a stack, if it is the named one. */
    method EndTop(sid: StackId, sm: string, cpuid: nat, stack: seq<nat>)
      requires Valid() && sid in smStack && stack == smStack[sid] != [] && 1 <= sid.sys <= t.numSys
      modifies this`t, this`smStack, this`lnMap, this`lastState,
               this`heap, this`data, this`written, this`numRecs, this`annotateIdx
      ensures Valid() && old(written) <= written && Now() == TopEnds(old(Now()), sid, sm, cpuid)
    {
      hide LogOk, Inv, Finished;
      TopKnown(Now(), sid);
      var smi := stack[|stack| - 1];
      var id := t.smMap[smi - 1].1;
      if id.name != sm { return; }
      CheckMachine(sid.sys, smi);
      StackSteady(Now(), sid, stack[..|stack| - 1], swExpl);
      smStack := smStack[sid := stack[..|stack| - 1]];
      FinishMachine(smi, cpuid, |stack| > 1);
    }

    /**
     Takes a machine off its stack.  The assertion that the interning table still maps the
     machine's name to the number on the stack cannot fail; an empty stack has no top to look at.
     */
    method DoSwSmEnd(sys: System, cpuid: nat, sm: string, frame: nat) returns (st: Status)
      requires Valid()
      modifies this
      ensures old(written) <= written
      ensures st.Running? <==> SmEnds(old(Now()), sys, cpuid, sm, frame).Goes?
      ensures st.Running? ==> Valid() && Now() == SmEnds(old(Now()), sys, cpuid, sm, frame).s
    {
      hide LogOk, Inv, KnowSys, SysId, TopEnds;
      var sysi := GetSys(sys);
      var sid := StackId(sysi, frame);
      swExpl := swExpl[sid := false];
      var stack := StackOf(sid);
      if stack == [] { return Stopped; }
      EndTop(sid, sm, cpuid, stack);
      st := Running;
    }

    /** A symbol or an explicit mark puts the running machine into a state. */
    method SwBegin(sys: System, cpuid: nat, state: string, frame: nat, expl: bool, flag: nat)
      requires Valid()
      modifies this
      ensures Valid() && old(written) <= written
      ensures Now() == Begins(old(Now()), sys, cpuid, state, frame, expl, flag)
    {
      hide LogOk, Inv, StateBegins, Ignored;
      var ignored := IsIgnored(state);
      if !ignored {
        BeginState(sys, cpuid, state, frame, expl, flag);
      }
    }

    method BeginState(sys: System, cpuid: nat, state: string, frame: nat, expl: bool, flag: nat)
      requires Valid()
      modifies this
      ensures Valid() && old(written) <= written
      ensures Now() == StateBegins(old(Now()), sys, cpuid, state, frame, expl, flag)
    {
      hide LogOk, Inv, KnowSys, SysId, Entered, SmName;
      var sysi := GetSys(sys);
      var sid := StackId(sysi, frame);
      var stack := StackOf(sid);
      if stack == [] { return; }
      var was := Mark(sid, expl);
      if expl || !was {
        EnterTop(sid, stack, state, flag, cpuid, false);
      }
    }

    /** Notes whether states are explicit now, and tells whether they were. */
    method Mark(sid: StackId, expl: bool) returns (was: bool)
      requires Valid()
      modifies this`swExpl
      ensures was == (sid in old(swExpl) && old(swExpl)[sid])
      ensures Valid() && Now() == old(Now()).(swExpl := old(swExpl)[sid := expl || was])
    {
      hide LogOk, Inv;
      was := sid in swExpl && swExpl[sid];
      swExpl := swExpl[sid := expl || was];
    }

    /** The machine on top of a stack enters a state. */
    method EnterTop(sid: StackId, stack: seq<nat>, state: string, flag: nat, cpuid: nat, always: bool)
      requires Valid() && stack != [] && stack == Stack(Now(), sid)
      modifies this`t, this`lastState, this`heap, this`data, this`written, this`numRecs, this`annotateIdx
      ensures Valid() && old(written) <= written
      ensures var top := old(Top(Now(), sid));
        Now() == Entered(old(Now()), SmName(old(Now()), top), state, flag, cpuid, top, always)
    {
      hide LogOk, Inv, Entered;
      TopKnown(Now(), sid);
      var smi := stack[|stack| - 1];
      EnterState(t.smMap[smi - 1].1.name, state, flag, cpuid, smi, always);
    }

    /** An explicit state is over; the caller's symbol is the state again. */
    method SwEnd(sys: System, cpuid: nat, state: string, frame: nat)
      requires Valid()
      modifies this
      ensures Valid() && old(written) <= written
      ensures Now() == StateEnds(old(Now()), sys, cpuid, state, frame)
    {
      hide LogOk, Inv, KnowSys, SysId, Entered, SmName;
      var sysi := GetSys(sys);
      var sid := StackId(sysi, frame);
      var stack := StackOf(sid);
      if stack == [] { return; }
      swExpl := swExpl[sid := false];
      if state != "" {
        EnterTop(sid, stack, state, 0, cpuid, true);
      }
    }

    /** The running machine starts another one, and may end itself. */
    method SwLink(sys: System, cpuid: nat, frame: nat, lsm: string, context: nat, ends: bool,
                  sm: string) returns (st: Status)
      requires Valid()
      modifies this
      ensures old(written) <= written
      ensures st.Running? <==> Links(old(Now()), sys, cpuid, frame, lsm, context, ends, sm).Goes?
      ensures st.Running? ==> Valid() && Now() == Links(old(Now()), sys, cpuid, frame, lsm, context, ends, sm).s
    {
      hide LogOk, Inv, KnowSys, SysId, KnowSm, SmId, SmEnds;
      var sysi := GetSys(sys);
      var stack := StackOf(StackId(sysi, frame));
      if stack == [] { return Running; }
      var lsmi;
      st, lsmi := GetSm(sysi, Id(lsm, context));
      if st.Stopped? { return; }
      st := LinkBack(lsmi, stack[|stack| - 1]);
      if st.Stopped? { return; }
      Note(OP_LINK, 0, cpuid, stack[|stack| - 1], lsmi, 0);
      if ends {
        st := DoSwSmEnd(sys, cpuid, sm, frame);
      }
    }

    /** A link to a machine that is not known yet: the record is held back until it is. */
    method HoldLink(sysi: nat, id: Id, cpuid: nat, smi: nat)
      requires Valid() && 1 <= sysi <= |scLinks| && id !in scLinks[sysi - 1]
      modifies this`heap, this`data, this`written, this`numRecs, this`annotateIdx, this`scLinks
      ensures Valid() && written == old(written) && Now() == Held(old(Now()), sysi, id, cpuid, smi)
    {
      hide LogOk, Inv;
      HeldSteady(Now(), sysi, id, cpuid, smi);
      hide Steady;
      SteadyOk(Now(), Held(Now(), sysi, id, cpuid, smi), true);
      StillPending(heap, data, written, annotateIdx);
      var p := Add(OP_LINK, 0, cpuid, smi, UNKNOWN_SM, 0);
      ghost var heap1 := heap;
      heap := heap[p := heap[p].(dump := false)];
      assert heap == old(heap) + [heap1[p].(dump := false)];
      WrittenInHeap(heap1, data, written, annotateIdx);
      LogFrame(heap1, heap, data, written, annotateIdx);
      scLinks := Hold(scLinks, sysi - 1, id, p);
    }

    /** A system call will start a machine whose number is not known yet. */
    method SwSyscallLink(sys: System, cpuid: nat, frame: nat, lsm: string, ends: bool, sm: string) returns (st: Status)
      requires Valid()
      modifies this
      ensures old(written) <= written
      ensures st.Running? <==> SyscallLinks(old(Now()), sys, cpuid, frame, lsm, ends, sm).Goes?
      ensures st.Running? ==> Valid() && Now() == SyscallLinks(old(Now()), sys, cpuid, frame, lsm, ends, sm).s
    {
      hide LogOk, Inv, KnowSys, SysId, SmEnds, Held;
      var sysi := GetSys(sys);
      var stack := StackOf(StackId(sysi, frame));
      if stack == [] { return Running; }
      Shape(Now());
      var id := Id(lsm, frame);
      if id in scLinks[sysi - 1] { return Stopped; }
      HoldLink(sysi, id, cpuid, stack[|stack| - 1]);
      st := Running;
      if ends {
        st := DoSwSmEnd(sys, cpuid, sm, frame);
      }
    }

    /** Hands out connection numbers, never the same twice. */
    method SwGetId(sys: System, cpuid: nat, frame: nat) returns (st: Status, id: nat)
      requires Valid()
      modifies this
      ensures old(written) <= written && conId == old(conId) + 1 && id == conId
      ensures st.Running? <==> GetsId(old(Now()), sys, cpuid, frame).Goes?
      ensures st.Running? ==> Valid() && Now() == GetsId(old(Now()), sys, cpuid, frame).s
    {
      hide LogOk, Inv, KnowSys, SysId, WrapInt32;
      conId := conId + 1;
      id := conId;
      ghost var s0 := Now();
      var sysi := GetSys(sys);
      var stack := StackOf(StackId(sysi, frame));
      if stack == [] { return Stopped, id; }
      Note(OP_IDENT, 0, cpuid, stack[|stack| - 1], 0, WrapInt32(id));
      st := Running;
    }

    /** The guest names a connection of the running machine. */
    method SwIdentify(sys: System, cpuid: nat, frame: nat, id: nat)
      requires Valid()
      modifies this
      ensures Valid() && old(written) <= written
      ensures Now() == Identifies(old(Now()), sys, cpuid, frame, id)
    {
      hide LogOk, Inv, KnowSys, SysId, WrapInt32;
      var sysi := GetSys(sys);
      var stack := StackOf(StackId(sysi, frame));
      if stack != [] {
        Note(OP_IDENT, 0, cpuid, stack[|stack| - 1], 0, WrapInt32(id));
      }
    }

    // ----- Queue operations by name -----

    method QueueOp(op: QueueCall, flag: nat, cpuid: nat, smi: nat, sysi: nat, name: Id) returns (st: Status)
      requires Valid() && 1 <= sysi <= t.numSys && IsInt32(op.count)
      modifies this`t, this`heap, this`data, this`written, this`numRecs, this`annotateIdx,
               this`qSize, this`qBytes, this`qData
      ensures old(written) <= written
      ensures st.Running? <==> QueueOps(old(Now()), op, flag, cpuid, smi, sysi, name).Goes?
      ensures st.Running? ==> Valid() && Now() == QueueOps(old(Now()), op, flag, cpuid, smi, sysi, name).s
    {
      hide LogOk, Inv, KnowQ, QId, Enqueue, Dequeue, Resize;
      var qi;
      st, qi := GetQ(sysi, name);
      if st.Stopped? { return; }
      if op.OnlyNotes() {
        Note(op.Operation(), flag, cpuid, smi, qi, op.count);
        return;
      }
      match op {
        case Enqueues(count) => st := DoQ(flag, cpuid, smi, qi, count);
        case Dequeues(count) => st := DoDq(flag, cpuid, smi, qi, count);
        case Resizes(count, reset) => st := SwSq(reset, cpuid, smi, qi, count);
      }
    }

    /** A hardware model enters a state. */
    method HwBegin(flag: nat, sys: System, frame: nat, sm: string, state: string) returns (st: Status)
      requires Valid()
      modifies this
      ensures old(written) <= written
      ensures st.Running? <==> HwBegins(old(Now()), flag, sys, frame, sm, state).Goes?
      ensures st.Running? ==> Valid() && Now() == HwBegins(old(Now()), flag, sys, frame, sm, state).s
    {
      hide LogOk, Inv, KnowSys, SysId, KnowSm, KnowSt, StId;
      var sysi := GetSys(sys);
      var smi;
      st, smi := GetSm(sysi, Id(sm, frame));
      if st.Stopped? { return; }
      SameSm(Now(), sysi, Id(sm, frame), sm, state);
      hide SmId;
      var sti := GetSt(sm, state);
      Note(OP_BEGIN, Hardware(flag), 0, smi, sti, 0);
    }

    /** A hardware model queues or dequeues, possibly in a queue of another system. */
    method HwQueue(op: QueueCall, flag: nat, sys: System, frame: nat, sm: string, qSys: System,
                   q: Id) returns (st: Status)
      requires Valid() && IsInt32(op.count)
      modifies this
      ensures old(written) <= written
      ensures st.Running? <==> HwQueues(old(Now()), op, flag, sys, frame, sm, qSys, q).Goes?
      ensures st.Running? ==> Valid() && Now() == HwQueues(old(Now()), op, flag, sys, frame, sm, qSys, q).s
    {
      hide LogOk, Inv, KnowSys, SysId, KnowSm, SmId, QueueOps;
      var sysi := GetSys(sys);
      ghost var s1 := Now();
      KnowSysSteady(s1, qSys);
      var qSysi := GetSys(qSys);
      var smi;
      st, smi := GetSm(sysi, Id(sm, frame));
      if st.Stopped? { return; }
      st := QueueOp(op, Hardware(flag), 0, smi, qSysi, q);
    }

    /** The running machine of a thread works on a queue; without one the call is ignored. */
    method SwQueue(op: QueueCall, sys: System, frame: nat, cpuid: nat, q: Id) returns (st: Status)
      requires Valid() && IsInt32(op.count)
      modifies this
      ensures old(written) <= written
      ensures st.Running? <==> SwQueues(old(Now()), op, sys, frame, cpuid, q).Goes?
      ensures st.Running? ==> Valid() && Now() == SwQueues(old(Now()), op, sys, frame, cpuid, q).s
    {
      hide LogOk, Inv, KnowSys, SysId, KnowQ, QueueOps, BytesIn;
      var sysi := GetSys(sys);
      var sid := StackId(sysi, frame);
      var stack := StackOf(sid);
      if stack == [] { return Running; }
      if op.Unmarks() {
        swExpl := swExpl[sid := false];
      }
      if op.Enqueues? && op.count == 0 {
        var qi;
        st, qi := GetQ(sysi, q);
        return;
      }
      var bytes := SizeOf(sysi, q);
      if op.Peeks? && (op.count == 0 || bytes < op.count) { return Stopped; }
      if op.Reserves? && op.count == 0 { return Stopped; }
      st := QueueOp(op, 0, cpuid, stack[|stack| - 1], sysi, q);
    }

    /** The bytes in a queue, none if it is new. */
    method SizeOf(sysi: nat, name: Id) returns (bytes: int)
      ensures bytes == BytesIn(Now(), sysi, name)
    {
      bytes := 0;
      if 1 <= sysi <= |t.smCache| && |t.smCache| == |t.qCache| == |t.numQ| && name in t.qCache[sysi - 1] {
        var qi := t.qCache[sysi - 1][name];
        if 1 <= qi <= |qSize| && |qSize| == |qBytes| == |qData| { bytes := qBytes[qi - 1]; }
      }
    }

    /** The running machine waits for room or for bytes, and may end. */
    method SwWait(op: QueueCall, sys: System, frame: nat, cpuid: nat, q: Id, ends: bool, sm: string)
      returns (st: Status)
      requires Valid() && IsInt32(op.count)
      modifies this
      ensures old(written) <= written
      ensures st.Running? <==> Waits(old(Now()), op, sys, frame, cpuid, q, ends, sm).Goes?
      ensures st.Running? ==> Valid() && Now() == Waits(old(Now()), op, sys, frame, cpuid, q, ends, sm).s
    {
      hide LogOk, Inv, KnowSys, SysId, SwQueues, SmEnds;
      var sysi := GetSys(sys);
      var running := StackId(sysi, frame) in smStack && smStack[StackId(sysi, frame)] != [];
      KnowSysStacks(old(Now()), sys);
      KnownTwice(old(Now()), op, sys, frame, cpuid, q);
      st := SwQueue(op, sys, frame, cpuid, q);
      if st.Running? && ends && running {
        st := DoSwSmEnd(sys, cpuid, sm, frame);
      }
    }

    /** The guest checks the size of a queue; a wrong one is only a warning. */
    method SwAq(sys: System, q: Id) returns (st: Status)
      requires Valid()
      modifies this
      ensures written == old(written)
      ensures st.Running? <==> Checks(old(Now()), sys, q).Goes?
      ensures st.Running? ==> Valid() && Now() == Checks(old(Now()), sys, q).s
    {
      hide LogOk, Inv, KnowSys, SysId, KnowQ, QId;
      var sysi := GetSys(sys);
      var qi;
      st, qi := GetQ(sysi, q);
    }

    method Perform(c: Call) returns (st: Status)
      requires Valid() && c.WellTyped()
      modifies this
      ensures old(written) <= written
      ensures st.Running? <==> Next(old(Now()), c).Goes?
      ensures st.Running? ==> Valid() && Now() == Next(old(Now()), c).s
    {
      hide LogOk, Inv, SmBegins, SmEnds, Begins, Links, SyscallLinks, GetsId, HwBegins, HwQueues, SwQueues;
      hide Waits, Checks, StateEnds, Identifies;
      st := Running;
      match c {
        case SmBegin(sys, frame, cpuid, sm, context, link, state) =>
          st := SwSmBegin(sys, frame, cpuid, sm, context, link, state);
        case SmEnd(sys, frame, cpuid, sm) => st := DoSwSmEnd(sys, cpuid, sm, frame);
        case Begin(sys, frame, cpuid, state, expl, flag) => SwBegin(sys, cpuid, state, frame, expl, flag);
        case Link(sys, frame, cpuid, lsm, context, ends, sm) => st := SwLink(sys, cpuid, frame, lsm, context, ends, sm);
        case SyscallLink(sys, frame, cpuid, lsm, ends, sm) => st := SwSyscallLink(sys, cpuid, frame, lsm, ends, sm);
        case GetId(sys, frame, cpuid) => var id: nat; st, id := SwGetId(sys, cpuid, frame);
        case HardwareBegin(flag, sys, frame, sm, state) => st := HwBegin(flag, sys, frame, sm, state);
        case HardwareQueue(op, flag, sys, frame, sm, qSys, q) => st := HwQueue(op, flag, sys, frame, sm, qSys, q);
        case SoftwareQueue(op, sys, frame, cpuid, q) => st := SwQueue(op, sys, frame, cpuid, q);
        case Wait(_, _, sys, frame, cpuid, q, ends, sm) =>
          st := SwWait(c.Awaited(), sys, frame, cpuid, q, ends, sm);
        case CheckQueue(sys, q) => st := SwAq(sys, q);
        case End(sys, frame, cpuid, state) => SwEnd(sys, cpuid, state, frame);
        case Identify(sys, frame, cpuid, id) => SwIdentify(sys, cpuid, frame, id);
        case Tick(now) => curTick := now;
      }
    }

    /**
     Any sequence of calls.  The simulation goes on exactly as long as the state functions say, the
     annotator is then in the state they say, every earlier record is still in its place, and what
     is written followed by what is pending is every record made, in order and once each.
     */
    method Execute(calls: seq<Call>) returns (st: Status)
      requires Valid() && WellTypedAll(calls)
      modifies this
      ensures old(written) <= written
      ensures st.Running? <==> After(old(Now()), calls).Goes?
      ensures st.Running? ==> Valid() && Now() == After(old(Now()), calls).s && Extends(old(heap), heap)
      ensures st.Running? ==>
                && (forall i :: 0 <= i < |data| ==> data[i] < |heap|)
                && written + Images(heap, data) == AllImages(After(old(Now()), calls).s.heap)
    {
      hide LogOk, Inv, Next, Extends, Images, AllImages;
      st := Running;
      assert calls[..0] == [];
      for i := 0 to |calls|
        invariant st.Running? && Valid() && old(written) <= written
        invariant After(old(Now()), calls[..i]) == Goes(Now())
      {
        assert calls[..i + 1][..i] == calls[..i];
        st := Perform(calls[i]);
        if st.Stopped? {
          StopsForGood(old(Now()), calls, i + 1);
          return;
        }
      }
      assert calls[..|calls|] == calls;
      RunSteady(old(Now()), calls, 0);
      NothingLostOrReordered(heap, data, written, annotateIdx);
    }
  }

  /** A stopped run stays stopped. */
  lemma {:induction false} StopsForGood(s: Core, calls: seq<Call>, i: nat)
    requires i <= |calls| && After(s, calls[..i]).Stops?
    ensures After(s, calls).Stops?
    decreases |calls| - i
  {
    hide Next;
    if i == |calls| {
      assert calls[..i] == calls;
    } else {
      assert calls[..i + 1][..i] == calls[..i];
      StopsForGood(s, calls, i + 1);
    }
  }

  /** Numbering a system twice is numbering it once. */
  lemma KnownTwice(s: Core, op: QueueCall, sys: System, frame: nat, cpuid: nat, q: Id)
    ensures SwQueues(KnowSys(s, sys), op, sys, frame, cpuid, q) == SwQueues(s, op, sys, frame, cpuid, q)
  {
    hide KnowQ, QueueOps, Refused;
    assert KnowSys(KnowSys(s, sys), sys) == KnowSys(s, sys);
  }

  /** The loop over the symbols that are not to become states. */
  method IsIgnored(state: string) returns (ignored: bool)
    ensures ignored <==> Ignored(state)
  {
    hide Stringized;
    for x := 0 to |IGNORED_SYMBOLS|
      invariant forall i :: 0 <= i < x ==> !(Stringized(IGNORED_SYMBOLS[i]) <= state)
    {
      if Stringized(IGNORED_SYMBOLS[x]) <= state { return true; }
    }
    ignored := false;
  }

  lemma SameSm(s: Core, sysi: nat, id: Id, sm: string, st: string)
    requires CoreOk(s)
    ensures SmId(KnowSt(s, sm, st), sysi, id) == SmId(s, sysi, id)
  {
    hide Inv, TablesOk, StatesOk;
    Shape(s);
    StCaches(s.t, sm, st);
  }

  lemma StCaches(t: Tables, sm: string, st: string)
    requires StatesOk(t)
    ensures var u := InternSt(t, sm, st); u.smCache == t.smCache && u.qCache == t.qCache && u.numQ == t.numQ
  {
    InternSmtOk(t, sm);
  }

  lemma TakeFrontStep(heap: Heap, q: seq<Pointer>, need: int)
    requires need > 0 && q != [] && q[0] < |heap|
    ensures TakeFront(heap, q, need)
            == if heap[q[0]].data > need then TakeFront(Shrunk(heap, q[0], need), q, 0)
               else TakeFront(heap, q[1..], need - heap[q[0]].data)
    ensures FrontOverflows(heap, q, need)
            == if heap[q[0]].data > need then FrontOverflows(Shrunk(heap, q[0], need), q, 0)
               else need - heap[q[0]].data > INT32_MAX || FrontOverflows(heap, q[1..], need - heap[q[0]].data)
  {
  }

  lemma TakeBackStep(heap: Heap, q: seq<Pointer>, need: int)
    requires need > 0 && q != [] && q[|q| - 1] < |heap|
    ensures TakeBack(heap, q, need)
            == if heap[q[|q| - 1]].data > need then TakeBack(Shrunk(heap, q[|q| - 1], need), q, 0)
               else TakeBack(heap, q[..|q| - 1], need - heap[q[|q| - 1]].data)
    ensures BackOverflows(heap, q, need)
            == if heap[q[|q| - 1]].data > need then BackOverflows(Shrunk(heap, q[|q| - 1], need), q, 0)
               else
                 var rest := need - heap[q[|q| - 1]].data;
                 rest > INT32_MAX || BackOverflows(heap, q[..|q| - 1], rest)
  {
  }

  lemma TakeNothing(heap: Heap, q: seq<Pointer>)
    ensures TakeFront(heap, q, 0) == (heap, q) && TakeBack(heap, q, 0) == (heap, q)
    ensures !FrontOverflows(heap, q, 0) && !BackOverflows(heap, q, 0)
  {
  }

  lemma StatesShape(t: Tables)
    requires StatesOk(t)
    ensures |t.stCache| == |t.numSt| == t.numSmt
  {
  }

  lemma SteadyCore(s: Core, s': Core)
    requires Steady(s, s', true)
    ensures CoreOk(s')
  {
  }

  lemma EmptyBytes(heap: Heap, q: seq<Pointer>)
    requires InHeap(heap, q)
    ensures q == [] ==> Bytes(heap, q) == 0
  {
  }

  lemma NoImages(heap: Heap)
    ensures Images(heap, []) == []
  {
  }

  lemma FirstPending(heap: Heap, pending: seq<Pointer>, written: seq<Image>, index: seq<nat>)
    requires LogOk(heap, pending, written, index) && pending != []
    ensures pending[0] == |written| < |heap|
  {
  }

  lemma LogIndexed(heap: Heap, pending: seq<Pointer>, written: seq<Image>, index: seq<nat>)
    requires LogOk(heap, pending, written, index)
    ensures IndexOk(index, |written|)
  {
  }

  const EMPTY_CORE: Core := Core(0, [], [], [], [], NO_TABLES, [], map[], map[], map[], map[], 0)

  lemma EmptyCoreOk()
    ensures CoreOk(EMPTY_CORE) && Unsigned(EMPTY_CORE)
  {
    assert SystemIds(NO_TABLES.nameCache) == map[];
  }

  lemma HeldIsPending(heap: Heap, pending: seq<Pointer>, written: seq<Image>, index: seq<nat>, p: Pointer)
    requires LogOk(heap, pending, written, index) && p < |heap| && !heap[p].dump
    ensures |written| <= p
  {
  }

  lemma StillPending(heap: Heap, pending: seq<Pointer>, written: seq<Image>, index: seq<nat>)
    requires LogOk(heap, pending, written, index)
    ensures |written| <= |heap|
  {
  }

  lemma PendingInHeap(heap: Heap, pending: seq<Pointer>, written: seq<Image>, index: seq<nat>)
    requires LogOk(heap, pending, written, index)
    ensures forall i :: 0 <= i < |pending| ==> pending[i] < |heap|
  {
  }

  lemma WrittenInHeap(heap: Heap, pending: seq<Pointer>, written: seq<Image>, index: seq<nat>)
    requires LogOk(heap, pending, written, index)
    ensures |written| <= |heap| && forall k :: 0 <= k < |written| ==> heap[k].dump
  {
  }
}
