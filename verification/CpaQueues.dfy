/**
 Byte-counted queues.  A queue lists records; a record stands for as many byte units
 as its `data` field says.  The reference view of a queue is the sequence of its units.
 */
module CpaQueues {
  import opened CpaRecords

  ghost predicate InHeap(heap: Heap, q: seq<Pointer>) {
    forall i :: 0 <= i < |q| ==> q[i] < |heap|
  }

  ghost predicate Distinct(q: seq<Pointer>) {
    forall i, j :: 0 <= i < j < |q| ==> q[i] != q[j]
  }

  ghost predicate NonNegative(heap: Heap, q: seq<Pointer>)
    requires InHeap(heap, q)
  {
    forall i :: 0 <= i < |q| ==> heap[q[i]].data >= 0
  }

  /** The signed sum of what the records hold. */
  ghost function Bytes(heap: Heap, q: seq<Pointer>): int
    requires InHeap(heap, q)
  {
    if q == [] then 0 else heap[q[0]].data + Bytes(heap, q[1..])
  }

  ghost function Repeat(p: Pointer, n: int): (s: seq<Pointer>)
    ensures |s| == if n > 0 then n else 0
  {
    if n <= 0 then [] else [p] + Repeat(p, n - 1)
  }

  /** The byte units of a queue, in order, each marked with its record. */
  ghost function Units(heap: Heap, q: seq<Pointer>): seq<Pointer>
    requires InHeap(heap, q)
  {
    if q == [] then [] else Repeat(q[0], heap[q[0]].data) + Units(heap, q[1..])
  }

  lemma {:induction false} UnitsCount(heap: Heap, q: seq<Pointer>)
    requires InHeap(heap, q) && NonNegative(heap, q)
    ensures |Units(heap, q)| == Bytes(heap, q)
  {
    if q != [] {
      assert heap[q[0]].data >= 0;
      assert NonNegative(heap, q[1..]) by {
        forall i | 0 <= i < |q| - 1 ensures heap[q[1..][i]].data >= 0 { assert q[1..][i] == q[i + 1]; }
      }
      UnitsCount(heap, q[1..]);
    }
  }

  lemma InHeapConcat(heap: Heap, a: seq<Pointer>, b: seq<Pointer>)
    requires InHeap(heap, a) && InHeap(heap, b)
    ensures InHeap(heap, a + b)
    ensures a != [] ==> InHeap(heap, a[1..]) && (a + b)[0] == a[0] && (a + b)[1..] == a[1..] + b
  {
  }

  lemma {:induction false} SumConcat(heap: Heap, a: seq<Pointer>, b: seq<Pointer>)
    requires InHeap(heap, a) && InHeap(heap, b)
    ensures InHeap(heap, a + b) && Bytes(heap, a + b) == Bytes(heap, a) + Bytes(heap, b)
    decreases |a|
  {
    hide InHeap;
    InHeapConcat(heap, a, b);
    if a == [] {
      assert a + b == b;
    } else {
      SumConcat(heap, a[1..], b);
    }
  }

  lemma {:induction false} UnitsConcat(heap: Heap, a: seq<Pointer>, b: seq<Pointer>)
    requires InHeap(heap, a) && InHeap(heap, b)
    ensures InHeap(heap, a + b) && Units(heap, a + b) == Units(heap, a) + Units(heap, b)
    decreases |a|
  {
    hide InHeap, Repeat;
    InHeapConcat(heap, a, b);
    if a == [] {
      assert a + b == b;
    } else {
      UnitsConcat(heap, a[1..], b);
    }
  }

  lemma BytesConcat(heap: Heap, a: seq<Pointer>, b: seq<Pointer>)
    requires InHeap(heap, a) && InHeap(heap, b)
    ensures InHeap(heap, a + b)
    ensures Bytes(heap, a + b) == Bytes(heap, a) + Bytes(heap, b)
    ensures Units(heap, a + b) == Units(heap, a) + Units(heap, b)
  {
    hide InHeap, Bytes, Units;
    SumConcat(heap, a, b);
    UnitsConcat(heap, a, b);
  }

  /** Only the `data` fields of its own records matter to a queue. */
  lemma {:induction false} UnitsFrame(heap: Heap, heap': Heap, q: seq<Pointer>)
    requires InHeap(heap, q) && InHeap(heap', q)
    requires forall i :: 0 <= i < |q| ==> heap'[q[i]].data == heap[q[i]].data
    ensures Bytes(heap', q) == Bytes(heap, q) && Units(heap', q) == Units(heap, q)
  {
    if q != [] {
      assert heap'[q[0]].data == heap[q[0]].data;
      forall i | 0 <= i < |q| - 1
        ensures q[1..][i] < |heap| && q[1..][i] < |heap'| && heap'[q[1..][i]].data == heap[q[1..][i]].data
      {
        assert q[1..][i] == q[i + 1];
      }
      UnitsFrame(heap, heap', q[1..]);
    }
  }

  /** The store after `count` bytes were taken out of record `p`. */
  function Shrunk(heap: Heap, p: Pointer, count: int): Heap
    requires p < |heap|
  {
    heap[p := heap[p].(data := heap[p].data - count)]
  }

  lemma {:induction false} RepeatSplit(p: Pointer, n: int, k: nat)
    requires k <= n
    ensures Repeat(p, n) == Repeat(p, k) + Repeat(p, n - k)
    decreases k
  {
    if k == 0 {
      assert Repeat(p, 0) == [];
    } else {
      RepeatSplit(p, n - 1, k - 1);
    }
  }

  lemma SingleUnits(heap: Heap, p: Pointer)
    requires p < |heap|
    ensures InHeap(heap, [p]) && Bytes(heap, [p]) == heap[p].data && Units(heap, [p]) == Repeat(p, heap[p].data)
  {
    assert InHeap(heap, [p]);
    assert [p][1..] == [];
  }

  lemma RestUntouched(heap: Heap, q: seq<Pointer>, count: int)
    requires InHeap(heap, q) && Distinct(q) && q != []
    ensures InHeap(heap, q[1..]) && InHeap(Shrunk(heap, q[0], count), q[1..])
    ensures Bytes(Shrunk(heap, q[0], count), q[1..]) == Bytes(heap, q[1..])
    ensures Units(Shrunk(heap, q[0], count), q[1..]) == Units(heap, q[1..])
  {
    hide Units, Bytes;
    var after := Shrunk(heap, q[0], count);
    forall i | 0 <= i < |q| - 1
      ensures q[1..][i] < |heap| && q[1..][i] != q[0]
    {
      assert q[1..][i] == q[i + 1];
    }
    UnitsFrame(heap, after, q[1..]);
  }

  /** Taking bytes from the first record drops that many units from the front. */
  lemma ShrinkHead(heap: Heap, q: seq<Pointer>, count: int)
    requires InHeap(heap, q) && Distinct(q) && q != [] && 0 <= count <= heap[q[0]].data
    ensures var after := Shrunk(heap, q[0], count);
            && InHeap(after, q)
            && Bytes(after, q) == Bytes(heap, q) - count
            && count <= |Units(heap, q)| && Units(after, q) == Units(heap, q)[count..]
  {
    hide Units, Bytes, Repeat;
    var first := q[0];
    var after := Shrunk(heap, first, count);
    assert InHeap(after, q);
    RestUntouched(heap, q, count);
    UnitsFirst(heap, q);
    UnitsFirst(after, q);
    RepeatSplit(first, heap[first].data, count);
    DropPrefix(Repeat(first, count), Repeat(first, heap[first].data - count), Units(heap, q[1..]));
  }

  lemma UnitsFirst(heap: Heap, q: seq<Pointer>)
    requires InHeap(heap, q) && q != []
    ensures InHeap(heap, q[1..])
    ensures Units(heap, q) == Repeat(q[0], heap[q[0]].data) + Units(heap, q[1..])
    ensures Bytes(heap, q) == heap[q[0]].data + Bytes(heap, q[1..])
  {
  }

  lemma DropPrefix<T>(a: seq<T>, b: seq<T>, c: seq<T>)
    ensures (a + b + c)[|a|..] == b + c
  {
  }

  /** Taking bytes from the last record drops that many units from the back. */
  lemma ShrinkTail(heap: Heap, q: seq<Pointer>, count: int)
    requires InHeap(heap, q) && Distinct(q) && q != [] && 0 <= count <= heap[q[|q| - 1]].data
    ensures var after := Shrunk(heap, q[|q| - 1], count);
            && InHeap(after, q)
            && Bytes(after, q) == Bytes(heap, q) - count
            && count <= |Units(heap, q)| && Units(after, q) == Units(heap, q)[..|Units(heap, q)| - count]
  {
    hide Repeat, Units, Bytes;
    var last := q[|q| - 1];
    var front := q[..|q| - 1];
    var after := Shrunk(heap, last, count);
    assert q == front + [last] && InHeap(after, q);
    UnitsFrame(heap, after, front);
    BytesConcat(heap, front, [last]);
    BytesConcat(after, front, [last]);
    SingleUnits(heap, last);
    SingleUnits(after, last);
    RepeatSplit(last, heap[last].data, heap[last].data - count);
    assert Units(heap, q) == Units(heap, front) + (Repeat(last, heap[last].data - count) + Repeat(last, count));
  }

  lemma PopHead(heap: Heap, q: seq<Pointer>)
    requires InHeap(heap, q) && q != []
    ensures InHeap(heap, q[1..])
    ensures Bytes(heap, q[1..]) == Bytes(heap, q) - heap[q[0]].data
    ensures heap[q[0]].data >= 0 ==>
      heap[q[0]].data <= |Units(heap, q)| && Units(heap, q[1..]) == Units(heap, q)[heap[q[0]].data..]
  {
  }

  lemma PopTail(heap: Heap, q: seq<Pointer>)
    requires InHeap(heap, q) && q != []
    ensures var last := q[|q| - 1];
            var front := q[..|q| - 1];
            && InHeap(heap, front)
            && Bytes(heap, front) == Bytes(heap, q) - heap[last].data
            && (heap[last].data >= 0 ==>
                  && heap[last].data <= |Units(heap, q)|
                  && Units(heap, front) == Units(heap, q)[..|Units(heap, q)| - heap[last].data])
  {
    var last := q[|q| - 1];
    var front := q[..|q| - 1];
    assert q == front + [last];
    BytesConcat(heap, front, [last]);
    SingleUnits(heap, last);
  }

  // ----- All queues together -----

  ghost predicate Apart(a: seq<Pointer>, b: seq<Pointer>) {
    forall p :: p in a ==> p !in b
  }

  /** Every queue lists live records, and no record is in two places. */
  ghost predicate Unshared(heap: Heap, qData: seq<seq<Pointer>>) {
    && (forall x :: 0 <= x < |qData| ==> InHeap(heap, qData[x]) && Distinct(qData[x]))
    && (forall x, y :: 0 <= x < |qData| && 0 <= y < |qData| && x != y ==> Apart(qData[x], qData[y]))
  }

  /** `qSize` counts records and `qBytes` counts bytes, queue by queue. */
  ghost predicate QueuesOk(heap: Heap, qSize: seq<int>, qBytes: seq<int>, qData: seq<seq<Pointer>>) {
    && |qSize| == |qBytes| == |qData|
    && Unshared(heap, qData)
    && forall x :: 0 <= x < |qData| ==>
         qSize[x] == |qData[x]| && 0 <= qBytes[x] <= INT32_MAX && qBytes[x] == Bytes(heap, qData[x])
  }

  /** The new contents q of a queue hold records of the old contents or records made since. */
  ghost predicate Succeeds(heap: Heap, old_: seq<Pointer>, q: seq<Pointer>) {
    forall p :: p in q ==> p in old_ || |heap| <= p
  }

  ghost predicate OnlyTouched(heap: Heap, heap': Heap, q: seq<Pointer>) {
    |heap| <= |heap'| && forall p :: 0 <= p < |heap| && p !in q ==> heap'[p].data == heap[p].data
  }

  lemma OtherQueueKept(heap: Heap, heap': Heap, q: seq<Pointer>, other: seq<Pointer>)
    requires InHeap(heap, other) && Apart(q, other) && OnlyTouched(heap, heap', q)
    ensures InHeap(heap', other)
    ensures Bytes(heap', other) == Bytes(heap, other) && Units(heap', other) == Units(heap, other)
    ensures NonNegative(heap, other) ==> NonNegative(heap', other)
  {
    forall i | 0 <= i < |other|
      ensures heap'[other[i]].data == heap[other[i]].data
    {
      assert other[i] in other;
      assert other[i] !in q;
    }
    UnitsFrame(heap, heap', other);
  }

  lemma UnsharedUpdate(heap: Heap, heap': Heap, qData: seq<seq<Pointer>>, x: nat, q: seq<Pointer>)
    requires x < |qData| && Unshared(heap, qData) && |heap| <= |heap'|
    requires InHeap(heap', q) && Distinct(q) && Succeeds(heap, qData[x], q)
    ensures Unshared(heap', qData[x := q])
  {
    forall y | 0 <= y < |qData| && y != x
      ensures Apart(q, qData[y]) && Apart(qData[y], q)
    {
      assert Apart(qData[x], qData[y]) && InHeap(heap, qData[y]);
      assert forall p :: p in qData[y] ==> p < |heap|;
    }
  }

  /** All queues but x have the records and the units they had. */
  ghost predicate OthersKept(heap: Heap, qData: seq<seq<Pointer>>, heap': Heap, qData': seq<seq<Pointer>>, x: int) {
    && |qData'| == |qData|
    && forall y :: 0 <= y < |qData| && y != x ==>
         && qData'[y] == qData[y] && InHeap(heap, qData[y]) && InHeap(heap', qData[y])
         && Units(heap', qData[y]) == Units(heap, qData[y])
         && (NonNegative(heap, qData[y]) ==> NonNegative(heap', qData[y]))
  }

  /** Replacing queue x by records of its own, or new ones, and changing only those keeps the others intact. */
  lemma QueuesUpdate(heap: Heap, heap': Heap, qSize: seq<int>, qBytes: seq<int>, qData: seq<seq<Pointer>>,
                     x: nat, q: seq<Pointer>, bytes: int)
    requires x < |qData| && QueuesOk(heap, qSize, qBytes, qData)
    requires InHeap(heap', q) && Distinct(q) && Succeeds(heap, qData[x], q) && OnlyTouched(heap, heap', qData[x])
    requires bytes == Bytes(heap', q) && 0 <= bytes <= INT32_MAX
    ensures QueuesOk(heap', qSize[x := |q|], qBytes[x := bytes], qData[x := q])
    ensures OthersKept(heap, qData, heap', qData[x := q], x)
  {
    hide Bytes, Units;
    forall y | 0 <= y < |qData| && y != x
      ensures InHeap(heap, qData[y]) && InHeap(heap', qData[y])
      ensures Bytes(heap', qData[y]) == Bytes(heap, qData[y]) && Units(heap', qData[y]) == Units(heap, qData[y])
      ensures NonNegative(heap, qData[y]) ==> NonNegative(heap', qData[y])
    {
      assert Apart(qData[x], qData[y]);
      OtherQueueKept(heap, heap', qData[x], qData[y]);
    }
    UnsharedUpdate(heap, heap', qData, x, q);
  }

  // ----- Partial removal, as the two loops perform it -----

  /** Only the `data` fields of the records in q may differ. */
  ghost predicate OnlyDataOf(heap: Heap, heap': Heap, q: seq<Pointer>) {
    && |heap'| == |heap|
    && (forall p :: 0 <= p < |heap| ==> heap'[p] == heap[p].(data := heap'[p].data))
    && (forall p :: 0 <= p < |heap| && p !in q ==> heap'[p] == heap[p])
  }

  /** A queue part-way through losing `count` bytes, with `need` still to go. */
  ghost predicate Removing(heap0: Heap, q0: seq<Pointer>, count: int, heap: Heap, q: seq<Pointer>, need: int) {
    && InHeap(heap0, q0) && InHeap(heap, q) && Distinct(q)
    && OnlyDataOf(heap0, heap, q0)
    && (forall p :: p in q ==> p in q0)
    && 0 <= need
    && Bytes(heap, q) - need == Bytes(heap0, q0) - count
    && (NonNegative(heap0, q0) ==> NonNegative(heap, q))
  }

  ghost predicate FrontGone(heap0: Heap, q0: seq<Pointer>, count: int, heap: Heap, q: seq<Pointer>, need: int)
    requires InHeap(heap0, q0) && InHeap(heap, q)
  {
    && 0 <= need <= |Units(heap, q)| && 0 <= count <= |Units(heap0, q0)|
    && Units(heap, q)[need..] == Units(heap0, q0)[count..]
  }

  ghost predicate BackGone(heap0: Heap, q0: seq<Pointer>, count: int, heap: Heap, q: seq<Pointer>, need: int)
    requires InHeap(heap0, q0) && InHeap(heap, q)
  {
    && 0 <= need <= |Units(heap, q)| && 0 <= count <= |Units(heap0, q0)|
    && Units(heap, q)[..|Units(heap, q)| - need] == Units(heap0, q0)[..|Units(heap0, q0)| - count]
  }

  lemma RemovingStarts(heap: Heap, q: seq<Pointer>, count: nat)
    requires InHeap(heap, q) && Distinct(q) && count <= Bytes(heap, q)
    ensures Removing(heap, q, count, heap, q, count)
    ensures NonNegative(heap, q) ==>
      FrontGone(heap, q, count, heap, q, count) && BackGone(heap, q, count, heap, q, count)
  {
    if NonNegative(heap, q) { UnitsCount(heap, q); }
  }

  /** With bytes left to remove, the queue is not empty: the sanity checks in the loops never fire. */
  lemma NeverRunsDry(heap0: Heap, q0: seq<Pointer>, count: int, heap: Heap, q: seq<Pointer>, need: int)
    requires Removing(heap0, q0, count, heap, q, need) && need > 0 && count <= Bytes(heap0, q0)
    ensures q != []
  {
  }

  lemma RemoveFromHead(heap0: Heap, q0: seq<Pointer>, count: int, heap: Heap, q: seq<Pointer>, need: int)
    requires Removing(heap0, q0, count, heap, q, need) && q != [] && need < heap[q[0]].data
    ensures var after := Shrunk(heap, q[0], need);
            && Removing(heap0, q0, count, after, q, 0)
            && (FrontGone(heap0, q0, count, heap, q, need) ==> FrontGone(heap0, q0, count, after, q, 0))
  {
    hide Units, Bytes;
    ShrinkHead(heap, q, need);
    assert q[0] in q;
  }

  lemma RemoveHead(heap0: Heap, q0: seq<Pointer>, count: int, heap: Heap, q: seq<Pointer>, need: int)
    requires Removing(heap0, q0, count, heap, q, need) && q != [] && heap[q[0]].data <= need
    ensures Removing(heap0, q0, count, heap, q[1..], need - heap[q[0]].data)
    ensures NonNegative(heap0, q0) && FrontGone(heap0, q0, count, heap, q, need) ==>
              FrontGone(heap0, q0, count, heap, q[1..], need - heap[q[0]].data)
  {
    hide Units, Bytes;
    PopHead(heap, q);
    assert forall i :: 0 <= i < |q| - 1 ==> q[1..][i] == q[i + 1];
    if NonNegative(heap0, q0) && FrontGone(heap0, q0, count, heap, q, need) {
      DropDrop(Units(heap, q), heap[q[0]].data, need);
    }
  }

  lemma DropDrop<T>(s: seq<T>, a: int, b: int)
    requires 0 <= a <= b <= |s|
    ensures s[a..][b - a..] == s[b..]
    ensures s[..|s| - a][..|s| - b] == s[..|s| - b]
  {
  }

  lemma RemoveFromTail(heap0: Heap, q0: seq<Pointer>, count: int, heap: Heap, q: seq<Pointer>, need: int)
    requires Removing(heap0, q0, count, heap, q, need) && q != [] && need < heap[q[|q| - 1]].data
    ensures var after := Shrunk(heap, q[|q| - 1], need);
            && Removing(heap0, q0, count, after, q, 0)
            && (BackGone(heap0, q0, count, heap, q, need) ==> BackGone(heap0, q0, count, after, q, 0))
  {
    hide Units, Bytes;
    ShrinkTail(heap, q, need);
    assert q[|q| - 1] in q;
  }

  lemma RemoveTail(heap0: Heap, q0: seq<Pointer>, count: int, heap: Heap, q: seq<Pointer>, need: int)
    requires Removing(heap0, q0, count, heap, q, need) && q != [] && heap[q[|q| - 1]].data <= need
    ensures Removing(heap0, q0, count, heap, q[..|q| - 1], need - heap[q[|q| - 1]].data)
    ensures NonNegative(heap0, q0) && BackGone(heap0, q0, count, heap, q, need) ==>
              BackGone(heap0, q0, count, heap, q[..|q| - 1], need - heap[q[|q| - 1]].data)
  {
    hide Units, Bytes;
    PopTail(heap, q);
    if NonNegative(heap0, q0) && BackGone(heap0, q0, count, heap, q, need) {
      DropDrop(Units(heap, q), heap[q[|q| - 1]].data, need);
    }
  }

  function Joined(q: seq<Pointer>, p: Pointer, front: bool): seq<Pointer> {
    if front then [p] + q else q + [p]
  }

  ghost function JoinedUnits(units: seq<Pointer>, p: Pointer, count: int, front: bool): seq<Pointer> {
    if front then Repeat(p, count) + units else units + Repeat(p, count)
  }

  /** A new record in front, or at the tail, adds its units there. */
  lemma PushFront(heap: Heap, q: seq<Pointer>, r: AnnotateData)
    requires InHeap(heap, q)
    ensures var longer := [|heap|] + q;
            && InHeap(heap + [r], longer) && Bytes(heap + [r], longer) == Bytes(heap, q) + r.data
            && Units(heap + [r], longer) == Repeat(|heap|, r.data) + Units(heap, q)
  {
    hide Bytes, Units, Repeat;
    NewRecord(heap, q, r);
    BytesConcat(heap + [r], [|heap|], q);
  }

  lemma PushBack(heap: Heap, q: seq<Pointer>, r: AnnotateData)
    requires InHeap(heap, q)
    ensures var longer := q + [|heap|];
            && InHeap(heap + [r], longer) && Bytes(heap + [r], longer) == Bytes(heap, q) + r.data
            && Units(heap + [r], longer) == Units(heap, q) + Repeat(|heap|, r.data)
  {
    hide Bytes, Units, Repeat;
    NewRecord(heap, q, r);
    BytesConcat(heap + [r], q, [|heap|]);
  }

  lemma NewRecord(heap: Heap, q: seq<Pointer>, r: AnnotateData)
    requires InHeap(heap, q)
    ensures var after := heap + [r];
            && InHeap(after, q) && Bytes(after, q) == Bytes(heap, q) && Units(after, q) == Units(heap, q)
            && InHeap(after, [|heap|]) && Bytes(after, [|heap|]) == r.data
            && Units(after, [|heap|]) == Repeat(|heap|, r.data)
  {
    hide Bytes, Units, Repeat;
    UnitsFrame(heap, heap + [r], q);
    SingleUnits(heap + [r], |heap|);
  }

  lemma PushRecord(heap: Heap, q: seq<Pointer>, r: AnnotateData, front: bool)
    requires InHeap(heap, q)
    ensures var longer := Joined(q, |heap|, front);
            && InHeap(heap + [r], longer) && Bytes(heap + [r], longer) == Bytes(heap, q) + r.data
            && Units(heap + [r], longer) == JoinedUnits(Units(heap, q), |heap|, r.data, front)
  {
    hide Bytes, Units, Repeat, InHeap;
    if front { PushFront(heap, q, r); } else { PushBack(heap, q, r); }
  }

  /** The longer queue holds no record twice, and none that is another's. */
  lemma JoinedIsApart(heap: Heap, q: seq<Pointer>, r: AnnotateData, front: bool)
    requires InHeap(heap, q) && Distinct(q)
    ensures var longer := Joined(q, |heap|, front);
            Distinct(longer) && Succeeds(heap, q, longer) && OnlyTouched(heap, heap + [r], q)
  {
  }

  /** Queue x after a new record joined it, in order with everything else. */
  lemma PushToQueue(heap: Heap, r: AnnotateData, qSize: seq<int>, qBytes: seq<int>, qData: seq<seq<Pointer>>,
                    x: nat, front: bool)
    requires QueuesOk(heap, qSize, qBytes, qData) && x < |qData|
    requires 0 <= qBytes[x] + r.data <= INT32_MAX
    ensures var q := Joined(qData[x], |heap|, front);
            && QueuesOk(heap + [r], qSize[x := qSize[x] + 1], qBytes[x := qBytes[x] + r.data], qData[x := q])
            && OthersKept(heap, qData, heap + [r], qData[x := q], x)
            && InHeap(heap, qData[x]) && InHeap(heap + [r], q)
            && Units(heap + [r], q) == JoinedUnits(Units(heap, qData[x]), |heap|, r.data, front)
            && (r.data >= 0 && NonNegative(heap, qData[x]) ==> NonNegative(heap + [r], q))
  {
    hide Units, Bytes, Repeat, OthersKept, Joined, JoinedUnits, InHeap, Distinct, Succeeds, OnlyTouched, NonNegative;
    hide QueuesOk;
    var q := Joined(qData[x], |heap|, front);
    QueueAt(heap, qSize, qBytes, qData, x);
    PushRecord(heap, qData[x], r, front);
    JoinedIsApart(heap, qData[x], r, front);
    PushNonNegative(heap, qData[x], r, front);
    JoinedSize(qData[x], |heap|, front);
    QueuesUpdate(heap, heap + [r], qSize, qBytes, qData, x, q, qBytes[x] + r.data);
  }

  lemma JoinedSize(q: seq<Pointer>, p: Pointer, front: bool)
    ensures |Joined(q, p, front)| == |q| + 1
  {
  }

  lemma PushNonNegative(heap: Heap, q: seq<Pointer>, r: AnnotateData, front: bool)
    requires InHeap(heap, q)
    ensures var longer := Joined(q, |heap|, front);
            && InHeap(heap + [r], longer)
            && (r.data >= 0 && NonNegative(heap, q) ==> NonNegative(heap + [r], longer))
  {
  }

  lemma QueueAt(heap: Heap, qSize: seq<int>, qBytes: seq<int>, qData: seq<seq<Pointer>>, x: nat)
    requires QueuesOk(heap, qSize, qBytes, qData) && x < |qData|
    ensures |qSize| == |qBytes| == |qData|
    ensures InHeap(heap, qData[x]) && Distinct(qData[x])
    ensures qSize[x] == |qData[x]| && 0 <= qBytes[x] <= INT32_MAX && qBytes[x] == Bytes(heap, qData[x])
    ensures qData[x] == [] ==> qBytes[x] == 0
  {
  }

  /** Queue x after a removal loop has run to its end. */
  lemma RemovedFromQueue(heap: Heap, heap': Heap, qSize: seq<int>, qBytes: seq<int>, qData: seq<seq<Pointer>>,
                         x: nat, count: int, q: seq<Pointer>)
    requires QueuesOk(heap, qSize, qBytes, qData) && x < |qData|
    requires 0 <= count <= qBytes[x] && Removing(heap, qData[x], count, heap', q, 0)
    ensures QueuesOk(heap', qSize[x := |q|], qBytes[x := qBytes[x] - count], qData[x := q])
    ensures OthersKept(heap, qData, heap', qData[x := q], x)
  {
    hide Units, Bytes, OthersKept;
    QueuesUpdate(heap, heap', qSize, qBytes, qData, x, q, qBytes[x] - count);
  }

  lemma ClearedQueue(heap: Heap, qSize: seq<int>, qBytes: seq<int>, qData: seq<seq<Pointer>>, x: nat)
    requires QueuesOk(heap, qSize, qBytes, qData) && x < |qData|
    ensures QueuesOk(heap, qSize[x := 0], qBytes[x := 0], qData[x := []])
    ensures OthersKept(heap, qData, heap, qData[x := []], x)
  {
    assert Bytes(heap, []) == 0;
    hide Units, Bytes, OthersKept;
    QueuesUpdate(heap, heap, qSize, qBytes, qData, x, [], 0);
  }

  lemma RemovingInHeap(heap0: Heap, q0: seq<Pointer>, count: int, heap: Heap, q: seq<Pointer>, need: int)
    requires Removing(heap0, q0, count, heap, q, need)
    ensures InHeap(heap, q) && InHeap(heap0, q0) && |heap| == |heap0| && need >= 0
    ensures q != [] ==> q[0] < |heap| && q[|q| - 1] < |heap|
  {
  }

  lemma OthersKeptTrans(heap: Heap, qData: seq<seq<Pointer>>, heap': Heap, qData': seq<seq<Pointer>>,
                        heap'': Heap, qData'': seq<seq<Pointer>>, x: int, y: int, z: int)
    requires OthersKept(heap, qData, heap', qData', x) && OthersKept(heap', qData', heap'', qData'', y)
    requires (x == z || x == -1) && (y == z || y == -1)
    ensures OthersKept(heap, qData, heap'', qData'', z)
  {
  }

  lemma KeptAt(heap: Heap, qData: seq<seq<Pointer>>, heap': Heap, qData': seq<seq<Pointer>>, x: int, y: nat)
    requires OthersKept(heap, qData, heap', qData', x) && y < |qData| && y != x
    ensures |qData'| == |qData| && qData'[y] == qData[y] && InHeap(heap, qData[y]) && InHeap(heap', qData[y])
    ensures Units(heap', qData[y]) == Units(heap, qData[y])
    ensures NonNegative(heap, qData[y]) ==> NonNegative(heap', qData[y])
  {
  }

  lemma FrontGoneDone(heap0: Heap, q0: seq<Pointer>, count: int, heap: Heap, q: seq<Pointer>)
    requires Removing(heap0, q0, count, heap, q, 0)
    ensures NonNegative(heap0, q0) ==> NonNegative(heap, q)
    ensures FrontGone(heap0, q0, count, heap, q, 0) ==>
              0 <= count <= |Units(heap0, q0)| && Units(heap, q) == Units(heap0, q0)[count..]
  {
  }

  lemma BackGoneDone(heap0: Heap, q0: seq<Pointer>, count: int, heap: Heap, q: seq<Pointer>)
    requires Removing(heap0, q0, count, heap, q, 0)
    ensures NonNegative(heap0, q0) ==> NonNegative(heap, q)
    ensures BackGone(heap0, q0, count, heap, q, 0) ==>
              0 <= count <= |Units(heap0, q0)| && Units(heap, q) == Units(heap0, q0)[..|Units(heap0, q0)| - count]
  {
  }
}
