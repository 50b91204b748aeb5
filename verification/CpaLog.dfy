/** The annotation log: records pending in memory, records written, and the seek index. */
module CpaLog {
  import opened CpaRecords

  const HEADER_BYTES: nat := 40
  const RECORD_BYTES: nat := 19
  const INDEX_STEP: nat := 100000
  const DUMP_THRESHOLD: nat := 10000

  /** The bytes of a record as they reach the file: the original count, not what is left of it. */
  datatype Image = Image(time: int, origData: int, sm: nat, stq: nat, op: nat, flag: nat, cpu: nat)

  function ImageOf(r: AnnotateData): Image {
    Image(r.time, r.origData, r.sm, r.stq, r.op, r.flag, r.cpu)
  }

  /** Where the stream stands after n records (the key is appended only when the log is closed). */
  function Position(n: nat): nat {
    HEADER_BYTES + RECORD_BYTES * n
  }

  ghost predicate IndexOk(index: seq<nat>, n: nat) {
    && |index| == n / INDEX_STEP
    && forall k :: 0 <= k < |index| ==> index[k] == Position(INDEX_STEP * (k + 1) - 1)
  }

  /** Writing record n + 1: every hundred-thousandth record gets an index entry. */
  function NextIndex(index: seq<nat>, n: nat): seq<nat> {
    if (n + 1) % INDEX_STEP == 0 then index + [Position(n)] else index
  }

  lemma IndexStep(index: seq<nat>, n: nat)
    requires IndexOk(index, n)
    ensures IndexOk(NextIndex(index, n), n + 1)
  {
    var q := n / INDEX_STEP;
    if (n + 1) % INDEX_STEP == 0 {
      assert n + 1 == INDEX_STEP * (q + 1);
    } else {
      assert (n + 1) / INDEX_STEP == q;
    }
  }

  /**
   Records are numbered in the order they were added.  The written ones are the first
   |written|, none of them still held back, each with the contents it has now; the
   pending ones are all the others, in order.
   */
  ghost predicate LogOk(heap: Heap, pending: seq<Pointer>, written: seq<Image>, index: seq<nat>) {
    && |heap| == |written| + |pending|
    && (forall i :: 0 <= i < |pending| ==> pending[i] == |written| + i)
    && (forall k :: 0 <= k < |written| ==> heap[k].dump && written[k] == ImageOf(heap[k]))
    && IndexOk(index, |written|)
  }

  ghost function Images(heap: Heap, ps: seq<Pointer>): seq<Image>
    requires forall i :: 0 <= i < |ps| ==> ps[i] < |heap|
  {
    seq(|ps|, i requires 0 <= i < |ps| => ImageOf(heap[ps[i]]))
  }

  lemma ImagesNext(heap: Heap, ps: seq<Pointer>, i: nat)
    requires i < |ps| && forall j :: 0 <= j < |ps| ==> ps[j] < |heap|
    ensures Images(heap, ps[..i + 1]) == Images(heap, ps[..i]) + [ImageOf(heap[ps[i]])]
    ensures Images(heap, ps[..0]) == [] && ps[..|ps|] == ps
  {
  }

  ghost function AllImages(heap: Heap): seq<Image> {
    seq(|heap|, k requires 0 <= k < |heap| => ImageOf(heap[k]))
  }

  /** Conservation: the written records followed by the pending ones are all records added, once each, in order. */
  lemma NothingLostOrReordered(heap: Heap, pending: seq<Pointer>, written: seq<Image>, index: seq<nat>)
    requires LogOk(heap, pending, written, index)
    ensures forall i :: 0 <= i < |pending| ==> pending[i] < |heap|
    ensures written + Images(heap, pending) == AllImages(heap)
  {
    var all := AllImages(heap);
    forall k | 0 <= k < |heap|
      ensures (written + Images(heap, pending))[k] == all[k]
    {
      if k >= |written| { assert pending[k - |written|] == k; }
    }
  }

  /** A record that waits for its link, and everything added after it, is not in the file. */
  lemma HeldBlocksTheRest(heap: Heap, pending: seq<Pointer>, written: seq<Image>, index: seq<nat>, p: Pointer,
                          later: Pointer)
    requires LogOk(heap, pending, written, index) && p <= later < |heap| && !heap[p].dump
    ensures |written| <= p && later in pending
  {
    assert pending[later - |written|] == later;
  }

  lemma AppendPending(heap: Heap, pending: seq<Pointer>, written: seq<Image>, index: seq<nat>, r: AnnotateData)
    requires LogOk(heap, pending, written, index)
    ensures LogOk(heap + [r], pending + [|heap|], written, index)
  {
  }

  /** Records still pending may change; records written keep what the file says. */
  lemma LogFrame(heap: Heap, heap': Heap, pending: seq<Pointer>, written: seq<Image>, index: seq<nat>)
    requires LogOk(heap, pending, written, index) && |heap'| == |heap|
    requires forall k :: 0 <= k < |written| ==> heap'[k].dump && ImageOf(heap'[k]) == ImageOf(heap[k])
    ensures LogOk(heap', pending, written, index)
  {
  }

  lemma WriteNext(heap: Heap, pending: seq<Pointer>, written: seq<Image>, index: seq<nat>)
    requires LogOk(heap, pending, written, index) && pending != [] && heap[|written|].dump
    ensures pending[0] == |written|
    ensures var next := written + [ImageOf(heap[pending[0]])];
            LogOk(heap, pending[1..], next, NextIndex(index, |written|))
  {
    IndexStep(index, |written|);
    assert forall i :: 0 <= i < |pending| - 1 ==> pending[1..][i] == pending[i + 1];
  }
}
