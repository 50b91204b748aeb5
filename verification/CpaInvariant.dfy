/** What every call keeps, and what it does to the log and the queues. */
module CpaInvariant {
  import opened CpaRecords
  import opened CpaQueues
  import opened CpaTables
  import opened CpaSpec

  // ----- Link records -----

  ghost predicate LinksHeld(heap: Heap, scLinks: seq<map<Id, Pointer>>) {
    forall x, id :: 0 <= x < |scLinks| && id in scLinks[x] ==>
      scLinks[x][id] < |heap| && Awaiting(heap[scLinks[x][id]])
  }

  ghost predicate LinksUnique(scLinks: seq<map<Id, Pointer>>) {
    forall x, id, y, jd :: 0 <= x < |scLinks| && 0 <= y < |scLinks| && id in scLinks[x] && jd in scLinks[y] ==>
      scLinks[x][id] == scLinks[y][jd] ==> x == y && id == jd
  }

  ghost predicate AllLinked(heap: Heap, scLinks: seq<map<Id, Pointer>>) {
    forall p :: 0 <= p < |heap| && !heap[p].dump ==> Linked(scLinks, p)
  }

  /** The link table lists exactly the records that are held back, each once. */
  ghost predicate LinksOk(heap: Heap, scLinks: seq<map<Id, Pointer>>) {
    LinksHeld(heap, scLinks) && LinksUnique(scLinks) && AllLinked(heap, scLinks)
  }

  ghost predicate Linked(scLinks: seq<map<Id, Pointer>>, p: Pointer) {
    exists x, id :: 0 <= x < |scLinks| && id in scLinks[x] && scLinks[x][id] == p
  }

  lemma LinksAppend(heap: Heap, scLinks: seq<map<Id, Pointer>>, r: AnnotateData)
    requires LinksOk(heap, scLinks) && r.dump
    ensures LinksOk(heap + [r], scLinks)
  {
  }

  lemma LinksGrow(heap: Heap, scLinks: seq<map<Id, Pointer>>)
    requires LinksOk(heap, scLinks)
    ensures LinksOk(heap, scLinks + [map[]])
  {
    var after := scLinks + [map[]];
    forall p | 0 <= p < |heap| && !heap[p].dump
      ensures Linked(after, p)
    {
      var x, id :| 0 <= x < |scLinks| && id in scLinks[x] && scLinks[x][id] == p;
      assert id in after[x] && after[x][id] == p;
    }
  }

  /** A new held record enters the table under an unused name. */
  lemma LinksHold(heap: Heap, scLinks: seq<map<Id, Pointer>>, x: nat, id: Id, r: AnnotateData)
    requires LinksOk(heap, scLinks) && x < |scLinks| && id !in scLinks[x] && Awaiting(r)
    ensures LinksOk(heap + [r], Hold(scLinks, x, id, |heap|))
  {
    HoldUnique(heap, scLinks, x, id);
    HoldLinked(heap, scLinks, x, id, r);
    hide LinksUnique, AllLinked;
    var after := Hold(scLinks, x, id, |heap|);
    forall y, jd | 0 <= y < |after| && jd in after[y]
      ensures after[y][jd] < |heap| + 1 && Awaiting((heap + [r])[after[y][jd]])
    {
      if y != x || jd != id { assert jd in scLinks[y] && after[y][jd] == scLinks[y][jd]; }
    }
  }

  lemma HoldUnique(heap: Heap, scLinks: seq<map<Id, Pointer>>, x: nat, id: Id)
    requires LinksHeld(heap, scLinks) && LinksUnique(scLinks) && x < |scLinks| && id !in scLinks[x]
    ensures LinksUnique(Hold(scLinks, x, id, |heap|))
  {
    var after := Hold(scLinks, x, id, |heap|);
    forall y, jd, z, kd | 0 <= y < |after| && 0 <= z < |after| && jd in after[y] && kd in after[z]
      ensures after[y][jd] == after[z][kd] ==> y == z && jd == kd
    {
      assert (y, jd) != (x, id) ==> jd in scLinks[y] && after[y][jd] == scLinks[y][jd] < |heap|;
      assert (z, kd) != (x, id) ==> kd in scLinks[z] && after[z][kd] == scLinks[z][kd] < |heap|;
    }
  }

  lemma HoldLinked(heap: Heap, scLinks: seq<map<Id, Pointer>>, x: nat, id: Id, r: AnnotateData)
    requires AllLinked(heap, scLinks) && x < |scLinks| && id !in scLinks[x]
    ensures AllLinked(heap + [r], Hold(scLinks, x, id, |heap|))
  {
    var after := Hold(scLinks, x, id, |heap|);
    forall p | 0 <= p < |heap| + 1 && !(heap + [r])[p].dump
      ensures Linked(after, p)
    {
      if p == |heap| {
        assert id in after[x] && after[x][id] == p;
      } else {
        var y, jd :| 0 <= y < |scLinks| && jd in scLinks[y] && scLinks[y][jd] == p;
        assert jd in after[y] && after[y][jd] == p;
      }
    }
  }

  lemma LinksRelease(heap: Heap, heap': Heap, scLinks: seq<map<Id, Pointer>>, x: nat, id: Id)
    requires LinksOk(heap, scLinks) && x < |scLinks| && id in scLinks[x] && |heap'| == |heap|
    requires heap'[scLinks[x][id]].dump
    requires forall p :: 0 <= p < |heap| && p != scLinks[x][id] ==> heap'[p] == heap[p]
    ensures LinksOk(heap', Release(scLinks, x, id))
  {
    var after := Release(scLinks, x, id);
    ReleaseLinked(heap, heap', scLinks, x, id);
    hide AllLinked;
    forall y, jd | 0 <= y < |after| && jd in after[y]
      ensures jd in scLinks[y] && after[y][jd] == scLinks[y][jd] != scLinks[x][id]
    {
    }
  }

  lemma ReleaseLinked(heap: Heap, heap': Heap, scLinks: seq<map<Id, Pointer>>, x: nat, id: Id)
    requires AllLinked(heap, scLinks) && x < |scLinks| && id in scLinks[x] && |heap'| == |heap|
    requires scLinks[x][id] < |heap| && heap'[scLinks[x][id]].dump
    requires forall p :: 0 <= p < |heap| && p != scLinks[x][id] ==> heap'[p] == heap[p]
    ensures AllLinked(heap', Release(scLinks, x, id))
  {
    var after := Release(scLinks, x, id);
    forall p | 0 <= p < |heap'| && !heap'[p].dump
      ensures Linked(after, p)
    {
      var y, jd :| 0 <= y < |scLinks| && jd in scLinks[y] && scLinks[y][jd] == p;
      assert jd in after[y] && after[y][jd] == p;
    }
  }

  /** Links look at neither `data` nor anything a queue changes. */
  lemma LinksFrame(heap: Heap, heap': Heap, scLinks: seq<map<Id, Pointer>>)
    requires LinksOk(heap, scLinks) && |heap'| == |heap|
    requires forall p :: 0 <= p < |heap| ==> heap'[p] == heap[p].(data := heap'[p].data)
    ensures LinksOk(heap', scLinks)
  {
  }

  // ----- Stacks of running state machines -----

  ghost predicate StacksOk(smStack: map<StackId, seq<nat>>, smMap: seq<(nat, Id)>) {
    forall sid, i :: sid in smStack && 0 <= i < |smStack[sid]| ==> OnStackOk(sid, smStack[sid][i], smMap)
  }

  /** A machine on the stack of a system is numbered, and belongs to that system. */
  ghost predicate OnStackOk(sid: StackId, smi: nat, smMap: seq<(nat, Id)>) {
    1 <= smi <= |smMap| && smMap[smi - 1].0 == sid.sys
  }

  lemma StacksExtend(smStack: map<StackId, seq<nat>>, smMap: seq<(nat, Id)>, longer: seq<(nat, Id)>)
    requires StacksOk(smStack, smMap) && smMap <= longer
    ensures StacksOk(smStack, longer)
  {
    forall sid, i | sid in smStack && 0 <= i < |smStack[sid]|
      ensures OnStackOk(sid, smStack[sid][i], longer)
    {
      assert OnStackOk(sid, smStack[sid][i], smMap);
    }
  }

  // ----- Queues seen from here -----

  lemma {:induction false} BytesAppend(heap: Heap, r: AnnotateData, q: seq<Pointer>)
    requires InHeap(heap, q)
    ensures InHeap(heap + [r], q) && Bytes(heap + [r], q) == Bytes(heap, q) && Units(heap + [r], q) == Units(heap, q)
  {
    UnitsFrame(heap, heap + [r], q);
  }

  lemma QueuesAppend(heap: Heap, r: AnnotateData, qSize: seq<int>, qBytes: seq<int>, qData: seq<seq<Pointer>>)
    requires QueuesOk(heap, qSize, qBytes, qData)
    ensures QueuesOk(heap + [r], qSize, qBytes, qData)
    ensures OthersKept(heap, qData, heap + [r], qData, -1)
  {
    hide Bytes, Units;
    forall x | 0 <= x < |qData|
      ensures InHeap(heap, qData[x]) && InHeap(heap + [r], qData[x])
      ensures Bytes(heap + [r], qData[x]) == Bytes(heap, qData[x]) &&
          Units(heap + [r], qData[x]) == Units(heap, qData[x])
      ensures NonNegative(heap, qData[x]) ==> NonNegative(heap + [r], qData[x])
    {
      BytesAppend(heap, r, qData[x]);
    }
  }

  /** Resolving a link changes no record's `data`. */
  lemma QueuesFrame(heap: Heap, heap': Heap, qSize: seq<int>, qBytes: seq<int>, qData: seq<seq<Pointer>>)
    requires QueuesOk(heap, qSize, qBytes, qData) && |heap'| == |heap|
    requires forall p :: 0 <= p < |heap| ==> heap'[p].data == heap[p].data
    ensures QueuesOk(heap', qSize, qBytes, qData)
    ensures OthersKept(heap, qData, heap', qData, -1)
  {
    hide Bytes, Units;
    forall x | 0 <= x < |qData|
      ensures InHeap(heap', qData[x]) && Bytes(heap', qData[x]) == Bytes(heap, qData[x])
      ensures Units(heap', qData[x]) == Units(heap, qData[x])
      ensures NonNegative(heap, qData[x]) ==> NonNegative(heap', qData[x])
    {
      UnitsFrame(heap, heap', qData[x]);
    }
  }

  lemma QueuesGrow(heap: Heap, qSize: seq<int>, qBytes: seq<int>, qData: seq<seq<Pointer>>)
    requires QueuesOk(heap, qSize, qBytes, qData)
    ensures QueuesOk(heap, qSize + [0], qBytes + [0], qData + [[]])
  {
    var after := qData + [[]];
    assert forall x :: 0 <= x < |qData| ==> after[x] == qData[x];
    forall x, y | 0 <= x < |after| && 0 <= y < |after| && x != y
      ensures Apart(after[x], after[y])
    {
      if x < |qData| && y < |qData| { assert Apart(qData[x], qData[y]); }
    }
  }

  lemma KeepAllBut(heap: Heap, qData: seq<seq<Pointer>>, heap': Heap, qData': seq<seq<Pointer>>, x: nat)
    requires OthersKept(heap, qData, heap', qData', x) && x < |qData'| && InHeap(heap', qData'[x])
    ensures AllNonNegative(heap, qData) && NonNegative(heap', qData'[x]) ==> AllNonNegative(heap', qData')
  {
    if AllNonNegative(heap, qData) && NonNegative(heap', qData'[x]) { AllKept(heap, qData, heap', qData', x); }
  }

  /** A machine found on the stack of system sysi has its own number in that system's table. */
  lemma KnownMachine(t: Tables, sysi: nat, smi: nat)
    requires TablesOk(t) && 1 <= sysi <= t.numSys && 1 <= smi <= t.numSm && t.smMap[smi - 1].0 == sysi
    ensures t.smMap[smi - 1].1 in t.smCache[sysi - 1] && t.smCache[sysi - 1][t.smMap[smi - 1].1] == smi
    ensures InternSm(t, sysi, t.smMap[smi - 1].1) == t
  {
    hide Listed, SystemsOk, StatesOk;
    assert FoundAt(t.smCache, t.smMap[smi - 1], smi - 1);
  }

  lemma KeepUnsigned(heap: Heap, qData: seq<seq<Pointer>>, heap': Heap, qData': seq<seq<Pointer>>)
    requires OthersKept(heap, qData, heap', qData', -1)
    ensures AllNonNegative(heap, qData) ==> AllNonNegative(heap', qData')
  {
    if AllNonNegative(heap, qData) { AllKept(heap, qData, heap', qData', -1); }
  }

  ghost predicate AllNonNegative(heap: Heap, qData: seq<seq<Pointer>>) {
    forall y :: 0 <= y < |qData| ==> InHeap(heap, qData[y]) && NonNegative(heap, qData[y])
  }

  lemma AllKept(heap: Heap, qData: seq<seq<Pointer>>, heap': Heap, qData': seq<seq<Pointer>>, x: int)
    requires AllNonNegative(heap, qData) && OthersKept(heap, qData, heap', qData', x)
    requires 0 <= x < |qData'| ==> InHeap(heap', qData'[x]) && NonNegative(heap', qData'[x])
    ensures AllNonNegative(heap', qData')
  {
    forall y | 0 <= y < |qData'|
      ensures InHeap(heap', qData'[y]) && NonNegative(heap', qData'[y])
    {
      if y != x { KeptAt(heap, qData, heap', qData', x, y); }
    }
  }

  lemma NothingJoined(units: seq<Pointer>, p: Pointer, count: int)
    ensures JoinedUnits(units, p, count, false) == units + Repeat(p, count)
    ensures units == [] ==> units + Repeat(p, count) == Repeat(p, count)
    ensures !QueuesInFront(0)
  {
  }

  lemma KeptRefl(heap: Heap, qSize: seq<int>, qBytes: seq<int>, qData: seq<seq<Pointer>>)
    requires QueuesOk(heap, qSize, qBytes, qData)
    ensures OthersKept(heap, qData, heap, qData, -1)
  {
  }

  lemma TablesShape(t: Tables)
    requires TablesOk(t)
    ensures StatesOk(t) && SystemsOk(t)
    ensures |t.smCache| == |t.qCache| == |t.numQ| == t.numSys
    ensures |t.smMap| == t.numSm < MAX_IDS && |t.qMap| == t.numQs < MAX_IDS
    ensures |t.stCache| == |t.numSt| == t.numSmt
  {
  }

  lemma WrapSum(bytes: int, count: int)
    requires 0 <= bytes <= INT32_MAX && IsInt32(count)
    ensures 0 <= WrapInt32(bytes + count) <==> 0 <= bytes + count <= INT32_MAX
    ensures 0 <= bytes + count <= INT32_MAX ==> WrapInt32(bytes + count) == bytes + count
  {
  }

  lemma EmptyUnsigned(heap: Heap)
    ensures InHeap(heap, []) && NonNegative(heap, []) && Units(heap, []) == []
  {
  }

  lemma QueuesShape(heap: Heap, qSize: seq<int>, qBytes: seq<int>, qData: seq<seq<Pointer>>)
    requires QueuesOk(heap, qSize, qBytes, qData)
    ensures |qSize| == |qBytes| == |qData|
  {
  }

  lemma SystemIdRange(t: Tables, s: System)
    requires TablesOk(t) && s in t.nameCache
    ensures 1 <= t.nameCache[s].1 <= t.numSys
  {
    assert SystemIds(t.nameCache)[s] == t.nameCache[s].1;
  }

  /** Number zero stands for "not seen before": it is never given out. */
  lemma NumberedFromOne(t: Tables, sysi: nat, id: Id)
    requires TablesOk(t) && 1 <= sysi <= t.numSys
    ensures |t.smCache| == |t.qCache| == t.numSys
    ensures id in t.smCache[sysi - 1] ==> t.smCache[sysi - 1][id] != 0
    ensures id in t.qCache[sysi - 1] ==> t.qCache[sysi - 1][id] != 0
  {
    hide Found, SystemsOk, StatesOk;
  }

  lemma SmListed(t: Tables, sysi: nat, id: Id)
    requires TablesOk(t) && 1 <= sysi <= t.numSys && id in t.smCache[sysi - 1]
    ensures 1 <= t.smCache[sysi - 1][id] <= t.numSm && t.smMap[t.smCache[sysi - 1][id] - 1] == (sysi, id)
  {
    hide Found, SystemsOk, StatesOk;
  }

  lemma QListed(t: Tables, sysi: nat, id: Id)
    requires TablesOk(t) && 1 <= sysi <= t.numSys && id in t.qCache[sysi - 1]
    ensures 1 <= t.qCache[sysi - 1][id] <= t.numQs && t.qMap[t.qCache[sysi - 1][id] - 1] == (sysi, id)
  {
    hide Found, SystemsOk, StatesOk;
  }

  lemma SmtRange(t: Tables, sm: string)
    requires StatesOk(t)
    ensures sm in t.smtCache ==> 1 <= t.smtCache[sm] <= t.numSmt
  {
  }

  lemma StRange(t: Tables, x: nat, s: string)
    requires StatesOk(t) && x < t.numSmt
    ensures x < |t.stCache| && (s in t.stCache[x] ==> 1 <= t.stCache[x][s])
  {
  }
}
