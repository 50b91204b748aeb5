/**
 When two annotators are alike: same names, stacks, links and queue contents, though their records lie
 at different places and their logs began at different times.  Every call keeps them alike.
 */
module CpaAlike {
  import opened CpaRecords
  import opened CpaQueues
  import opened CpaTables
  import opened CpaSpec
  import opened CpaInvariant
  import opened CpaSteps
  import opened CpaCalls

  /** Where in either store the records made since the restore begin. */
  datatype Cut = Cut(a: nat, b: nat)

  /** The same record in either store: both old, or both the n-th new one. */
  predicate Twins(p: Pointer, q: Pointer, k: Cut) {
    (p < k.a && q < k.b) || (p >= k.a && q >= k.b && p - k.a == q - k.b)
  }

  predicate SameRecord(r: AnnotateData, r': AnnotateData) {
    r' == r.(origData := r'.origData)
  }

  ghost predicate QueueAlike(a: Heap, q: seq<Pointer>, b: Heap, q': seq<Pointer>, k: Cut) {
    && InHeap(a, q) && InHeap(b, q') && |q'| == |q|
    && forall y :: 0 <= y < |q| ==> Twins(q[y], q'[y], k) && SameRecord(a[q[y]], b[q'[y]])
  }

  ghost predicate QueuesAlike(a: Heap, qa: seq<seq<Pointer>>, b: Heap, qb: seq<seq<Pointer>>, k: Cut) {
    |qb| == |qa| && forall x :: 0 <= x < |qa| ==> QueueAlike(a, qa[x], b, qb[x], k)
  }

  /** Links held since are held for the same machines, in the same new records. */
  ghost predicate LinkAlike(la: map<Id, Pointer>, lb: map<Id, Pointer>, k: Cut) {
    && (forall id :: id in la <==> id in lb)
    && (forall id :: id in la ==> la[id] >= k.a && lb[id] >= k.b && la[id] - k.a == lb[id] - k.b)
  }

  ghost predicate LinksAlike(la: seq<map<Id, Pointer>>, lb: seq<map<Id, Pointer>>, k: Cut) {
    |lb| == |la| && forall x :: 0 <= x < |la| ==> LinkAlike(la[x], lb[x], k)
  }

  /** A stack that is absent and one that is empty are alike. */
  ghost predicate StacksAlike(m: map<StackId, seq<nat>>, n: map<StackId, seq<nat>>) {
    forall sid :: StackAt(m, sid) == StackAt(n, sid)
  }

  function StackAt(m: map<StackId, seq<nat>>, sid: StackId): seq<nat> {
    if sid in m then m[sid] else []
  }

  ghost predicate SameSince(a: Heap, b: Heap, k: Cut) {
    k.a <= |a| && k.b <= |b| && a[k.a..] == b[k.b..]
  }

  ghost predicate Alike(s: Core, u: Core, k: Cut) {
    && s.now == u.now && s.t == u.t && s.lnMap == u.lnMap && s.swExpl == u.swExpl
    && s.lastState == u.lastState && s.conId == u.conId && s.qSize == u.qSize && s.qBytes == u.qBytes
    && SameSince(s.heap, u.heap, k) && QueuesAlike(s.heap, s.qData, u.heap, u.qData, k)
    && LinksAlike(s.scLinks, u.scLinks, k) && StacksAlike(s.smStack, u.smStack)
  }

  /** Both stop, or both go on to states that are alike. */
  ghost predicate BothAlike(o: Outcome, v: Outcome, k: Cut) {
    (o.Goes? <==> v.Goes?) && (o.Goes? ==> Alike(o.s, v.s, k))
  }

  // ----- Single steps -----

  lemma StoreGrows(a: Heap, b: Heap, qa: seq<seq<Pointer>>, qb: seq<seq<Pointer>>, k: Cut, r: AnnotateData)
    requires SameSince(a, b, k) && QueuesAlike(a, qa, b, qb, k)
    ensures SameSince(a + [r], b + [r], k) && QueuesAlike(a + [r], qa, b + [r], qb, k)
  {
    assert (a + [r])[k.a..] == a[k.a..] + [r] && (b + [r])[k.b..] == b[k.b..] + [r];
    forall x | 0 <= x < |qa| ensures QueueAlike(a + [r], qa[x], b + [r], qb[x], k) {
      assert QueueAlike(a, qa[x], b, qb[x], k);
    }
  }

  lemma LoggedAlike(s: Core, u: Core, k: Cut, op: nat, flag: nat, cpuid: nat, sm: nat, stq: nat, d: int)
    requires Alike(s, u, k)
    ensures Alike(Logged(s, op, flag, cpuid, sm, stq, d), Logged(u, op, flag, cpuid, sm, stq, d), k)
  {
    hide SameSince, QueuesAlike, LinksAlike, StacksAlike, Record;
    StoreGrows(s.heap, u.heap, s.qData, u.qData, k, Record(s.now, op, flag, cpuid, sm, stq, d));
  }

  lemma KnowSysAlike(s: Core, u: Core, k: Cut, sys: System)
    requires Alike(s, u, k)
    ensures Alike(KnowSys(s, sys), KnowSys(u, sys), k) && SysId(KnowSys(s, sys), sys) == SysId(KnowSys(u, sys), sys)
  {
    hide SameSince, QueuesAlike, StacksAlike, InternSys;
  }

  lemma KnowSmAlike(s: Core, u: Core, k: Cut, sysi: nat, id: Id)
    requires Alike(s, u, k)
    ensures BothAlike(KnowSm(s, sysi, id), KnowSm(u, sysi, id), k)
  {
    hide SameSince, QueuesAlike, LinksAlike, StacksAlike, InternSm;
  }

  lemma KnowStAlike(s: Core, u: Core, k: Cut, sm: string, st: string)
    requires Alike(s, u, k)
    ensures Alike(KnowSt(s, sm, st), KnowSt(u, sm, st), k)
  {
    hide SameSince, QueuesAlike, LinksAlike, StacksAlike, InternSt, StatesOk;
  }

  lemma KnowQAlike(s: Core, u: Core, k: Cut, sysi: nat, id: Id)
    requires Alike(s, u, k)
    ensures BothAlike(KnowQ(s, sysi, id), KnowQ(u, sysi, id), k)
  {
    hide SameSince, LinksAlike, StacksAlike, InternQ;
  }

  lemma SameStack(s: Core, u: Core, k: Cut, sid: StackId)
    requires Alike(s, u, k)
    ensures Stack(s, sid) == Stack(u, sid)
  {
    hide SameSince, QueuesAlike, LinksAlike;
    assert StackAt(s.smStack, sid) == StackAt(u.smStack, sid);
  }

  lemma StackSet(m: map<StackId, seq<nat>>, n: map<StackId, seq<nat>>, sid: StackId, stack: seq<nat>)
    requires StacksAlike(m, n)
    ensures StacksAlike(m[sid := stack], n[sid := stack])
    ensures StackAt(m, sid) == [] ==> StacksAlike(m[sid := []], n) && StacksAlike(m, n[sid := []])
  {
    var m', n' := m[sid := stack], n[sid := stack];
    forall o ensures StackAt(m', o) == StackAt(n', o) {
      assert StackAt(m, o) == StackAt(n, o);
    }
  }

  lemma WithStackAlike(s: Core, u: Core, k: Cut, sid: StackId)
    requires Alike(s, u, k)
    ensures Alike(WithStack(s, sid), WithStack(u, sid), k)
    ensures Stack(WithStack(s, sid), sid) == Stack(WithStack(u, sid), sid)
  {
    hide SameSince, QueuesAlike, LinksAlike, StacksAlike;
    SameStack(s, u, k, sid);
    StackSet(s.smStack, u.smStack, sid, []);
  }

  lemma SetStackAlike(s: Core, u: Core, k: Cut, sid: StackId, stack: seq<nat>, marks: map<StackId, bool>)
    requires Alike(s, u, k)
    ensures Alike(s.(smStack := s.smStack[sid := stack], swExpl := marks),
                  u.(smStack := u.smStack[sid := stack], swExpl := marks), k)
  {
    hide SameSince, QueuesAlike, LinksAlike, StacksAlike;
    StackSet(s.smStack, u.smStack, sid, stack);
  }

  lemma LinkInAlike(s: Core, u: Core, k: Cut, smi: nat, from: nat)
    requires Alike(s, u, k)
    ensures BothAlike(LinkIn(s, smi, from), LinkIn(u, smi, from), k)
  {
    hide SameSince, QueuesAlike, LinksAlike, StacksAlike;
  }

  // ----- Queues -----

  lemma JoinedAlike(a: Heap, q: seq<Pointer>, b: Heap, q': seq<Pointer>, k: Cut, r: AnnotateData, front: bool)
    requires SameSince(a, b, k) && QueueAlike(a, q, b, q', k)
    ensures QueueAlike(a + [r], Joined(q, |a|, front), b + [r], Joined(q', |b|, front), k)
  {
    var a', b' := a + [r], b + [r];
    assert QueueAlike(a', q, b', q', k);
    assert QueueAlike(a', [|a|], b', [|b|], k) by { assert |a[k.a..]| == |b[k.b..]|; }
    hide QueueAlike, SameSince;
    ConcatAlike(a', q, [|a|], b', q', [|b|], k);
    ConcatAlike(a', [|a|], q, b', [|b|], q', k);
  }

  lemma ConcatAlike(a: Heap, q: seq<Pointer>, r: seq<Pointer>, b: Heap, q': seq<Pointer>, r': seq<Pointer>, k: Cut)
    requires QueueAlike(a, q, b, q', k) && QueueAlike(a, r, b, r', k)
    ensures QueueAlike(a, q + r, b, q' + r', k)
  {
    hide Twins, SameRecord;
  }

  lemma ReplaceAlike(a: Heap, qa: seq<seq<Pointer>>, b: Heap, qb: seq<seq<Pointer>>, k: Cut, x: nat,
                     q: seq<Pointer>, q': seq<Pointer>)
    requires QueuesAlike(a, qa, b, qb, k) && x < |qa| && QueueAlike(a, q, b, q', k)
    ensures QueuesAlike(a, qa[x := q], b, qb[x := q'], k)
  {
  }

  lemma EnqueueAlike(s: Core, u: Core, k: Cut, flags: nat, cpuid: nat, sm: nat, qi: nat, count: int)
    requires Alike(s, u, k)
    ensures BothAlike(Enqueue(s, flags, cpuid, sm, qi, count), Enqueue(u, flags, cpuid, sm, qi, count), k)
  {
    hide LinksAlike, StacksAlike, Record, QueuesInFront, SameSince, QueueAlike, Joined;
    if KnownQ(s, qi) {
      var x, r := qi - 1, Record(s.now, OP_QUEUE, flags, cpuid, sm, qi, count);
      var front := QueuesInFront(flags);
      assert QueueAlike(s.heap, s.qData[x], u.heap, u.qData[x], k);
      JoinedAlike(s.heap, s.qData[x], u.heap, u.qData[x], k, r, front);
      StoreGrows(s.heap, u.heap, s.qData, u.qData, k, r);
      JoinedSize(s.qData[x], |s.heap|, front);
      JoinedSize(u.qData[x], |u.heap|, front);
      SameLength(s.heap, s.qData[x], u.heap, u.qData[x], k);
      hide QueuesAlike;
      ReplaceAlike(s.heap + [r], s.qData, u.heap + [r], u.qData, k, x,
                   Joined(s.qData[x], |s.heap|, front), Joined(u.qData[x], |u.heap|, front));
    }
  }

  lemma SameLength(a: Heap, q: seq<Pointer>, b: Heap, q': seq<Pointer>, k: Cut)
    requires QueueAlike(a, q, b, q', k)
    ensures |q| == |q'|
  {
  }

  /** Taking bytes from the front: n records go and m bytes leave the next, the same from both queues. */
  lemma {:induction false} TakeFrontAlike(a: Heap, q: seq<Pointer>, b: Heap, q': seq<Pointer>, k: Cut, need: int)
    returns (n: nat, m: int)
    requires QueueAlike(a, q, b, q', k)
    ensures FrontOverflows(a, q, need) == FrontOverflows(b, q', need)
    ensures n <= |q| == |q'| && (n == |q| ==> m == 0)
    ensures TakeFront(a, q, need) == (if m == 0 then a else Shrunk(a, q[n], m), q[n..])
    ensures TakeFront(b, q', need) == (if m == 0 then b else Shrunk(b, q'[n], m), q'[n..])
    decreases |q|
  {
    hide QueueAlike;
    n, m := 0, 0;
    assert q[0..] == q && q'[0..] == q';
    EndsAlike(a, q, b, q', k);
    if need > 0 && q != [] {
      if a[q[0]].data > need {
        m := need;
      } else {
        RestAlike(a, q, b, q', k, true);
        n, m := TakeFrontAlike(a, q[1..], b, q'[1..], k, need - a[q[0]].data);
        assert q[1..][n..] == q[n + 1..] && q'[1..][n..] == q'[n + 1..];
        n := n + 1;
      }
    }
  }

  lemma {:induction false} TakeBackAlike(a: Heap, q: seq<Pointer>, b: Heap, q': seq<Pointer>, k: Cut, need: int)
    returns (n: nat, m: int)
    requires QueueAlike(a, q, b, q', k)
    ensures BackOverflows(a, q, need) == BackOverflows(b, q', need)
    ensures n <= |q| == |q'| && (n == 0 ==> m == 0)
    ensures TakeBack(a, q, need) == (if m == 0 then a else Shrunk(a, q[n - 1], m), q[..n])
    ensures TakeBack(b, q', need) == (if m == 0 then b else Shrunk(b, q'[n - 1], m), q'[..n])
    decreases |q|
  {
    hide QueueAlike;
    n, m := |q|, 0;
    EndsAlike(a, q, b, q', k);
    assert q[..|q|] == q && q'[..|q|] == q';
    if need > 0 && q != [] {
      var last := |q| - 1;
      if a[q[last]].data > need {
        m := need;
      } else {
        RestAlike(a, q, b, q', k, false);
        n, m := TakeBackAlike(a, q[..last], b, q'[..last], k, need - a[q[last]].data);
        assert q[..last][..n] == q[..n] && q'[..last][..n] == q'[..n];
      }
    }
  }

  /** The records at either end hold the same counts. */
  lemma EndsAlike(a: Heap, q: seq<Pointer>, b: Heap, q': seq<Pointer>, k: Cut)
    requires QueueAlike(a, q, b, q', k)
    ensures |q'| == |q|
    ensures q != [] ==> q[0] < |a| && q'[0] < |b| && a[q[0]].data == b[q'[0]].data
    ensures var last := |q| - 1;
      q != [] ==> q[last] < |a| && q'[last] < |b| && a[q[last]].data == b[q'[last]].data
  {
    if q != [] {
      assert SameRecord(a[q[0]], b[q'[0]]) && SameRecord(a[q[|q| - 1]], b[q'[|q| - 1]]);
    }
  }

  lemma RestAlike(a: Heap, q: seq<Pointer>, b: Heap, q': seq<Pointer>, k: Cut, front: bool)
    requires QueueAlike(a, q, b, q', k) && q != []
    ensures |q'| == |q|
    ensures front ==> QueueAlike(a, q[1..], b, q'[1..], k)
    ensures !front ==> QueueAlike(a, q[..|q| - 1], b, q'[..|q| - 1], k)
  {
    if front {
      forall y | 0 <= y < |q| - 1
        ensures Twins(q[1..][y], q'[1..][y], k) && SameRecord(a[q[1..][y]], b[q'[1..][y]])
      {
        assert q[1..][y] == q[y + 1] && q'[1..][y] == q'[y + 1];
      }
    }
  }

  lemma PartAlike(a: Heap, q: seq<Pointer>, b: Heap, q': seq<Pointer>, k: Cut, n: nat)
    requires QueueAlike(a, q, b, q', k) && n <= |q|
    ensures |q'| == |q| && QueueAlike(a, q[n..], b, q'[n..], k) && QueueAlike(a, q[..n], b, q'[..n], k)
  {
    forall y | 0 <= y < |q| - n
      ensures Twins(q[n..][y], q'[n..][y], k) && SameRecord(a[q[n..][y]], b[q'[n..][y]])
    {
      assert q[n..][y] == q[y + n] && q'[n..][y] == q'[y + n];
    }
  }

  /** The place of a record in the queues tells it from all others. */
  lemma OnePlace(heap: Heap, qData: seq<seq<Pointer>>, x: nat, y: nat, x': nat, y': nat)
    requires Unshared(heap, qData) && x < |qData| && y < |qData[x]| && x' < |qData| && y' < |qData[x']|
    ensures qData[x][y] == qData[x'][y'] <==> x == x' && y == y'
  {
    if x != x' {
      assert Apart(qData[x], qData[x']);
      assert qData[x][y] in qData[x] && qData[x'][y'] in qData[x'];
    } else {
      assert Distinct(qData[x]);
    }
  }

  /** Bytes taken out of the same record on both sides. */
  lemma ShrunkAlike(a: Heap, qa: seq<seq<Pointer>>, b: Heap, qb: seq<seq<Pointer>>, k: Cut, x: nat, y: nat, m: int)
    requires SameSince(a, b, k) && QueuesAlike(a, qa, b, qb, k) && Unshared(a, qa) && Unshared(b, qb)
    requires x < |qa| && y < |qa[x]|
    ensures |qb| == |qa| && |qb[x]| == |qa[x]| && qa[x][y] < |a| && qb[x][y] < |b|
    ensures SameSince(Shrunk(a, qa[x][y], m), Shrunk(b, qb[x][y], m), k)
    ensures QueuesAlike(Shrunk(a, qa[x][y], m), qa, Shrunk(b, qb[x][y], m), qb, k)
  {
    hide Unshared, Twins;
    assert QueueAlike(a, qa[x], b, qb[x], k);
    var p, p' := qa[x][y], qb[x][y];
    var a', b' := Shrunk(a, p, m), Shrunk(b, p', m);
    forall x' | 0 <= x' < |qa| ensures QueueAlike(a', qa[x'], b', qb[x'], k) {
      assert QueueAlike(a, qa[x'], b, qb[x'], k);
      forall y' | 0 <= y' < |qa[x']| ensures SameRecord(a'[qa[x'][y']], b'[qb[x'][y']]) {
        OnePlace(a, qa, x, y, x', y');
        OnePlace(b, qb, x, y, x', y');
        assert SameRecord(a[qa[x'][y']], b[qb[x'][y']]);
      }
    }
    assert Twins(p, p', k);
    ShrunkSince(a, b, k, p, p', m);
  }

  lemma ShrunkSince(a: Heap, b: Heap, k: Cut, p: Pointer, p': Pointer, m: int)
    requires SameSince(a, b, k) && Twins(p, p', k) && p < |a| && p' < |b|
    ensures SameSince(Shrunk(a, p, m), Shrunk(b, p', m), k)
  {
    var a', b' := Shrunk(a, p, m), Shrunk(b, p', m);
    forall i | 0 <= i < |a| - k.a ensures a'[k.a..][i] == b'[k.b..][i] {
      assert a[k.a..][i] == b[k.b..][i];
    }
  }

  ghost predicate BothUnshared(s: Core, u: Core) {
    Unshared(s.heap, s.qData) && Unshared(u.heap, u.qData)
  }

  /** The n-th part of queue qi stays, m bytes leave record y of it. */
  lemma CutAlike(s: Core, u: Core, k: Cut, qi: nat, y: nat, m: int, n: nat, front: bool, bytes: int)
    requires Alike(s, u, k) && BothUnshared(s, u) && KnownQ(s, qi) && KnownQ(u, qi)
    requires n <= |s.qData[qi - 1]| == |u.qData[qi - 1]| && (m != 0 ==> y < |s.qData[qi - 1]|)
    requires m != 0 ==> s.qData[qi - 1][y] < |s.heap| && u.qData[qi - 1][y] < |u.heap|
    ensures var q, q' := s.qData[qi - 1], u.qData[qi - 1];
      var a := if m == 0 then s.heap else Shrunk(s.heap, q[y], m);
      var b := if m == 0 then u.heap else Shrunk(u.heap, q'[y], m);
      Alike(WithQueue(s.(heap := a), qi, if front then q[n..] else q[..n], bytes),
            WithQueue(u.(heap := b), qi, if front then q'[n..] else q'[..n], bytes), k)
  {
    hide SameSince, QueueAlike, LinksAlike, StacksAlike, Unshared, Shrunk;
    var x := qi - 1;
    var q, q' := s.qData[x], u.qData[x];
    if m != 0 { ShrunkAlike(s.heap, s.qData, u.heap, u.qData, k, x, y, m); }
    var a := if m == 0 then s.heap else Shrunk(s.heap, q[y], m);
    var b := if m == 0 then u.heap else Shrunk(u.heap, q'[y], m);
    assert QueueAlike(a, q, b, q', k);
    PartAlike(a, q, b, q', k, n);
    hide QueuesAlike;
    ReplaceAlike(a, s.qData, b, u.qData, k, x, if front then q[n..] else q[..n], if front then q'[n..] else q'[..n]);
  }

  lemma QueueInBoth(s: Core, u: Core, k: Cut, qi: nat)
    requires Alike(s, u, k) && KnownQ(s, qi)
    ensures KnownQ(u, qi) && QueueAlike(s.heap, s.qData[qi - 1], u.heap, u.qData[qi - 1], k)
    ensures |s.qData[qi - 1]| == |u.qData[qi - 1]|
    ensures InHeap(s.heap, s.qData[qi - 1]) && InHeap(u.heap, u.qData[qi - 1])
  {
    hide SameSince, LinksAlike, StacksAlike;
  }

  lemma DequeuedAlike(s: Core, u: Core, k: Cut, qi: nat, count: int)
    requires Alike(s, u, k) && BothUnshared(s, u) && KnownQ(s, qi)
    ensures KnownQ(u, qi) && Alike(Dequeued(s, qi, count), Dequeued(u, qi, count), k)
    ensures FrontOverflows(s.heap, s.qData[qi - 1], count) == FrontOverflows(u.heap, u.qData[qi - 1], count)
  {
    hide Alike, QueueAlike, TakeFront, FrontOverflows, Unshared, Shrunk;
    QueueInBoth(s, u, k, qi);
    var n, m := TakeFrontAlike(s.heap, s.qData[qi - 1], u.heap, u.qData[qi - 1], k, count);
    SameCounts(s, u, k);
    CutAlike(s, u, k, qi, n, m, n, true, s.qBytes[qi - 1] - count);
  }

  lemma SameCounts(s: Core, u: Core, k: Cut)
    requires Alike(s, u, k)
    ensures s.qBytes == u.qBytes && s.qSize == u.qSize && |s.qData| == |u.qData| && s.t == u.t && s.now == u.now
  {
    hide SameSince, QueueAlike, LinksAlike, StacksAlike;
  }

  lemma TrimmedAlike(s: Core, u: Core, k: Cut, qi: nat, size: int)
    requires Alike(s, u, k) && BothUnshared(s, u) && KnownQ(s, qi)
    ensures KnownQ(u, qi) && Alike(Trimmed(s, qi, size), Trimmed(u, qi, size), k)
    ensures var need := s.qBytes[qi - 1] - size;
      need == u.qBytes[qi - 1] - size &&
      BackOverflows(s.heap, s.qData[qi - 1], need) == BackOverflows(u.heap, u.qData[qi - 1], need)
  {
    hide Alike, QueueAlike, TakeBack, BackOverflows, Unshared, Shrunk;
    QueueInBoth(s, u, k, qi);
    SameCounts(s, u, k);
    var n, m := TakeBackAlike(s.heap, s.qData[qi - 1], u.heap, u.qData[qi - 1], k, s.qBytes[qi - 1] - size);
    CutAlike(s, u, k, qi, if n == 0 then 0 else n - 1, m, n, false, size);
  }

  lemma ClearedAlike(s: Core, u: Core, k: Cut, qi: nat)
    requires Alike(s, u, k) && KnownQ(s, qi)
    ensures KnownQ(u, qi) && Alike(WithQueue(s, qi, [], 0), WithQueue(u, qi, [], 0), k)
  {
    hide SameSince, LinksAlike, StacksAlike;
  }

  lemma DequeueAlike(s: Core, u: Core, k: Cut, flags: nat, cpuid: nat, sm: nat, qi: nat, count: int)
    requires Alike(s, u, k) && BothUnshared(s, u)
    ensures BothAlike(Dequeue(s, flags, cpuid, sm, qi, count), Dequeue(u, flags, cpuid, sm, qi, count), k)
  {
    hide Alike, Dequeued, FrontOverflows, Unshared;
    SameCounts(s, u, k);
    if KnownQ(s, qi) {
      LoggedAlike(s, u, k, OP_DEQUEUE, flags, cpuid, sm, qi, count);
      ClearedAlike(Logged(s, OP_DEQUEUE, flags, cpuid, sm, qi, count),
                   Logged(u, OP_DEQUEUE, flags, cpuid, sm, qi, count), k, qi);
      DequeuedAlike(s, u, k, qi, count);
      LoggedAlike(Dequeued(s, qi, count), Dequeued(u, qi, count), k, OP_DEQUEUE, flags, cpuid, sm, qi, count);
    }
  }

  lemma EmptiedAlike(s: Core, u: Core, k: Cut, qi: nat, cpuid: nat, smi: nat, size: int)
    requires Alike(s, u, k) && KnownQ(s, qi)
    ensures KnownQ(u, qi) && Alike(Emptied(s, qi, cpuid, smi, size), Emptied(u, qi, cpuid, smi, size), k)
    ensures BothUnshared(s, u) ==> BothUnshared(Emptied(s, qi, cpuid, smi, size), Emptied(u, qi, cpuid, smi, size))
  {
    hide Alike, Unshared;
    SameCounts(s, u, k);
    LoggedAlike(s, u, k, OP_SIZE_QUEUE, 0, cpuid, smi, qi, size);
    ClearedAlike(Logged(s, OP_SIZE_QUEUE, 0, cpuid, smi, qi, size),
                 Logged(u, OP_SIZE_QUEUE, 0, cpuid, smi, qi, size), k, qi);
    if BothUnshared(s, u) {
      UnsharedCleared(s.heap, s.qData, Record(s.now, OP_SIZE_QUEUE, 0, cpuid, smi, qi, size), qi - 1);
      UnsharedCleared(u.heap, u.qData, Record(u.now, OP_SIZE_QUEUE, 0, cpuid, smi, qi, size), qi - 1);
    }
  }

  lemma UnsharedCleared(heap: Heap, qData: seq<seq<Pointer>>, r: AnnotateData, x: nat)
    requires Unshared(heap, qData) && x < |qData|
    ensures Unshared(heap + [r], qData[x := []]) && Unshared(heap + [r], qData) && Unshared(heap, qData + [[]])
  {
    UnsharedUpdate(heap, heap + [r], qData, x, []);
    UnsharedUpdate(heap, heap + [r], qData, x, qData[x]);
    assert qData[x := qData[x]] == qData;
    NewUnshared(heap, qData);
  }

  lemma NewUnshared(heap: Heap, qData: seq<seq<Pointer>>)
    requires Unshared(heap, qData)
    ensures Unshared(heap, qData + [[]])
  {
    var after := qData + [[]];
    forall x, y | 0 <= x < |after| && 0 <= y < |after| && x != y ensures Apart(after[x], after[y]) {
      if x < |qData| && y < |qData| { assert Apart(qData[x], qData[y]); }
    }
  }

  lemma ResizedAlike(s: Core, u: Core, k: Cut, cpuid: nat, smi: nat, qi: nat, size: int)
    requires Alike(s, u, k) && BothUnshared(s, u) && KnownQ(s, qi)
    ensures KnownQ(u, qi) && BothAlike(Resized(s, cpuid, smi, qi, size), Resized(u, cpuid, smi, qi, size), k)
  {
    hide Alike, Enqueue, Emptied, Trimmed, BackOverflows, Unshared;
    SameCounts(s, u, k);
    var bytes := s.qBytes[qi - 1];
    EnqueueAlike(s, u, k, 0, cpuid, smi, qi, size - bytes);
    EmptiedAlike(s, u, k, qi, cpuid, smi, size);
    LoggedAlike(s, u, k, OP_SIZE_QUEUE, 0, cpuid, smi, qi, size);
    UnsharedCleared(s.heap, s.qData, Record(s.now, OP_SIZE_QUEUE, 0, cpuid, smi, qi, size), qi - 1);
    UnsharedCleared(u.heap, u.qData, Record(u.now, OP_SIZE_QUEUE, 0, cpuid, smi, qi, size), qi - 1);
    TrimmedAlike(Logged(s, OP_SIZE_QUEUE, 0, cpuid, smi, qi, size),
                 Logged(u, OP_SIZE_QUEUE, 0, cpuid, smi, qi, size), k, qi, size);
  }

  lemma ResizeAlike(s: Core, u: Core, k: Cut, reset: bool, cpuid: nat, smi: nat, qi: nat, size: int)
    requires Alike(s, u, k) && BothUnshared(s, u)
    ensures BothAlike(Resize(s, reset, cpuid, smi, qi, size), Resize(u, reset, cpuid, smi, qi, size), k)
  {
    hide Alike, Resized, Unshared, Emptied;
    SameCounts(s, u, k);
    if KnownQ(s, qi) {
      if reset {
        EmptiedAlike(s, u, k, qi, cpuid, smi, 0);
        EmptiedShape(s, qi, cpuid, smi, 0);
        ResizedAlike(Emptied(s, qi, cpuid, smi, 0), Emptied(u, qi, cpuid, smi, 0), k, cpuid, smi, qi, size);
      } else {
        ResizedAlike(s, u, k, cpuid, smi, qi, size);
      }
    }
  }

  lemma KnowQUnshared(s: Core, sysi: nat, name: Id)
    requires Unshared(s.heap, s.qData)
    ensures KnowQ(s, sysi, name).Goes? ==> Unshared(KnowQ(s, sysi, name).s.heap, KnowQ(s, sysi, name).s.qData)
  {
    hide Unshared, InternQ;
    NewUnshared(s.heap, s.qData);
  }

  lemma QueueOpsAlike(s: Core, u: Core, k: Cut, op: QueueCall, flag: nat, cpuid: nat, smi: nat, sysi: nat, name: Id)
    requires Alike(s, u, k) && BothUnshared(s, u)
    ensures BothAlike(QueueOps(s, op, flag, cpuid, smi, sysi, name), QueueOps(u, op, flag, cpuid, smi, sysi, name), k)
  {
    hide Alike, KnowQ, QId, Enqueue, Dequeue, Resize, Unshared;
    KnowQAlike(s, u, k, sysi, name);
    KnowQUnshared(s, sysi, name);
    KnowQUnshared(u, sysi, name);
    if KnowQ(s, sysi, name).Goes? {
      var s1, u1 := KnowQ(s, sysi, name).s, KnowQ(u, sysi, name).s;
      SameNames(s1, u1, k, sysi, name);
      var qi := QId(s1, sysi, name);
      match op {
        case Enqueues(count) => EnqueueAlike(s1, u1, k, flag, cpuid, smi, qi, count);
        case Dequeues(count) => DequeueAlike(s1, u1, k, flag, cpuid, smi, qi, count);
        case Resizes(count, reset) => ResizeAlike(s1, u1, k, reset, cpuid, smi, qi, count);
        case _ => LoggedAlike(s1, u1, k, op.Operation(), flag, cpuid, smi, qi, op.count);
      }
    }
  }

  lemma SameNames(s: Core, u: Core, k: Cut, sysi: nat, id: Id)
    requires Alike(s, u, k)
    ensures s.t == u.t && QId(s, sysi, id) == QId(u, sysi, id) && SmId(s, sysi, id) == SmId(u, sysi, id)
    ensures BytesIn(s, sysi, id) == BytesIn(u, sysi, id)
  {
    hide SameSince, QueueAlike, LinksAlike, StacksAlike;
  }

  // ----- Held links -----

  lemma LinkOfBoth(s: Core, u: Core, k: Cut, x: nat, id: Id)
    requires Alike(s, u, k) && x < |s.scLinks|
    ensures |u.scLinks| == |s.scLinks| && LinkAlike(s.scLinks[x], u.scLinks[x], k)
    ensures id in s.scLinks[x] ==>
      var p, p' := s.scLinks[x][id], u.scLinks[x][id];
      (p < |s.heap| <==> p' < |u.heap|) && (p < |s.heap| ==> s.heap[p] == u.heap[p'])
  {
    hide QueuesAlike, StacksAlike;
    assert |s.heap[k.a..]| == |u.heap[k.b..]|;
    if id in s.scLinks[x] && s.scLinks[x][id] < |s.heap| {
      var i := s.scLinks[x][id] - k.a;
      assert s.heap[k.a..][i] == u.heap[k.b..][i];
    }
  }

  /** A new record changed on both sides. */
  lemma ToldAlike(s: Core, u: Core, k: Cut, x: nat, id: Id, smi: nat)
    requires Alike(s, u, k) && x < |s.scLinks| == |u.scLinks| && id in s.scLinks[x] && id in u.scLinks[x]
    requires s.scLinks[x][id] < |s.heap| && u.scLinks[x][id] < |u.heap|
    ensures var p, p' := s.scLinks[x][id], u.scLinks[x][id];
      Alike(s.(heap := s.heap[p := s.heap[p].(stq := smi, dump := true)], scLinks := Release(s.scLinks, x, id)),
            u.(heap := u.heap[p' := u.heap[p'].(stq := smi, dump := true)], scLinks := Release(u.scLinks, x, id)), k)
  {
    LinkOfBoth(s, u, k, x, id);
    var p, p' := s.scLinks[x][id], u.scLinks[x][id];
    var r := s.heap[p].(stq := smi, dump := true);
    NewChanged(s.heap, s.qData, u.heap, u.qData, k, p, p', r);
    ReleasedAlike(s.scLinks, u.scLinks, k, x, id);
    hide SameSince, QueuesAlike, StacksAlike, LinksAlike, Release;
  }

  lemma NewChanged(a: Heap, qa: seq<seq<Pointer>>, b: Heap, qb: seq<seq<Pointer>>, k: Cut, p: Pointer, p': Pointer,
                   r: AnnotateData)
    requires SameSince(a, b, k) && QueuesAlike(a, qa, b, qb, k)
    requires k.a <= p < |a| && k.b <= p' < |b| && p - k.a == p' - k.b
    ensures SameSince(a[p := r], b[p' := r], k) && QueuesAlike(a[p := r], qa, b[p' := r], qb, k)
  {
    var a', b' := a[p := r], b[p' := r];
    assert a'[k.a..] == a[k.a..][p - k.a := r] && b'[k.b..] == b[k.b..][p' - k.b := r];
    forall x | 0 <= x < |qa| ensures QueueAlike(a', qa[x], b', qb[x], k) {
      assert QueueAlike(a, qa[x], b, qb[x], k);
      forall y | 0 <= y < |qa[x]| ensures SameRecord(a'[qa[x][y]], b'[qb[x][y]]) {
        assert Twins(qa[x][y], qb[x][y], k) && SameRecord(a[qa[x][y]], b[qb[x][y]]);
      }
    }
  }

  lemma ReleasedAlike(la: seq<map<Id, Pointer>>, lb: seq<map<Id, Pointer>>, k: Cut, x: nat, id: Id)
    requires LinksAlike(la, lb, k) && x < |la|
    ensures |lb| == |la| && LinksAlike(Release(la, x, id), Release(lb, x, id), k)
  {
    assert LinkAlike(la[x], lb[x], k);
    assert LinkAlike(la[x] - {id}, lb[x] - {id}, k);
  }

  lemma ResolvedAlike(s: Core, u: Core, k: Cut, sysi: nat, id: Id, smi: nat)
    requires Alike(s, u, k)
    ensures BothAlike(Resolved(s, sysi, id, smi), Resolved(u, sysi, id, smi), k)
  {
    hide Alike, LinkIn, Release;
    SameLinkCount(s, u, k);
    if 1 <= sysi <= |s.scLinks| {
      LinkOfBoth(s, u, k, sysi - 1, id);
      if id in s.scLinks[sysi - 1] && s.scLinks[sysi - 1][id] < |s.heap| {
        var p, p' := s.scLinks[sysi - 1][id], u.scLinks[sysi - 1][id];
        ToldAlike(s, u, k, sysi - 1, id, smi);
        LinkInAlike(
          s.(heap := s.heap[p := s.heap[p].(stq := smi, dump := true)], scLinks := Release(s.scLinks, sysi - 1, id)),
          u.(heap := u.heap[p' := u.heap[p'].(stq := smi, dump := true)], scLinks := Release(u.scLinks, sysi - 1, id)),
          k, smi, s.heap[p].sm);
      }
    }
  }

  lemma SameLinkCount(s: Core, u: Core, k: Cut)
    requires Alike(s, u, k)
    ensures |s.scLinks| == |u.scLinks|
  {
    hide SameSince, QueuesAlike, StacksAlike;
  }

  lemma HeldAlike(s: Core, u: Core, k: Cut, sysi: nat, id: Id, cpuid: nat, smi: nat)
    requires Alike(s, u, k) && 1 <= sysi <= |s.scLinks|
    ensures |u.scLinks| == |s.scLinks| && Alike(Held(s, sysi, id, cpuid, smi), Held(u, sysi, id, cpuid, smi), k)
  {
    var r := Record(s.now, OP_LINK, 0, cpuid, smi, UNKNOWN_SM, 0).(dump := false);
    StoreGrows(s.heap, u.heap, s.qData, u.qData, k, r);
    assert |s.heap[k.a..]| == |u.heap[k.b..]|;
    HoldAlike(s.scLinks, u.scLinks, k, sysi - 1, id, |s.heap|, |u.heap|);
    hide SameSince, QueuesAlike, StacksAlike, LinksAlike, Hold, Record;
  }

  lemma HoldAlike(la: seq<map<Id, Pointer>>, lb: seq<map<Id, Pointer>>, k: Cut, x: nat, id: Id, p: Pointer, p': Pointer)
    requires LinksAlike(la, lb, k) && x < |la| && p >= k.a && p' >= k.b && p - k.a == p' - k.b
    ensures |lb| == |la| && LinksAlike(Hold(la, x, id, p), Hold(lb, x, id, p'), k)
  {
    assert LinkAlike(la[x], lb[x], k);
    assert LinkAlike(Put(la[x], id, p), Put(lb[x], id, p'), k);
  }

  // ----- Calls -----

  /** Both sides find the stack of a thread, and it is the same. */
  lemma ThreadAlike(s: Core, u: Core, k: Cut, sys: System, frame: nat) returns (sid: StackId, s2: Core, u2: Core)
    requires Alike(s, u, k)
    ensures sid == StackId(SysId(KnowSys(s, sys), sys), frame) == StackId(SysId(KnowSys(u, sys), sys), frame)
    ensures s2 == WithStack(KnowSys(s, sys), sid) && u2 == WithStack(KnowSys(u, sys), sid) && Alike(s2, u2, k)
    ensures Stack(s2, sid) == Stack(u2, sid) && s2.t == u2.t && s2.swExpl == u2.swExpl && s2.conId == u2.conId
    ensures s2.heap == s.heap && s2.qData == s.qData && u2.heap == u.heap && u2.qData == u.qData
  {
    hide KnowSys, SysId, SameSince, QueuesAlike, LinksAlike, StacksAlike;
    KnowSysAlike(s, u, k, sys);
    sid := StackId(SysId(KnowSys(s, sys), sys), frame);
    WithStackAlike(KnowSys(s, sys), KnowSys(u, sys), k, sid);
    s2, u2 := WithStack(KnowSys(s, sys), sid), WithStack(KnowSys(u, sys), sid);
    KnowSysOnly(s, sys);
    KnowSysOnly(u, sys);
  }

  lemma MarkedAlike(s: Core, u: Core, k: Cut, marks: map<StackId, bool>)
    requires Alike(s, u, k)
    ensures Alike(s.(swExpl := marks), u.(swExpl := marks), k)
  {
    hide SameSince, QueuesAlike, LinksAlike, StacksAlike;
  }

  lemma SameMaps(s: Core, u: Core, k: Cut)
    requires Alike(s, u, k)
    ensures s.t == u.t && s.lnMap == u.lnMap && s.lastState == u.lastState && s.swExpl == u.swExpl && s.conId == u.conId
  {
    hide SameSince, QueuesAlike, LinksAlike, StacksAlike;
  }

  lemma LastAlike(s: Core, u: Core, k: Cut, smi: nat, sti: nat)
    requires Alike(s, u, k)
    ensures Alike(s.(lastState := s.lastState[smi := sti]), u.(lastState := u.lastState[smi := sti]), k)
  {
    hide SameSince, QueuesAlike, LinksAlike, StacksAlike;
  }

  lemma EnteredAlike(s: Core, u: Core, k: Cut, sm: string, state: string, flag: nat, cpuid: nat, smi: nat, always: bool)
    requires Alike(s, u, k)
    ensures Alike(Entered(s, sm, state, flag, cpuid, smi, always), Entered(u, sm, state, flag, cpuid, smi, always), k)
  {
    hide Alike, KnowSt;
    KnowStAlike(s, u, k, sm, state);
    SameMaps(s, u, k);
    var s1, u1 := KnowSt(s, sm, state), KnowSt(u, sm, state);
    SameMaps(s1, u1, k);
    var sti := StId(s1, sm, state);
    LastAlike(s1, u1, k, smi, sti);
    LoggedAlike(s1.(lastState := s1.lastState[smi := sti]), u1.(lastState := u1.lastState[smi := sti]), k,
                OP_BEGIN, flag, cpuid, smi, sti, 0);
  }

  lemma LinkFromTopAlike(s: Core, u: Core, k: Cut, sid: StackId, smi: nat, cpuid: nat)
    requires Alike(s, u, k)
    ensures BothAlike(LinkFromTop(s, sid, smi, cpuid), LinkFromTop(u, sid, smi, cpuid), k)
  {
    hide Alike, LinkIn;
    WithStackAlike(s, u, k, sid);
    var s1, u1 := WithStack(s, sid), WithStack(u, sid);
    if Stack(s1, sid) != [] {
      LinkInAlike(s1, u1, k, smi, Top(s1, sid));
      if LinkIn(s1, smi, Top(s1, sid)).Goes? {
        LoggedAlike(LinkIn(s1, smi, Top(s1, sid)).s, LinkIn(u1, smi, Top(s1, sid)).s, k,
                    OP_LINK, 0, cpuid, Top(s1, sid), smi, 0);
      }
    }
  }

  lemma PushedAlike(s: Core, u: Core, k: Cut, sid: StackId, smi: nat)
    requires Alike(s, u, k)
    ensures Alike(Pushed(s, sid, smi), Pushed(u, sid, smi), k)
  {
    hide Alike;
    SameStack(s, u, k, sid);
    SameMaps(s, u, k);
    SetStackAlike(s, u, k, sid, Stack(s, sid) + [smi], s.swExpl[sid := false]);
  }

  lemma JoinStackAlike(s: Core, u: Core, k: Cut, sid: StackId, smi: nat, cpuid: nat, link: bool)
    requires Alike(s, u, k)
    ensures BothAlike(JoinStack(s, sid, smi, cpuid, link), JoinStack(u, sid, smi, cpuid, link), k)
  {
    hide Alike, LinkFromTop, Pushed;
    LinkFromTopAlike(s, u, k, sid, smi, cpuid);
    if link && LinkFromTop(s, sid, smi, cpuid).Goes? {
      PushedAlike(LinkFromTop(s, sid, smi, cpuid).s, LinkFromTop(u, sid, smi, cpuid).s, k, sid, smi);
    }
    PushedAlike(s, u, k, sid, smi);
  }

  lemma ArriveAlike(s: Core, u: Core, k: Cut, sysi: nat, id: Id, smi: nat, cpuid: nat, state: string)
    requires Alike(s, u, k)
    ensures BothAlike(Arrive(s, sysi, id, smi, cpuid, state), Arrive(u, sysi, id, smi, cpuid, state), k)
  {
    hide Alike, Resolved, Entered;
    ResolvedAlike(s, u, k, sysi, id, smi);
    if Resolved(s, sysi, id, smi).Goes? {
      EnteredAlike(Resolved(s, sysi, id, smi).s, Resolved(u, sysi, id, smi).s, k, id.name, state, 0, cpuid, smi, true);
    }
  }

  lemma SmBeginsAlike(s: Core, u: Core, k: Cut, sys: System, frame: nat, cpuid: nat, sm: string, context: nat,
                      link: bool, state: string)
    requires Alike(s, u, k)
    ensures BothAlike(SmBegins(s, sys, frame, cpuid, sm, context, link, state),
                      SmBegins(u, sys, frame, cpuid, sm, context, link, state), k)
  {
    hide Alike, KnowSys, SysId, KnowSm, SmId, JoinStack, Arrive;
    KnowSysAlike(s, u, k, sys);
    var s1, u1 := KnowSys(s, sys), KnowSys(u, sys);
    var sysi, id := SysId(s1, sys), Id(sm, context);
    KnowSmAlike(s1, u1, k, sysi, id);
    if KnowSm(s1, sysi, id).Goes? {
      var s2, u2 := KnowSm(s1, sysi, id).s, KnowSm(u1, sysi, id).s;
      SameNames(s2, u2, k, sysi, id);
      var smi, sid := SmId(s2, sysi, id), StackId(sysi, frame);
      JoinStackAlike(s2, u2, k, sid, smi, cpuid, link);
      if JoinStack(s2, sid, smi, cpuid, link).Goes? {
        ArriveAlike(JoinStack(s2, sid, smi, cpuid, link).s, JoinStack(u2, sid, smi, cpuid, link).s, k,
                    sysi, Id(sm, frame), smi, cpuid, state);
      }
    }
  }

  lemma UnlinkedAlike(s: Core, u: Core, k: Cut, smi: nat, cpuid: nat)
    requires Alike(s, u, k)
    ensures Alike(Unlinked(s, smi, cpuid), Unlinked(u, smi, cpuid), k)
  {
    LoggedAlike(s, u, k, OP_LINK, 0, cpuid, smi, if smi in s.lnMap then s.lnMap[smi] else 0, 0);
    hide SameSince, QueuesAlike, LinksAlike, StacksAlike, Record;
  }

  lemma ResumedAlike(s: Core, u: Core, k: Cut, smi: nat, cpuid: nat)
    requires Alike(s, u, k)
    ensures Alike(Resumed(s, smi, cpuid), Resumed(u, smi, cpuid), k)
  {
    hide Alike;
    SameMaps(s, u, k);
    var last := if smi in s.lastState then s.lastState[smi] else 0;
    LastAlike(s, u, k, smi, last);
    LoggedAlike(s.(lastState := s.lastState[smi := last]), u.(lastState := u.lastState[smi := last]), k,
                OP_BEGIN, 0, cpuid, smi, last, 0);
  }

  lemma TopEndsAlike(s: Core, u: Core, k: Cut, sid: StackId, sm: string, cpuid: nat)
    requires Alike(s, u, k) && Stack(s, sid) != []
    ensures Stack(u, sid) == Stack(s, sid) && Alike(TopEnds(s, sid, sm, cpuid), TopEnds(u, sid, sm, cpuid), k)
  {
    hide Alike, Unlinked, Resumed;
    SameStack(s, u, k, sid);
    SameMaps(s, u, k);
    var stack, top := Stack(s, sid), Top(s, sid);
    SetStackAlike(s, u, k, sid, stack[..|stack| - 1], s.swExpl);
    var s1 := s.(smStack := s.smStack[sid := stack[..|stack| - 1]]);
    var u1 := u.(smStack := u.smStack[sid := stack[..|stack| - 1]]);
    UnlinkedAlike(s1, u1, k, top, cpuid);
    ResumedAlike(Unlinked(s1, top, cpuid), Unlinked(u1, top, cpuid), k, top, cpuid);
  }

  lemma SmEndsAlike(s: Core, u: Core, k: Cut, sys: System, cpuid: nat, sm: string, frame: nat)
    requires Alike(s, u, k)
    ensures BothAlike(SmEnds(s, sys, cpuid, sm, frame), SmEnds(u, sys, cpuid, sm, frame), k)
  {
    hide Alike, KnowSys, SysId, TopEnds;
    KnowSysAlike(s, u, k, sys);
    var s1, u1 := KnowSys(s, sys), KnowSys(u, sys);
    SameMaps(s1, u1, k);
    var sid := StackId(SysId(s1, sys), frame);
    var marks := s1.swExpl[sid := false];
    MarkedAlike(s1, u1, k, marks);
    WithStackAlike(s1.(swExpl := marks), u1.(swExpl := marks), k, sid);
    var s2, u2 := WithStack(s1.(swExpl := marks), sid), WithStack(u1.(swExpl := marks), sid);
    if Stack(s2, sid) != [] { TopEndsAlike(s2, u2, k, sid, sm, cpuid); }
  }

  lemma BeginsAlike(s: Core, u: Core, k: Cut, sys: System, cpuid: nat, state: string, frame: nat, expl: bool, flag: nat)
    requires Alike(s, u, k)
    ensures Alike(Begins(s, sys, cpuid, state, frame, expl, flag), Begins(u, sys, cpuid, state, frame, expl, flag), k)
  {
    hide Alike, Ignored, KnowSys, SysId, Entered, SmName;
    var sid, s2, u2 := ThreadAlike(s, u, k, sys, frame);
    if Stack(s2, sid) != [] {
      var was := sid in s2.swExpl && s2.swExpl[sid];
      var marks := s2.swExpl[sid := expl || was];
      MarkedAlike(s2, u2, k, marks);
      EnterTopAlike(s2.(swExpl := marks), u2.(swExpl := marks), k, sid, state, flag, cpuid, false);
    }
  }

  lemma EnterTopAlike(s: Core, u: Core, k: Cut, sid: StackId, state: string, flag: nat, cpuid: nat, always: bool)
    requires Alike(s, u, k) && Stack(s, sid) != []
    ensures Stack(u, sid) == Stack(s, sid)
    ensures Alike(Entered(s, SmName(s, Top(s, sid)), state, flag, cpuid, Top(s, sid), always),
                  Entered(u, SmName(u, Top(u, sid)), state, flag, cpuid, Top(u, sid), always), k)
  {
    hide Alike, Entered;
    SameStack(s, u, k, sid);
    SameMaps(s, u, k);
    EnteredAlike(s, u, k, SmName(s, Top(s, sid)), state, flag, cpuid, Top(s, sid), always);
  }

  lemma StateEndsAlike(s: Core, u: Core, k: Cut, sys: System, cpuid: nat, state: string, frame: nat)
    requires Alike(s, u, k)
    ensures Alike(StateEnds(s, sys, cpuid, state, frame), StateEnds(u, sys, cpuid, state, frame), k)
  {
    hide Alike, KnowSys, SysId, Entered, SmName;
    var sid, s2, u2 := ThreadAlike(s, u, k, sys, frame);
    if Stack(s2, sid) != [] {
      var marks := s2.swExpl[sid := false];
      MarkedAlike(s2, u2, k, marks);
      EnterTopAlike(s2.(swExpl := marks), u2.(swExpl := marks), k, sid, state, 0, cpuid, true);
    }
  }

  lemma LinkCallAlike(s: Core, u: Core, k: Cut, sys: System, cpuid: nat, frame: nat, lsm: string, context: nat,
                      ends: bool, sm: string)
    requires Alike(s, u, k)
    ensures BothAlike(Links(s, sys, cpuid, frame, lsm, context, ends, sm),
                      Links(u, sys, cpuid, frame, lsm, context, ends, sm), k)
  {
    hide Alike, KnowSys, SysId, KnowSm, SmId, LinkIn, SmEnds;
    var sid, s2, u2 := ThreadAlike(s, u, k, sys, frame);
    var id := Id(lsm, context);
    if Stack(s2, sid) != [] {
      KnowSmAlike(s2, u2, k, sid.sys, id);
      if KnowSm(s2, sid.sys, id).Goes? {
        var s3, u3 := KnowSm(s2, sid.sys, id).s, KnowSm(u2, sid.sys, id).s;
        SameNames(s3, u3, k, sid.sys, id);
        var lsmi := SmId(s3, sid.sys, id);
        LinkInAlike(s3, u3, k, lsmi, Top(s2, sid));
        if LinkIn(s3, lsmi, Top(s2, sid)).Goes? {
          var s4, u4 := LinkIn(s3, lsmi, Top(s2, sid)).s, LinkIn(u3, lsmi, Top(s2, sid)).s;
          LoggedAlike(s4, u4, k, OP_LINK, 0, cpuid, Top(s2, sid), lsmi, 0);
          SmEndsAlike(Logged(s4, OP_LINK, 0, cpuid, Top(s2, sid), lsmi, 0),
                      Logged(u4, OP_LINK, 0, cpuid, Top(s2, sid), lsmi, 0), k, sys, cpuid, sm, frame);
        }
      }
    }
  }

  lemma SyscallLinkAlike(s: Core, u: Core, k: Cut, sys: System, cpuid: nat, frame: nat, lsm: string, ends: bool,
                         sm: string)
    requires Alike(s, u, k)
    ensures BothAlike(SyscallLinks(s, sys, cpuid, frame, lsm, ends, sm),
                      SyscallLinks(u, sys, cpuid, frame, lsm, ends, sm), k)
  {
    hide Alike, KnowSys, SysId, Held, SmEnds;
    var sid, s2, u2 := ThreadAlike(s, u, k, sys, frame);
    SameLinkCount(s2, u2, k);
    var id := Id(lsm, frame);
    if Stack(s2, sid) != [] && 1 <= sid.sys <= |s2.scLinks| {
      LinkOfBoth(s2, u2, k, sid.sys - 1, id);
      var top := Top(s2, sid);
      HeldAlike(s2, u2, k, sid.sys, id, cpuid, top);
      SmEndsAlike(Held(s2, sid.sys, id, cpuid, top), Held(u2, sid.sys, id, cpuid, top), k, sys, cpuid, sm, frame);
    }
  }

  lemma GetIdAlike(s: Core, u: Core, k: Cut, sys: System, cpuid: nat, frame: nat)
    requires Alike(s, u, k)
    ensures BothAlike(GetsId(s, sys, cpuid, frame), GetsId(u, sys, cpuid, frame), k)
  {
    hide Alike, KnowSys, SysId, WrapInt32;
    var s0, u0 := s.(conId := s.conId + 1), u.(conId := u.conId + 1);
    NextIdAlike(s, u, k);
    var sid, s2, u2 := ThreadAlike(s0, u0, k, sys, frame);
    if Stack(s2, sid) != [] {
      LoggedAlike(s2, u2, k, OP_IDENT, 0, cpuid, Top(s2, sid), 0, WrapInt32(s2.conId));
    }
  }

  lemma NextIdAlike(s: Core, u: Core, k: Cut)
    requires Alike(s, u, k)
    ensures Alike(s.(conId := s.conId + 1), u.(conId := u.conId + 1), k)
  {
    hide SameSince, QueuesAlike, LinksAlike, StacksAlike;
  }

  lemma IdentifyAlike(s: Core, u: Core, k: Cut, sys: System, cpuid: nat, frame: nat, id: nat)
    requires Alike(s, u, k)
    ensures Alike(Identifies(s, sys, cpuid, frame, id), Identifies(u, sys, cpuid, frame, id), k)
  {
    hide Alike, KnowSys, SysId, WrapInt32;
    var sid, s2, u2 := ThreadAlike(s, u, k, sys, frame);
    if Stack(s2, sid) != [] {
      LoggedAlike(s2, u2, k, OP_IDENT, 0, cpuid, Top(s2, sid), 0, WrapInt32(id));
    }
  }

  lemma HwBeginAlike(s: Core, u: Core, k: Cut, flag: nat, sys: System, frame: nat, sm: string, state: string)
    requires Alike(s, u, k)
    ensures BothAlike(HwBegins(s, flag, sys, frame, sm, state), HwBegins(u, flag, sys, frame, sm, state), k)
  {
    hide Alike, KnowSys, SysId, KnowSm, SmId, KnowSt, Hardware;
    KnowSysAlike(s, u, k, sys);
    var s1, u1 := KnowSys(s, sys), KnowSys(u, sys);
    var sysi, id := SysId(s1, sys), Id(sm, frame);
    KnowSmAlike(s1, u1, k, sysi, id);
    if KnowSm(s1, sysi, id).Goes? {
      var s2, u2 := KnowSm(s1, sysi, id).s, KnowSm(u1, sysi, id).s;
      KnowStAlike(s2, u2, k, sm, state);
      var s3, u3 := KnowSt(s2, sm, state), KnowSt(u2, sm, state);
      SameNames(s3, u3, k, sysi, id);
      LoggedAlike(s3, u3, k, OP_BEGIN, Hardware(flag), 0, SmId(s3, sysi, id), StId(s3, sm, state), 0);
    }
  }

  lemma KnowSmStore(s: Core, sysi: nat, id: Id)
    ensures KnowSm(s, sysi, id).Goes? ==>
      KnowSm(s, sysi, id).s.heap == s.heap && KnowSm(s, sysi, id).s.qData == s.qData
  {
  }

  lemma HwQueueAlike(s: Core, u: Core, k: Cut, op: QueueCall, flag: nat, sys: System, frame: nat, sm: string,
                     qSys: System, q: Id)
    requires Alike(s, u, k) && BothUnshared(s, u)
    ensures BothAlike(HwQueues(s, op, flag, sys, frame, sm, qSys, q), HwQueues(u, op, flag, sys, frame, sm, qSys, q), k)
  {
    hide Alike, KnowSys, SysId, KnowSm, SmId, QueueOps, Hardware, Unshared;
    KnowSysAlike(s, u, k, sys);
    var s1, u1 := KnowSys(s, sys), KnowSys(u, sys);
    KnowSysAlike(s1, u1, k, qSys);
    var s2, u2 := KnowSys(s1, qSys), KnowSys(u1, qSys);
    KnowSysOnly(s, sys);
    KnowSysOnly(u, sys);
    KnowSysOnly(s1, qSys);
    KnowSysOnly(u1, qSys);
    var sysi, id := SysId(s1, sys), Id(sm, frame);
    KnowSmAlike(s2, u2, k, sysi, id);
    KnowSmStore(s2, sysi, id);
    KnowSmStore(u2, sysi, id);
    if KnowSm(s2, sysi, id).Goes? {
      var s3, u3 := KnowSm(s2, sysi, id).s, KnowSm(u2, sysi, id).s;
      SameNames(s3, u3, k, sysi, id);
      QueueOpsAlike(s3, u3, k, op, Hardware(flag), 0, SmId(s3, sysi, id), SysId(s2, qSys), q);
    }
  }

  lemma SwQueueAlike(s: Core, u: Core, k: Cut, op: QueueCall, sys: System, frame: nat, cpuid: nat, q: Id)
    requires Alike(s, u, k) && BothUnshared(s, u)
    ensures BothAlike(SwQueues(s, op, sys, frame, cpuid, q), SwQueues(u, op, sys, frame, cpuid, q), k)
  {
    hide Alike, KnowSys, SysId, KnowQ, QueueOps, BytesIn, Unshared;
    var sid, s2, u2 := ThreadAlike(s, u, k, sys, frame);
    if Stack(s2, sid) != [] {
      var marks := s2.swExpl[sid := false];
      MarkedAlike(s2, u2, k, marks);
      var s3 := if op.Unmarks() then s2.(swExpl := marks) else s2;
      var u3 := if op.Unmarks() then u2.(swExpl := marks) else u2;
      KnowQAlike(s3, u3, k, sid.sys, q);
      SameNames(s3, u3, k, sid.sys, q);
      QueueOpsAlike(s3, u3, k, op, 0, cpuid, Top(s3, sid), sid.sys, q);
    }
  }

  lemma WaitAlike(s: Core, u: Core, k: Cut, op: QueueCall, sys: System, frame: nat, cpuid: nat, q: Id, ends: bool,
                  sm: string)
    requires Alike(s, u, k) && BothUnshared(s, u)
    ensures BothAlike(Waits(s, op, sys, frame, cpuid, q, ends, sm), Waits(u, op, sys, frame, cpuid, q, ends, sm), k)
  {
    hide Alike, KnowSys, SysId, SwQueues, SmEnds, Unshared;
    KnowSysAlike(s, u, k, sys);
    SameStack(s, u, k, StackId(SysId(KnowSys(s, sys), sys), frame));
    SwQueueAlike(s, u, k, op, sys, frame, cpuid, q);
    if SwQueues(s, op, sys, frame, cpuid, q).Goes? {
      SmEndsAlike(SwQueues(s, op, sys, frame, cpuid, q).s, SwQueues(u, op, sys, frame, cpuid, q).s, k,
                  sys, cpuid, sm, frame);
    }
  }

  lemma CheckAlike(s: Core, u: Core, k: Cut, sys: System, q: Id)
    requires Alike(s, u, k)
    ensures BothAlike(Checks(s, sys, q), Checks(u, sys, q), k)
  {
    hide Alike, KnowSys, SysId, KnowQ;
    KnowSysAlike(s, u, k, sys);
    KnowQAlike(KnowSys(s, sys), KnowSys(u, sys), k, SysId(KnowSys(s, sys), sys), q);
  }

  lemma TickAlike(s: Core, u: Core, k: Cut, now: int)
    requires Alike(s, u, k)
    ensures Alike(s.(now := now), u.(now := now), k)
  {
    hide SameSince, QueuesAlike, LinksAlike, StacksAlike;
  }

  /** From states that are alike each call goes on, to states that are alike, or stops in both. */
  lemma NextAlike(s: Core, u: Core, k: Cut, c: Call)
    requires CoreOk(s) && CoreOk(u) && Alike(s, u, k)
    ensures BothAlike(Next(s, c), Next(u, c), k)
  {
    hide Inv, Alike, SmBegins, SmEnds, Begins, Links, SyscallLinks, GetsId, HwBegins, HwQueues, SwQueues, Waits, Checks;
    hide StateEnds, Identifies, Unshared;
    CoreUnshared(s);
    CoreUnshared(u);
    match c {
      case SmBegin(sys, frame, cpuid, sm, context, link, state) =>
        SmBeginsAlike(s, u, k, sys, frame, cpuid, sm, context, link, state);
      case SmEnd(sys, frame, cpuid, sm) => SmEndsAlike(s, u, k, sys, cpuid, sm, frame);
      case Begin(sys, frame, cpuid, state, expl, flag) => BeginsAlike(s, u, k, sys, cpuid, state, frame, expl, flag);
      case Link(sys, frame, cpuid, lsm, context, ends, sm) =>
        LinkCallAlike(s, u, k, sys, cpuid, frame, lsm, context, ends, sm);
      case SyscallLink(sys, frame, cpuid, lsm, ends, sm) =>
        SyscallLinkAlike(s, u, k, sys, cpuid, frame, lsm, ends, sm);
      case GetId(sys, frame, cpuid) => GetIdAlike(s, u, k, sys, cpuid, frame);
      case HardwareBegin(flag, sys, frame, sm, state) => HwBeginAlike(s, u, k, flag, sys, frame, sm, state);
      case HardwareQueue(op, flag, sys, frame, sm, qSys, q) =>
        HwQueueAlike(s, u, k, op, flag, sys, frame, sm, qSys, q);
      case SoftwareQueue(op, sys, frame, cpuid, q) => SwQueueAlike(s, u, k, op, sys, frame, cpuid, q);
      case Wait(_, _, sys, frame, cpuid, q, ends, sm) =>
        WaitAlike(s, u, k, c.Awaited(), sys, frame, cpuid, q, ends, sm);
      case CheckQueue(sys, q) => CheckAlike(s, u, k, sys, q);
      case End(sys, frame, cpuid, state) => StateEndsAlike(s, u, k, sys, cpuid, state, frame);
      case Identify(sys, frame, cpuid, id) => IdentifyAlike(s, u, k, sys, cpuid, frame, id);
      case Tick(now) => TickAlike(s, u, k, now);
    }
  }

  lemma CoreUnshared(s: Core)
    requires CoreOk(s)
    ensures Unshared(s.heap, s.qData)
  {
    hide TablesOk, LinksOk, StacksOk, Unshared;
  }

  /** So does every run. */
  lemma {:induction false} RunAlike(s: Core, u: Core, k: Cut, calls: seq<Call>)
    requires CoreOk(s) && CoreOk(u) && Alike(s, u, k) && WellTypedAll(calls)
    ensures BothAlike(After(s, calls), After(u, calls), k)
    decreases |calls|
  {
    hide Inv, Alike, Next;
    if calls != [] {
      var before := calls[..|calls| - 1];
      RunAlike(s, u, k, before);
      if After(s, before).Goes? {
        RunSteady(s, before, |before|);
        RunSteady(u, before, |before|);
        assert before[..|before|] == before;
        NextAlike(After(s, before).s, After(u, before).s, k, calls[|calls| - 1]);
      }
    }
  }
}
