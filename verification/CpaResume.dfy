/**
 A restored annotator carries on like the saved one: if no link was held, every further run goes on
 from both or stops from both, and leads to the same names, stacks, links and queues and to the same
 new records.
 */
module CpaResume {
  import opened CpaRecords
  import opened CpaQueues
  import opened CpaTables
  import opened CpaLog
  import opened CpaSpec
  import opened CpaInvariant
  import opened CpaSteps
  import opened CpaCalls
  import opened CpaAnnotator
  import opened CpaCheckpoint
  import opened CpaAlike

  // ----- The restored state -----

  lemma {:induction false} FlatGrows(saved: seq<seq<Saved>>, m: nat, n: nat)
    requires m <= n <= |saved|
    ensures |FlatRecords(saved, m)| <= |FlatRecords(saved, n)|
    decreases n - m
  {
    if m < n { FlatGrows(saved, m, n - 1); }
  }

  /** Queue x lies in one piece, behind the queues before it. */
  lemma {:induction false} FlatQueueIs(saved: seq<seq<Saved>>, n: nat, x: nat)
    requires x < n <= |saved|
    ensures FlatQueues(saved, n)[x] == Consecutive(|FlatRecords(saved, x)|, |saved[x]|)
    ensures |FlatRecords(saved, x)| + |saved[x]| == |FlatRecords(saved, x + 1)| <= |FlatRecords(saved, n)|
  {
    if x < n - 1 { FlatQueueIs(saved, n - 1, x); }
    FlatGrows(saved, x + 1, n);
  }

  lemma {:induction false} FlatReleased(saved: seq<seq<Saved>>, n: nat)
    requires n <= |saved|
    ensures forall p :: 0 <= p < |FlatRecords(saved, n)| ==> FlatRecords(saved, n)[p].dump
  {
    if n > 0 { FlatReleased(saved, n - 1); }
  }

  lemma FlatUnshared(saved: seq<seq<Saved>>)
    ensures Unshared(FlatRecords(saved, |saved|), FlatQueues(saved, |saved|))
  {
    hide FlatRecords, FlatQueues, Consecutive, Apart, InHeap, Distinct;
    var heap, qs, n := FlatRecords(saved, |saved|), FlatQueues(saved, |saved|), |saved|;
    forall x | 0 <= x < |qs| ensures InHeap(heap, qs[x]) && Distinct(qs[x]) {
      FlatQueueIs(saved, n, x);
      InOnePiece(heap, |FlatRecords(saved, x)|, |saved[x]|);
    }
    forall x, y | 0 <= x < |qs| && 0 <= y < |qs| && x != y ensures Apart(qs[x], qs[y]) {
      PiecesApart(saved, n, if x < y then x else y, if x < y then y else x);
    }
  }

  lemma InOnePiece(heap: Heap, from: nat, n: nat)
    requires from + n <= |heap|
    ensures InHeap(heap, Consecutive(from, n)) && Distinct(Consecutive(from, n))
  {
  }

  lemma PiecesApart(saved: seq<seq<Saved>>, n: nat, x: nat, y: nat)
    requires x < y < n <= |saved|
    ensures Apart(FlatQueues(saved, n)[x], FlatQueues(saved, n)[y])
    ensures Apart(FlatQueues(saved, n)[y], FlatQueues(saved, n)[x])
  {
    hide FlatRecords, FlatQueues;
    FlatQueueIs(saved, n, x);
    FlatQueueIs(saved, n, y);
    FlatGrows(saved, x + 1, y);
  }

  /** Each queue comes back with records like those it had. */
  lemma RestoredQueue(s: Core, now: int, x: nat, k: Cut)
    requires CoreOk(s) && x < |s.qData| && AllReleased(s.heap)
    requires k == Cut(|s.heap|, |Restored(s, now).heap|)
    ensures |Restored(s, now).qData| == |s.qData|
    ensures QueueAlike(s.heap, s.qData[x], Restored(s, now).heap, Restored(s, now).qData[x], k)
  {
    hide Inv, Restored, InHeap, Twins;
    var u := Restored(s, now);
    RestoredSizes(s, now, x);
    CoreQueues(s);
    InHeapOf(s, x + 1);
    forall y | 0 <= y < |s.qData[x]|
      ensures s.qData[x][y] < |s.heap| && u.qData[x][y] < |u.heap|
      ensures Twins(s.qData[x][y], u.qData[x][y], k) && SameRecord(s.heap[s.qData[x][y]], u.heap[u.qData[x][y]])
    {
      assert s.qData[x][y] < |s.heap| by { InHeapAt(s.heap, s.qData[x], y); }
      QueuedIsRestored(s, now, x, y);
      BothOld(s.qData[x][y], u.qData[x][y], k);
    }
    InHeapIs(u.heap, u.qData[x]);
  }

  lemma BothOld(p: Pointer, q: Pointer, k: Cut)
    requires p < k.a && q < k.b
    ensures Twins(p, q, k)
  {
  }

  lemma InHeapAt(heap: Heap, q: seq<Pointer>, y: nat)
    requires InHeap(heap, q) && y < |q|
    ensures q[y] < |heap|
  {
  }

  lemma InHeapIs(heap: Heap, q: seq<Pointer>)
    requires forall y :: 0 <= y < |q| ==> q[y] < |heap|
    ensures InHeap(heap, q)
  {
  }

  lemma CoreQueues(s: Core)
    requires CoreOk(s)
    ensures QueuesOk(s.heap, s.qSize, s.qBytes, s.qData) && |s.qData| == s.t.numQs
  {
    hide TablesOk, LinksOk, StacksOk, QueuesOk;
  }

  lemma RestoredSizes(s: Core, now: int, x: nat)
    requires CoreOk(s) && x < |s.qData|
    ensures |Restored(s, now).qData| == |s.qData| && |Restored(s, now).qData[x]| == |s.qData[x]|
  {
    hide Inv, FlatRecords, FlatQueues, NonEmpty, NoLinks;
    var saved := SavedLists(s.heap, s.qData);
    FlatQueueIs(saved, |saved|, x);
    InHeapOf(s, x + 1);
  }

  ghost predicate AllReleased(heap: Heap) {
    forall p :: 0 <= p < |heap| ==> heap[p].dump
  }

  /** What a checkpoint restores is in order, whatever was held. */
  lemma RestoredOk(s: Core, now: int)
    requires CoreOk(s)
    ensures CoreOk(Restored(s, now))
  {
    var u := Restored(s, now);
    var saved := SavedLists(s.heap, s.qData);
    hide TablesOk, QueuesOk, FlatRecords, FlatQueues, SavedLists, LinksOk, StacksOk, NonEmpty, NoLinks;
    RestoredQueuesOk(s, now);
    FlatReleased(saved, |saved|);
    StacksReload(s.smStack, s.t.smMap);
    NoLinksOk(u.heap, s.t.numSys);
  }

  lemma NoLinksOk(heap: Heap, n: nat)
    requires AllReleased(heap)
    ensures LinksOk(heap, NoLinks(n))
  {
  }

  lemma RestoredQueuesOk(s: Core, now: int)
    requires CoreOk(s)
    ensures var u := Restored(s, now); QueuesOk(u.heap, u.qSize, u.qBytes, u.qData) && |u.qData| == s.t.numQs
  {
    var u := Restored(s, now);
    var saved := SavedLists(s.heap, s.qData);
    FlatUnshared(saved);
    hide Inv, FlatRecords, FlatQueues, SavedLists, NonEmpty, NoLinks, Bytes, Unshared;
    Shape(s);
    CoreQueues(s);
    assert |u.qData| == |s.qData| by { if s.qData != [] { RestoredSizes(s, now, 0); } else { NoQueues(s); } }
    forall x | 0 <= x < |u.qData|
      ensures InHeap(u.heap, u.qData[x]) && u.qSize[x] == |u.qData[x]|
      ensures 0 <= u.qBytes[x] <= INT32_MAX && u.qBytes[x] == Bytes(u.heap, u.qData[x])
    {
      RestoredBytes(s, now, x);
    }
  }

  lemma NoQueues(s: Core)
    requires s.qData == []
    ensures SavedLists(s.heap, s.qData) == []
  {
  }

  lemma RestoredBytes(s: Core, now: int, x: nat)
    requires CoreOk(s) && x < |s.qData|
    ensures var u := Restored(s, now);
      && x < |u.qData| && |u.qSize| == |u.qBytes| == |s.qData| && u.qSize[x] == |u.qData[x]|
      && InHeap(u.heap, u.qData[x]) && 0 <= u.qBytes[x] <= INT32_MAX && u.qBytes[x] == Bytes(u.heap, u.qData[x])
  {
    hide Inv, FlatRecords, FlatQueues, SavedLists, NonEmpty, NoLinks, Bytes, InHeap, QueuesOk;
    var u := Restored(s, now);
    CoreQueues(s);
    QueueAt(s.heap, s.qSize, s.qBytes, s.qData, x);
    RestoredSizes(s, now, x);
    forall y | 0 <= y < |s.qData[x]|
      ensures s.qData[x][y] < |s.heap| && u.qData[x][y] < |u.heap|
      ensures s.heap[s.qData[x][y]].data == u.heap[u.qData[x][y]].data
    {
      InHeapAt(s.heap, s.qData[x], y);
      QueuedIsRestored(s, now, x, y);
    }
    InHeapIs(u.heap, u.qData[x]);
    BytesMatch(s.heap, s.qData[x], u.heap, u.qData[x]);
  }

  lemma RestoredAlike(s: Core)
    requires CoreOk(s) && AllReleased(s.heap)
    ensures Alike(s, Restored(s, s.now), Cut(|s.heap|, |Restored(s, s.now).heap|))
  {
    var u := Restored(s, s.now);
    var k := Cut(|s.heap|, |u.heap|);
    hide Inv, FlatRecords, FlatQueues, SavedLists, QueueAlike, NonEmpty, NoLinks;
    assert s.heap[k.a..] == u.heap[k.b..] == [];
    assert |u.qData| == |s.qData| by { if s.qData != [] { RestoredSizes(s, s.now, 0); } else { NoQueues(s); } }
    forall x | 0 <= x < |s.qData| ensures QueueAlike(s.heap, s.qData[x], u.heap, u.qData[x], k) {
      RestoredQueue(s, s.now, x, k);
    }
    LinksRestoredIff(s, s.now);
    NoneAlike(s.t.numSys, k);
    NonEmptyAlike(s.smStack);
  }

  lemma NoneAlike(n: nat, k: Cut)
    ensures LinksAlike(NoLinks(n), NoLinks(n), k)
  {
  }

  lemma NonEmptyAlike(m: map<StackId, seq<nat>>)
    ensures StacksAlike(m, NonEmpty(m))
  {
  }

  // ----- Carrying on -----

  /**
   A restored annotator carries on like the saved one.  If no link is held, every further run goes on
   in both or stops in both, and then names, stacks, links, marks, last states and queue contents are
   the same, and so are the records made since.
   */
  lemma CarriesOn(s: Core, calls: seq<Call>)
    requires CoreOk(s) && AllReleased(s.heap) && WellTypedAll(calls)
    ensures var u := Restored(s, s.now);
      BothAlike(After(s, calls), After(u, calls), Cut(|s.heap|, |u.heap|))
  {
    hide Inv, Alike, Restored, Next;
    RestoredOk(s, s.now);
    RestoredAlike(s);
    RunAlike(s, Restored(s, s.now), Cut(|s.heap|, |Restored(s, s.now).heap|), calls);
  }

  /**
   With a held link it does not: begin any machine of another name in the thread of the link, and let
   it ask for the link again.  The saved annotator stops, the restored one goes on.
   */
  lemma HeldLinkDiffers(s: Core, x: nat, id: Id, p: Pointer, sys: System, sm: string, context: nat, now: int)
    requires CoreOk(s) && HeldAt(s, x, id, p) && sys in s.t.nameCache && SysId(s, sys) == x
    requires sm != id.name && NumberOf(s, x, Id(sm, context)) < MAX_IDS
    ensures var calls := Again(sys, id, sm, context);
      After(s, calls).Stops? && After(Restored(s, now), calls).Goes?
  {
    hide Inv, Next, HeldAt, NumberOf, SysId, Restored;
    var begin, link := Again(sys, id, sm, context)[0], Again(sys, id, sm, context)[1];
    TwoCalls(s, begin, link);
    TwoCalls(Restored(s, now), begin, link);
    RestoredOk(s, now);
    HeldStops(s, x, id, p, begin, link);
    RestoredGoes(s, Restored(s, now), x, id, begin, link, now);
  }

  /**
   As long as one more machine can get a number: every run goes on from the restored annotator exactly
   when it does from the saved one, if and only if no link is held.
   */
  lemma CarriesOnIff(s: Core)
    requires CoreOk(s) && s.t.numSm + 1 < MAX_IDS
    ensures AllReleased(s.heap) <==>
      forall calls :: WellTypedAll(calls) ==> (After(s, calls).Goes? <==> After(Restored(s, s.now), calls).Goes?)
  {
    hide Inv, Alike, Restored, Next, NumberOf, SysId;
    if AllReleased(s.heap) {
      forall calls | WellTypedAll(calls)
        ensures After(s, calls).Goes? <==> After(Restored(s, s.now), calls).Goes?
      {
        CarriesOn(s, calls);
      }
    } else {
      var x, id, p, sys := HeldSomewhere(s);
      var sm := id.name + "2";
      RoomForOne(s, x, Id(sm, 0));
      HeldLinkDiffers(s, x, id, p, sys, sm, 0, s.now);
      assert WellTypedAll(Again(sys, id, sm, 0));
    }
  }

  lemma HeldSomewhere(s: Core) returns (x: nat, id: Id, p: Pointer, sys: System)
    requires CoreOk(s) && !AllReleased(s.heap)
    ensures HeldAt(s, x, id, p) && sys in s.t.nameCache && SysId(s, sys) == x
  {
    hide QueuesOk, StacksOk, IdsOk, StatesOk, LinksUnique, LinksHeld;
    p :| 0 <= p < |s.heap| && !s.heap[p].dump;
    assert Linked(s.scLinks, p);
    var y, jd :| 0 <= y < |s.scLinks| && jd in s.scLinks[y] && s.scLinks[y][jd] == p;
    x, id := y + 1, jd;
    NumbersAreDense(SystemIds(s.t.nameCache), s.t.numSys, x);
    sys :| sys in SystemIds(s.t.nameCache) && SystemIds(s.t.nameCache)[sys] == x;
  }

  lemma RoomForOne(s: Core, sysi: nat, id: Id)
    requires CoreOk(s) && s.t.numSm + 1 < MAX_IDS
    ensures NumberOf(s, sysi, id) < MAX_IDS
  {
    hide Inv;
    Shape(s);
    if KnownSys(s, sysi) { KnownIsPositive(s, sysi, id); }
  }

  function Again(sys: System, id: Id, sm: string, context: nat): seq<Call> {
    [SmBegin(sys, id.context, 0, sm, context, false, ""), SyscallLink(sys, id.context, 0, id.name, false, "")]
  }

  lemma TwoCalls(s: Core, c: Call, d: Call)
    ensures After(s, [c, d]) == if Next(s, c).Goes? then Next(Next(s, c).s, d) else Stops
  {
    hide Next;
    assert [c, d][..1] == [c] && [c][..0] == [];
    assert After(s, [c]) == Next(s, c) by { assert After(s, [c][..0]) == Goes(s); }
  }

  lemma HeldStops(s: Core, x: nat, id: Id, p: Pointer, begin: Call, link: Call)
    requires CoreOk(s) && HeldAt(s, x, id, p) && begin.SmBegin? && begin.sys in s.t.nameCache
    requires SysId(s, begin.sys) == x && begin.frame == id.context && begin.sm != id.name
    requires link == SyscallLink(begin.sys, id.context, 0, id.name, false, "")
    ensures Next(s, begin).Goes? ==> Next(Next(s, begin).s, link).Stops?
  {
    hide Inv, SmBegins, SyscallLinks, KnowSys, SysId, NumberOf, Steady;
    if Next(s, begin).Goes? {
      var s1 := Next(s, begin).s;
      SameThread(s, s, begin.sys);
      NextKeepsHeld(s, begin, x, id, p);
      NextSteady(s, begin);
      SteadyOk(s, s1, true);
      BeginPushes(s, begin.sys, begin.frame, begin.cpuid, begin.sm, begin.context, begin.link, begin.state);
      HoldGoesIff(s1, begin.sys, 0, id.context, id.name, false, "");
      KnowSysKeeps(s1, begin.sys);
    }
  }

  lemma RestoredGoes(s: Core, u: Core, x: nat, id: Id, begin: Call, link: Call, now: int)
    requires CoreOk(u) && u == Restored(s, now)
    requires begin.SmBegin? && begin.sys in s.t.nameCache && SysId(s, begin.sys) == x
    requires begin.frame == id.context && begin.sm != id.name && !begin.link
    requires NumberOf(s, x, Id(begin.sm, begin.context)) < MAX_IDS
    requires link == SyscallLink(begin.sys, id.context, 0, id.name, false, "")
    ensures Next(u, begin).Goes? && Next(Next(u, begin).s, link).Goes?
  {
    assert u.t == s.t && u.scLinks == NoLinks(s.t.numSys);
    hide Restored, NoLinks, Inv, NumberOf;
    SameNumber(s, u, x, Id(begin.sm, begin.context));
    NoLinkHeld(s.t.numSys);
    UnheldGoes(u, id, begin);
    UnheldHolds(u, id, begin, link);
  }

  /** With nothing held, a machine with a number can begin, and can then ask for a link. */
  lemma UnheldGoes(u: Core, id: Id, begin: Call)
    requires CoreOk(u) && begin.SmBegin? && begin.sys in u.t.nameCache && !begin.link
    requires NumberOf(u, SysId(u, begin.sys), Id(begin.sm, begin.context)) < MAX_IDS
    requires NothingHeld(u.scLinks)
    ensures Next(u, begin).Goes?
  {
    SameThread(u, u, begin.sys);
    hide Inv, SmBegins, KnowSys, SysId, NumberOf;
    BeginGoesIff(u, begin.sys, begin.frame, begin.cpuid, begin.sm, begin.context, false, begin.state);
  }

  lemma UnheldHolds(u: Core, id: Id, begin: Call, link: Call)
    requires CoreOk(u) && begin.SmBegin? && begin.sys in u.t.nameCache && begin.frame == id.context
    requires Next(u, begin).Goes? && NothingHeld(u.scLinks)
    requires link == SyscallLink(begin.sys, id.context, 0, id.name, false, "")
    ensures Next(Next(u, begin).s, link).Goes?
  {
    hide Inv, SmBegins, SyscallLinks, KnowSys, SysId, NumberOf, Steady, NothingHeld, Release, MayHold, Next, Extends;
    var c, u1 := begin, Next(u, begin).s;
    NextSteady(u, c);
    SteadyOk(u, u1, true);
    StillKnown(u, c);
    assert NothingHeld(u1.scLinks) by { StillNothing(u, c); }
    HoldGoesIff(u1, c.sys, 0, id.context, id.name, false, "");
    MayHoldThen(u1, c.sys, id.context, id.name);
    NextIsHold(u1, link);
  }

  ghost predicate NothingHeld(scLinks: seq<map<Id, Pointer>>) {
    forall x, id :: 0 <= x < |scLinks| ==> id !in scLinks[x]
  }

  lemma NextIsHold(s: Core, c: Call)
    requires c.SyscallLink?
    ensures Next(s, c) == SyscallLinks(s, c.sys, c.cpuid, c.frame, c.lsm, c.ends, c.sm)
  {
    hide SyscallLinks;
  }

  lemma MayHoldThen(s: Core, sys: System, frame: nat, lsm: string)
    requires NothingHeld(s.scLinks) && KnowSys(s, sys) == s
    ensures MayHold(s, sys, frame, lsm)
  {
    hide KnowSys, SysId;
  }

  lemma StillNothing(u: Core, c: Call)
    requires CoreOk(u) && c.SmBegin? && c.sys in u.t.nameCache && Next(u, c).Goes? && NothingHeld(u.scLinks)
    ensures NothingHeld(Next(u, c).s.scLinks)
  {
    hide Inv, SmBegins, KnowSys, SysId, NumberOf, NothingHeld, Release;
    SameThread(u, u, c.sys);
    BeginResolves(u, c.sys, c.frame, c.cpuid, c.sm, c.context, c.link, c.state);
    ReleasedNothing(u.scLinks, Thread(u, c.sys, c.frame).sys - 1, Id(c.sm, c.frame));
  }

  lemma ReleasedNothing(scLinks: seq<map<Id, Pointer>>, x: nat, id: Id)
    requires NothingHeld(scLinks) && x < |scLinks|
    ensures NothingHeld(Release(scLinks, x, id))
  {
  }

  lemma NoLinkHeld(n: nat)
    ensures NothingHeld(NoLinks(n))
  {
  }

  lemma StillKnown(u: Core, begin: Call)
    requires CoreOk(u) && begin.SmBegin? && begin.sys in u.t.nameCache && Next(u, begin).Goes?
    ensures KnowSys(Next(u, begin).s, begin.sys) == Next(u, begin).s
  {
    hide Inv, Steady, KnowSm, SmId, JoinStack, Arrive, SysId, NumberOf, OtherStacks, Release;
    var c := begin;
    var s1, s2, s3 := BeginSteps(u, c.sys, c.frame, c.cpuid, c.sm, c.context, c.link, c.state);
    var smi := SmId(s2, SysId(s1, c.sys), Id(c.sm, c.context));
    ArriveGoes(s3, SysId(s1, c.sys), Id(c.sm, c.frame), smi, c.cpuid, c.state);
  }

  lemma {:induction false} AfterConcat(s: Core, calls: seq<Call>, more: seq<Call>)
    requires After(s, calls).Goes?
    ensures After(s, calls + more) == After(After(s, calls).s, more)
    decreases |more|
  {
    hide Next;
    if more == [] {
      assert calls + more == calls;
    } else {
      var n := |more| - 1;
      AfterConcat(s, calls, more[..n]);
      assert (calls + more)[..|calls + more| - 1] == calls + more[..n];
    }
  }

  /** A simulation that is checkpointed, restored and continued, against one that runs through. */
  method RunThroughCheckpoint(calls: seq<Call>, more: seq<Call>) returns (st: Status, d: CPA?)
    requires WellTypedAll(calls) && WellTypedAll(more)
    requires After(EMPTY_CORE, calls).Goes? && AllReleased(After(EMPTY_CORE, calls).s.heap)
    ensures st.Running? <==> After(EMPTY_CORE, calls + more).Goes?
    ensures st.Running? ==>
      var s := After(EMPTY_CORE, calls).s;
      && d != null && d.Valid()
      && Alike(After(EMPTY_CORE, calls + more).s, d.Now(), Cut(|s.heap|, |Restored(s, s.now).heap|))
  {
    hide LogOk, Inv, Next, Restored, Alike, SameQueues, Extends, Images, AllImages;
    AfterConcat(EMPTY_CORE, calls, more);
    ghost var s := After(EMPTY_CORE, calls).s;
    var c := new CPA();
    st := c.Execute(calls);
    var now := c.curTick;
    st, d := SaveAndLoad(c, now);
    CarriesOn(s, more);
    st := d.Execute(more);
  }
}
