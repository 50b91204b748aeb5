/**
 Saving the annotator to a checkpoint and loading it into a new one.

 A checkpoint key such as "stCache3_1.str" is entry 1 of list 3 of a family: the model
 keeps each family as a list.  Hash tables are saved in whatever order iteration yields,
 and loading reads as many entries as the saved counters say; a missing entry is fatal.
 */
module CpaCheckpoint {
  import opened CpaRecords
  import opened CpaQueues
  import opened CpaTables
  import opened CpaLog
  import opened CpaSpec
  import opened CpaInvariant
  import opened CpaSteps
  import opened CpaAnnotator

  /** What is kept of a queued record: the remaining count, not the original one. */
  datatype Saved = Saved(time: int, data: int, sm: nat, stq: nat, op: nat, flag: nat, cpu: nat)

  function Save(r: AnnotateData): Saved {
    Saved(r.time, r.data, r.sm, r.stq, r.op, r.flag, r.cpu)
  }

  function Restore(s: Saved): AnnotateData {
    AnnotateData(s.time, s.data, s.data, s.sm, s.stq, s.op, s.flag, s.cpu, true)
  }

  datatype Checkpoint = Checkpoint(
    numSm: nat, numSmt: nat, numSt: seq<nat>, numQ: seq<nat>, numSys: nat, numQs: nat, conId: nat,
    qSize: seq<int>, qBytes: seq<int>,
    smtCache: seq<(string, nat)>, stCache: seq<seq<(string, nat)>>, qCache: seq<seq<(Id, nat)>>,
    smCacheSize: seq<nat>, smCache: seq<seq<(Id, nat)>>, nameCache: seq<(System, (string, nat))>,
    smStackIdCount: nat, smStack: seq<(StackId, seq<nat>)>,
    lnMapSize: nat, lnMap: seq<(nat, nat)>, swExplCount: nat, swExpl: seq<(StackId, bool)>,
    lastStateSize: nat, lastState: seq<(nat, nat)>,
    smMap: seq<(nat, Id)>, qMap: seq<(nat, Id)>, qData: seq<seq<Saved>>)

  // ----- Tables as lists of entries -----

  /** The entries of m, each once, in some order. */
  ghost predicate Lists<K, V>(e: seq<(K, V)>, m: map<K, V>) {
    && |e| == |m|
    && (forall i :: 0 <= i < |e| ==> e[i].0 in m && m[e[i].0] == e[i].1)
    && (forall i, j :: 0 <= i < j < |e| ==> e[i].0 != e[j].0)
  }

  /** The table that reading the entries one after the other builds. */
  function Load<K, V>(e: seq<(K, V)>): map<K, V> {
    if e == [] then map[] else Load(e[..|e| - 1])[e[|e| - 1].0 := e[|e| - 1].1]
  }

  lemma {:induction false} LoadPrefix<K, V>(e: seq<(K, V)>, m: map<K, V>, n: nat)
    requires Lists(e, m) && n <= |e|
    ensures |Load(e[..n])| == n
    ensures forall k :: k in Load(e[..n]) ==> k in m && Load(e[..n])[k] == m[k] && exists i :: 0 <= i < n && e[i].0 == k
  {
    if n > 0 {
      LoadPrefix(e, m, n - 1);
      assert e[..n][..n - 1] == e[..n - 1] && e[..n][n - 1] == e[n - 1];
    }
  }

  lemma SameSizeSameMap<K, V>(a: map<K, V>, b: map<K, V>)
    requires |a| == |b| && forall k :: k in a ==> k in b && a[k] == b[k]
    ensures a == b
  {
    assert a.Keys <= b.Keys;
    assert b.Keys == a.Keys + (b.Keys - a.Keys);
    assert |b.Keys| == |a.Keys| + |b.Keys - a.Keys|;
  }

  /** Reading back all entries of a table gives the table, in whatever order they were written. */
  lemma LoadLists<K, V>(e: seq<(K, V)>, m: map<K, V>)
    requires Lists(e, m)
    ensures Load(e) == m
  {
    LoadPrefix(e, m, |e|);
    assert e[..|e|] == e;
    SameSizeSameMap(Load(e), m);
  }

  method Entries<K(==), V>(m: map<K, V>) returns (e: seq<(K, V)>)
    ensures Lists(e, m)
  {
    e := [];
    var rest := m.Keys;
    while rest != {}
      invariant rest <= m.Keys && |e| + |rest| == |m.Keys|
      invariant forall i :: 0 <= i < |e| ==> e[i].0 in m && e[i].0 !in rest && m[e[i].0] == e[i].1
      invariant forall i, j :: 0 <= i < j < |e| ==> e[i].0 != e[j].0
      decreases |rest|
    {
      var k :| k in rest;
      e := e + [(k, m[k])];
      rest := rest - {k};
    }
  }

  ghost predicate ListsAll<K, V>(e: seq<seq<(K, V)>>, m: seq<map<K, V>>) {
    |e| == |m| && forall x :: 0 <= x < |e| ==> Lists(e[x], m[x])
  }

  method EntriesAll<K(==), V>(m: seq<map<K, V>>) returns (e: seq<seq<(K, V)>>)
    ensures ListsAll(e, m)
  {
    e := [];
    for x := 0 to |m|
      invariant |e| == x && forall y :: 0 <= y < x ==> Lists(e[y], m[y])
    {
      var entries := Entries(m[x]);
      e := e + [entries];
    }
  }

  method LoadEntries<K(==), V>(e: seq<(K, V)>, n: nat) returns (st: Status, m: map<K, V>)
    ensures st.Running? <==> n <= |e|
    ensures st.Running? ==> m == Load(e[..n])
  {
    m := map[];
    for x := 0 to n
      invariant x <= |e| && m == Load(e[..x])
    {
      if x >= |e| { return Stopped, m; }
      assert e[..x + 1][..x] == e[..x];
      m := m[e[x].0 := e[x].1];
    }
    st := Running;
  }

  method LoadAll<K(==), V>(e: seq<seq<(K, V)>>, sizes: seq<nat>, n: nat) returns (st: Status, m: seq<map<K, V>>)
    ensures LoadedAll(e, sizes, n, st, m)
  {
    m := [];
    for x := 0 to n
      invariant |m| == x <= |e| && x <= |sizes|
      invariant forall y :: 0 <= y < x ==> sizes[y] <= |e[y]| && m[y] == Load(e[y][..sizes[y]])
    {
      if x >= |e| || x >= |sizes| { return Stopped, m; }
      var table;
      st, table := LoadEntries(e[x], sizes[x]);
      if st.Stopped? { return; }
      m := m + [table];
    }
    st := Running;
  }

  lemma LoadAllLists<K, V>(e: seq<seq<(K, V)>>, sizes: seq<nat>, m: seq<map<K, V>>, loaded: seq<map<K, V>>)
    requires ListsAll(e, m) && |sizes| == |m| == |loaded|
    requires forall x :: 0 <= x < |m| ==> sizes[x] == |m[x]|
    requires forall x :: 0 <= x < |m| ==> sizes[x] <= |e[x]| && loaded[x] == Load(e[x][..sizes[x]])
    ensures loaded == m
  {
    forall x | 0 <= x < |m|
      ensures loaded[x] == m[x]
    {
      assert e[x][..sizes[x]] == e[x];
      LoadLists(e[x], m[x]);
    }
  }

  // ----- Stacks -----

  /** Loading pushes the saved machines one by one: an empty stack leaves no trace. */
  function LoadStack(m: map<StackId, seq<nat>>, sid: StackId, stack: seq<nat>): map<StackId, seq<nat>> {
    if stack == [] then m else m[sid := (if sid in m then m[sid] else []) + stack]
  }

  function StackLoad(e: seq<(StackId, seq<nat>)>): map<StackId, seq<nat>> {
    if e == [] then map[] else LoadStack(StackLoad(e[..|e| - 1]), e[|e| - 1].0, e[|e| - 1].1)
  }

  function NonEmpty(m: map<StackId, seq<nat>>): map<StackId, seq<nat>> {
    map sid | sid in m && m[sid] != [] :: m[sid]
  }

  method LoadStacks(e: seq<(StackId, seq<nat>)>, n: nat) returns (st: Status, m: map<StackId, seq<nat>>)
    ensures st.Running? <==> n <= |e|
    ensures st.Running? ==> m == StackLoad(e[..n])
  {
    hide LoadStack, StackLoad;
    m := map[];
    StackLoadNext(e, 0);
    for x := 0 to n
      invariant x <= |e| && m == StackLoad(e[..x])
    {
      if x >= |e| { return Stopped, m; }
      ghost var before := m;
      var (sid, stack) := e[x];
      LoadStackNext(before, sid, stack, 0);
      for y := 0 to |stack|
        invariant m == LoadStack(before, sid, stack[..y])
      {
        LoadStackNext(before, sid, stack, y);
        m := m[sid := (if sid in m then m[sid] else []) + [stack[y]]];
      }
      assert stack[..|stack|] == stack;
      StackLoadNext(e, x);
    }
    st := Running;
  }

  lemma LoadStackNext(m: map<StackId, seq<nat>>, sid: StackId, stack: seq<nat>, y: nat)
    requires y <= |stack|
    ensures LoadStack(m, sid, stack[..0]) == m
    ensures var n := LoadStack(m, sid, stack[..y]);
            y < |stack| ==>
              LoadStack(m, sid, stack[..y + 1]) == n[sid := (if sid in n then n[sid] else []) + [stack[y]]]
  {
    var base := if sid in m then m[sid] else [];
    if y < |stack| { assert base + stack[..y + 1] == (base + stack[..y]) + [stack[y]] && base + [] == base; }
  }

  lemma StackLoadNext(e: seq<(StackId, seq<nat>)>, x: nat)
    ensures StackLoad(e[..0]) == map[]
    ensures x < |e| ==> StackLoad(e[..x + 1]) == LoadStack(StackLoad(e[..x]), e[x].0, e[x].1)
  {
    if x < |e| { assert e[..x + 1][..x] == e[..x]; }
  }

  lemma {:induction false} StackLoadPrefix(e: seq<(StackId, seq<nat>)>, m: map<StackId, seq<nat>>, n: nat)
    requires Lists(e, m) && n <= |e|
    ensures forall sid :: sid in StackLoad(e[..n]) <==> exists i :: 0 <= i < n && e[i].0 == sid && e[i].1 != []
    ensures forall sid :: sid in StackLoad(e[..n]) ==> sid in m && StackLoad(e[..n])[sid] == m[sid]
  {
    if n > 0 {
      StackLoadPrefix(e, m, n - 1);
      assert e[..n][..n - 1] == e[..n - 1] && e[..n][n - 1] == e[n - 1];
      assert e[n - 1].0 !in StackLoad(e[..n - 1]);
    }
  }

  /** Stacks come back, except that empty ones do not. */
  lemma StackLoadLists(e: seq<(StackId, seq<nat>)>, m: map<StackId, seq<nat>>)
    requires Lists(e, m)
    ensures StackLoad(e) == NonEmpty(m)
  {
    StackLoadPrefix(e, m, |e|);
    assert e[..|e|] == e;
    LoadLists(e, m);
    LoadPrefix(e, m, |e|);
    forall sid | sid in NonEmpty(m)
      ensures sid in StackLoad(e)
    {
      assert sid in Load(e[..|e|]);
      var i :| 0 <= i < |e| && e[i].0 == sid;
      assert e[i].1 == m[sid];
    }
  }

  // ----- Queues -----

  /** The queues hold copies of the saved records and nothing else; all records are pending. */
  ghost predicate Reloaded(saved: seq<seq<Saved>>, heap: Heap, data: seq<Pointer>, qData: seq<seq<Pointer>>) {
    && Unshared(heap, qData)
    && |qData| <= |saved|
    && (forall x :: 0 <= x < |qData| ==> SameRecords(saved[x], heap, qData[x]))
    && |data| == |heap| && (forall i :: 0 <= i < |data| ==> data[i] == i)
    && (forall p :: 0 <= p < |heap| ==> heap[p].dump)
  }

  ghost predicate SameRecords(saved: seq<Saved>, heap: Heap, q: seq<Pointer>) {
    InHeap(heap, q) && |q| <= |saved| && forall y :: 0 <= y < |q| ==> heap[q[y]] == Restore(saved[y])
  }

  lemma ReloadOne(saved: seq<seq<Saved>>, heap: Heap, data: seq<Pointer>, qData: seq<seq<Pointer>>)
    requires Reloaded(saved, heap, data, qData) && qData != []
    requires var x := |qData| - 1; |qData[x]| < |saved[x]|
    ensures var x := |qData| - 1;
            Reloaded(saved, heap + [Restore(saved[x][|qData[x]|])], data + [|heap|],
                     qData[x := qData[x] + [|heap|]])
  {
    var x := |qData| - 1;
    var after := heap + [Restore(saved[x][|qData[x]|])];
    var q := qData[x] + [|heap|];
    assert InHeap(after, q) && Distinct(q) && Succeeds(heap, qData[x], q);
    UnsharedUpdate(heap, after, qData, x, q);
    forall y | 0 <= y < |qData| && y != x
      ensures SameRecords(saved[y], after, qData[y])
    {
      assert SameRecords(saved[y], heap, qData[y]);
    }
  }

  lemma ReloadNext(saved: seq<seq<Saved>>, heap: Heap, data: seq<Pointer>, qData: seq<seq<Pointer>>)
    requires Reloaded(saved, heap, data, qData) && |qData| < |saved|
    ensures Reloaded(saved, heap, data, qData + [[]])
  {
    var after := qData + [[]];
    forall x, y | 0 <= x < |after| && 0 <= y < |after| && x != y
      ensures Apart(after[x], after[y])
    {
      if x < |qData| && y < |qData| { assert Apart(qData[x], qData[y]); }
    }
  }

  /** The records of a saved list, as they come back. */
  function Records(list: seq<Saved>): (r: seq<AnnotateData>)
    ensures |r| == |list|
  {
    seq(|list|, y requires 0 <= y < |list| => Restore(list[y]))
  }

  /** The records of the first n lists, one list after the other. */
  function FlatRecords(saved: seq<seq<Saved>>, n: nat): seq<AnnotateData>
    requires n <= |saved|
  {
    if n == 0 then [] else FlatRecords(saved, n - 1) + Records(saved[n - 1])
  }

  function Consecutive(from: nat, n: nat): (ps: seq<Pointer>)
    ensures |ps| == n
  {
    seq(n, i requires 0 <= i < n => from + i)
  }

  /** Where they are in the log. */
  function FlatQueues(saved: seq<seq<Saved>>, n: nat): (qs: seq<seq<Pointer>>)
    requires n <= |saved|
    ensures |qs| == n
  {
    if n == 0 then []
    else FlatQueues(saved, n - 1) + [Consecutive(|FlatRecords(saved, n - 1)|, |saved[n - 1]|)]
  }

  /** The log and the queues are exactly the first n saved lists and the first y records of the next. */
  ghost predicate LoadedTo(saved: seq<seq<Saved>>, n: nat, y: nat, heap: Heap, qData: seq<seq<Pointer>>)
    requires n < |saved| && y <= |saved[n]|
  {
    && heap == FlatRecords(saved, n) + Records(saved[n][..y])
    && qData == FlatQueues(saved, n) + [Consecutive(|FlatRecords(saved, n)|, y)]
  }

  lemma LoadedStart(saved: seq<seq<Saved>>, n: nat)
    requires n < |saved|
    ensures LoadedTo(saved, n, 0, FlatRecords(saved, n), FlatQueues(saved, n) + [[]])
  {
    assert saved[n][..0] == [] && Records([]) == [] && Consecutive(|FlatRecords(saved, n)|, 0) == [];
    assert FlatRecords(saved, n) + [] == FlatRecords(saved, n);
  }

  lemma LoadedStep(saved: seq<seq<Saved>>, n: nat, y: nat, heap: Heap, qData: seq<seq<Pointer>>)
    requires n < |saved| && y < |saved[n]| && LoadedTo(saved, n, y, heap, qData)
    ensures |qData| == n + 1
    ensures LoadedTo(saved, n, y + 1, heap + [Restore(saved[n][y])], qData[n := qData[n] + [|heap|]])
  {
    var base := FlatRecords(saved, n);
    assert saved[n][..y + 1] == saved[n][..y] + [saved[n][y]];
    assert Records(saved[n][..y + 1]) == Records(saved[n][..y]) + [Restore(saved[n][y])];
    assert base + Records(saved[n][..y]) + [Restore(saved[n][y])] == base + Records(saved[n][..y + 1]);
    assert Consecutive(|base|, y) + [|base| + y] == Consecutive(|base|, y + 1);
    var after := qData[n := qData[n] + [|heap|]];
    assert after == FlatQueues(saved, n) + [Consecutive(|base|, y + 1)];
  }

  lemma LoadedEnd(saved: seq<seq<Saved>>, n: nat, heap: Heap, qData: seq<seq<Pointer>>)
    requires n < |saved| && LoadedTo(saved, n, |saved[n]|, heap, qData)
    ensures heap == FlatRecords(saved, n + 1) && qData == FlatQueues(saved, n + 1)
  {
    assert saved[n][..|saved[n]|] == saved[n];
  }

  method LoadQueues(saved: seq<seq<Saved>>, sizes: seq<int>)
    returns (st: Status, heap: Heap, data: seq<Pointer>, qData: seq<seq<Pointer>>)
    requires |sizes| <= |saved|
    ensures (forall x :: 0 <= x < |sizes| ==> sizes[x] <= |saved[x]|) <==> st.Running?
    ensures st.Running? ==> Reloaded(saved, heap, data, qData) && |qData| == |sizes|
    ensures st.Running? ==> forall x :: 0 <= x < |sizes| ==> |qData[x]| == if sizes[x] > 0 then sizes[x] else 0
    ensures Sized(saved, sizes) ==> heap == FlatRecords(saved, |saved|) && qData == FlatQueues(saved, |saved|)
  {
    hide Reloaded, LoadedTo, FlatRecords, FlatQueues;
    heap, data, qData := [], [], [];
    NothingReloaded(saved);
    assert FlatRecords(saved, 0) == [] && FlatQueues(saved, 0) == [] by { NothingFlat(saved); }
    for x := 0 to |sizes|
      invariant |qData| == x && Reloaded(saved, heap, data, qData)
      invariant Sized(saved, sizes) ==> heap == FlatRecords(saved, x) && qData == FlatQueues(saved, x)
      invariant forall y :: 0 <= y < x ==>
        |qData[y]| == (if sizes[y] > 0 then sizes[y] else 0) && sizes[y] <= |saved[y]|
    {
      ReloadNext(saved, heap, data, qData);
      LoadedStart(saved, x);
      ghost var done := qData;
      qData := qData + [[]];
      var y := 0;
      while y < sizes[x]
        invariant 0 <= y && |qData| == x + 1 && qData[..x] == done && |qData[x]| == y && y <= |saved[x]|
        invariant y <= sizes[x] || y == 0
        invariant Reloaded(saved, heap, data, qData)
        invariant Sized(saved, sizes) ==> LoadedTo(saved, x, y, heap, qData)
      {
        if y >= |saved[x]| { return Stopped, heap, data, qData; }
        ReloadOne(saved, heap, data, qData);
        if Sized(saved, sizes) { LoadedStep(saved, x, y, heap, qData); }
        data := data + [|heap|];
        qData := qData[x := qData[x] + [|heap|]];
        heap := heap + [Restore(saved[x][y])];
        y := y + 1;
      }
      assert forall z :: 0 <= z < x ==> qData[z] == qData[..x][z];
      if Sized(saved, sizes) { LoadedEnd(saved, x, heap, qData); }
    }
    st := Running;
  }

  ghost predicate Sized(saved: seq<seq<Saved>>, sizes: seq<int>) {
    |sizes| == |saved| && forall x :: 0 <= x < |saved| ==> sizes[x] == |saved[x]|
  }

  lemma NothingFlat(saved: seq<seq<Saved>>)
    ensures FlatRecords(saved, 0) == [] && FlatQueues(saved, 0) == []
  {
  }

  lemma NothingReloaded(saved: seq<seq<Saved>>)
    ensures Reloaded(saved, [], [], [])
  {
  }

  lemma {:induction false} BytesMatch(heap: Heap, q: seq<Pointer>, heap': Heap, q': seq<Pointer>)
    requires InHeap(heap, q) && InHeap(heap', q') && |q| == |q'|
    requires forall i :: 0 <= i < |q| ==> heap[q[i]].data == heap'[q'[i]].data
    ensures Bytes(heap, q) == Bytes(heap', q')
    decreases |q|
  {
    if q != [] {
      assert heap[q[0]].data == heap'[q'[0]].data;
      forall i | 0 <= i < |q| - 1
        ensures heap[q[1..][i]].data == heap'[q'[1..][i]].data
      {
        assert heap[q[i + 1]].data == heap'[q'[i + 1]].data;
      }
      BytesMatch(heap, q[1..], heap', q'[1..]);
    }
  }

  // ----- The whole annotator -----

  ghost predicate SavedQueues(saved: seq<seq<Saved>>, heap: Heap, qData: seq<seq<Pointer>>) {
    |saved| == |qData| && forall x :: 0 <= x < |qData| ==> SavedQueue(saved[x], heap, qData[x])
  }

  ghost predicate SavedQueue(saved: seq<Saved>, heap: Heap, q: seq<Pointer>) {
    InHeap(heap, q) && |saved| == |q| && forall y :: 0 <= y < |q| ==> saved[y] == Save(heap[q[y]])
  }

  ghost predicate HoldsTables(cp: Checkpoint, t: Tables) {
    && cp.numSm == t.numSm && cp.numSmt == t.numSmt && cp.numSt == t.numSt && cp.numQ == t.numQ
    && cp.numSys == t.numSys && cp.numQs == t.numQs
    && Lists(cp.smtCache, t.smtCache) && ListsAll(cp.stCache, t.stCache)
    && ListsAll(cp.qCache, t.qCache) && ListsAll(cp.smCache, t.smCache)
    && |cp.smCacheSize| == |t.smCache| && (forall x :: 0 <= x < |t.smCache| ==> cp.smCacheSize[x] == |t.smCache[x]|)
    && Lists(cp.nameCache, t.nameCache)
    && cp.smMap == t.smMap && cp.qMap == t.qMap
  }

  /** The part of an orderly annotator that a checkpoint is about. */
  ghost predicate Saveable(s: Core) {
    && TablesOk(s.t) && StacksOk(s.smStack, s.t.smMap)
    && QueuesOk(s.heap, s.qSize, s.qBytes, s.qData) && |s.qData| == s.t.numQs
  }

  /** What `serialize` leaves in the checkpoint, whatever order the hash tables iterate in. */
  ghost predicate Holds(cp: Checkpoint, s: Core) {
    && HoldsTables(cp, s.t)
    && cp.conId == s.conId && cp.qSize == s.qSize && cp.qBytes == s.qBytes
    && cp.smStackIdCount == |s.smStack| && Lists(cp.smStack, s.smStack)
    && cp.lnMapSize == |s.lnMap| && Lists(cp.lnMap, s.lnMap)
    && cp.swExplCount == |s.swExpl| && Lists(cp.swExpl, s.swExpl)
    && cp.lastStateSize == |s.lastState| && Lists(cp.lastState, s.lastState)
    && SavedQueues(cp.qData, s.heap, s.qData)
  }

  method SaveQueues(heap: Heap, qData: seq<seq<Pointer>>) returns (saved: seq<seq<Saved>>)
    requires forall x :: 0 <= x < |qData| ==> InHeap(heap, qData[x])
    ensures SavedQueues(saved, heap, qData)
  {
    saved := [];
    for x := 0 to |qData|
      invariant |saved| == x && forall y :: 0 <= y < x ==> SavedQueue(saved[y], heap, qData[y])
    {
      var list := [];
      for y := 0 to |qData[x]|
        invariant |list| == y && forall z :: 0 <= z < y ==> list[z] == Save(heap[qData[x][z]])
      {
        list := list + [Save(heap[qData[x][y]])];
      }
      saved := saved + [list];
    }
  }

  method Serialize(c: CPA) returns (cp: Checkpoint)
    requires c.Valid()
    ensures Holds(cp, c.Now())
  {
    hide LogOk, LinksOk, StacksOk, TablesOk, Lists, ListsAll, SavedQueues;
    assert Saveable(c.Now());
    var smtCache := Entries(c.t.smtCache);
    var stCache := EntriesAll(c.t.stCache);
    var qCache := EntriesAll(c.t.qCache);
    var smCache := EntriesAll(c.t.smCache);
    var nameCache := Entries(c.t.nameCache);
    var smStack := Entries(c.smStack);
    var lnMap := Entries(c.lnMap);
    var swExpl := Entries(c.swExpl);
    var lastState := Entries(c.lastState);
    var qData := SaveQueues(c.heap, c.qData);
    var caches := c.t.smCache;
    var sizes := seq(|caches|, i requires 0 <= i < |caches| => |caches[i]|);
    cp := Checkpoint(c.t.numSm, c.t.numSmt, c.t.numSt, c.t.numQ, c.t.numSys, c.t.numQs, c.conId, c.qSize, c.qBytes,
                     smtCache, stCache, qCache, sizes, smCache, nameCache,
                     |c.smStack|, smStack, |c.lnMap|, lnMap, |c.swExpl|, swExpl, |c.lastState|, lastState,
                     c.t.smMap, c.t.qMap, qData);
  }

  /** No list of a family is shorter than the counter that says how much of it to read. */
  ghost predicate AllRead<K, V>(e: seq<seq<(K, V)>>, sizes: seq<nat>, n: nat) {
    n <= |e| && n <= |sizes| && forall x :: 0 <= x < n ==> sizes[x] <= |e[x]|
  }

  ghost predicate TablesLoadable(cp: Checkpoint) {
    && cp.numSmt <= |cp.smtCache| && AllRead(cp.stCache, cp.numSt, cp.numSmt)
    && AllRead(cp.qCache, cp.numQ, cp.numSys) && AllRead(cp.smCache, cp.smCacheSize, cp.numSys)
    && cp.numSys <= |cp.nameCache| && cp.numSm <= |cp.smMap| && cp.numQs <= |cp.qMap|
  }

  ghost predicate MapsLoadable(cp: Checkpoint) {
    && cp.smStackIdCount <= |cp.smStack| && cp.lnMapSize <= |cp.lnMap|
    && cp.swExplCount <= |cp.swExpl| && cp.lastStateSize <= |cp.lastState|
  }

  ghost predicate QueuesLoadable(cp: Checkpoint) {
    |cp.qSize| <= |cp.qData| && forall x :: 0 <= x < |cp.qSize| ==> cp.qSize[x] <= |cp.qData[x]|
  }

  /** Every counter in the checkpoint finds its entries. */
  ghost predicate Loadable(cp: Checkpoint) {
    TablesLoadable(cp) && MapsLoadable(cp) && QueuesLoadable(cp)
  }

  method LoadTables(cp: Checkpoint, ghost u: Tables) returns (st: Status, t: Tables)
    ensures st.Running? <==> TablesLoadable(cp)
    ensures TablesOk(u) && HoldsTables(cp, u) ==> st.Running? && t == u
  {
    hide TablesOk, Lists, ListsAll;
    ghost var good := TablesOk(u) && HoldsTables(cp, u);
    t := NO_TABLES.(numSm := cp.numSm, numSmt := cp.numSmt, numSt := cp.numSt, numQ := cp.numQ,
                    numSys := cp.numSys, numQs := cp.numQs);
    var smtCache, stCache, qCache, smCache, nameCache;
    st, smtCache := LoadEntries(cp.smtCache, cp.numSmt);
    if good { StatesLoad(cp, u); }
    if st.Stopped? { return; }
    st, stCache := LoadAll(cp.stCache, cp.numSt, cp.numSmt);
    if good { StLoad(cp, u, st, stCache); }
    if st.Stopped? { return; }
    st, qCache := LoadAll(cp.qCache, cp.numQ, cp.numSys);
    if good { QLoad(cp, u, st, qCache); }
    if st.Stopped? { return; }
    st, smCache := LoadAll(cp.smCache, cp.smCacheSize, cp.numSys);
    if good { SmLoad(cp, u, st, smCache); }
    if st.Stopped? { return; }
    st, nameCache := LoadEntries(cp.nameCache, cp.numSys);
    if good { NamesLoad(cp, u); TablesShape(u); }
    if st.Stopped? { return; }
    if |cp.smMap| < cp.numSm || |cp.qMap| < cp.numQs { return Stopped, t; }
    t := t.(smtCache := smtCache, stCache := stCache, qCache := qCache, smCache := smCache, nameCache := nameCache,
            smMap := cp.smMap[..cp.numSm], qMap := cp.qMap[..cp.numQs]);
  }

  // Each stored counter is the size of its table, so every loop reads exactly what was saved.

  lemma StatesLoad(cp: Checkpoint, u: Tables)
    requires TablesOk(u) && HoldsTables(cp, u)
    ensures cp.numSmt == |cp.smtCache| && Load(cp.smtCache[..cp.numSmt]) == u.smtCache
  {
    hide IdsOk, SystemsOk;
    LoadLists(cp.smtCache, u.smtCache);
    assert cp.smtCache[..|cp.smtCache|] == cp.smtCache;
  }

  lemma NamesLoad(cp: Checkpoint, u: Tables)
    requires TablesOk(u) && HoldsTables(cp, u)
    ensures cp.numSys == |cp.nameCache| && Load(cp.nameCache[..cp.numSys]) == u.nameCache
  {
    hide IdsOk, StatesOk;
    LoadLists(cp.nameCache, u.nameCache);
    assert cp.nameCache[..|cp.nameCache|] == cp.nameCache;
  }

  ghost predicate LoadedAll<K, V>(e: seq<seq<(K, V)>>, sizes: seq<nat>, n: nat, st: Status, m: seq<map<K, V>>) {
    && (st.Running? ==> |m| == n <= |e| && n <= |sizes|
                        && forall x :: 0 <= x < n ==> sizes[x] <= |e[x]| && m[x] == Load(e[x][..sizes[x]]))
    && (n <= |e| && n <= |sizes| && (forall x :: 0 <= x < n ==> sizes[x] <= |e[x]|) ==> st.Running?)
  }

  lemma StLoad(cp: Checkpoint, u: Tables, st: Status, m: seq<map<string, nat>>)
    requires TablesOk(u) && HoldsTables(cp, u) && LoadedAll(cp.stCache, cp.numSt, cp.numSmt, st, m)
    ensures st.Running? && m == u.stCache
  {
    hide IdsOk, SystemsOk;
    forall x | 0 <= x < |u.stCache| ensures cp.numSt[x] == |u.stCache[x]| { assert Numbered(u.stCache[x], u.numSt[x]); }
    forall x | 0 <= x < |u.stCache| ensures |cp.stCache[x]| == |u.stCache[x]| {
      assert Lists(cp.stCache[x], u.stCache[x]);
    }
    LoadAllLists(cp.stCache, cp.numSt, u.stCache, m);
  }

  lemma QLoad(cp: Checkpoint, u: Tables, st: Status, m: seq<map<Id, nat>>)
    requires TablesOk(u) && HoldsTables(cp, u) && LoadedAll(cp.qCache, cp.numQ, cp.numSys, st, m)
    ensures st.Running? && m == u.qCache
  {
    hide StatesOk, SystemsOk, Inverse;
    forall x | 0 <= x < |u.qCache| ensures |cp.qCache[x]| == |u.qCache[x]| { assert Lists(cp.qCache[x], u.qCache[x]); }
    LoadAllLists(cp.qCache, cp.numQ, u.qCache, m);
  }

  lemma SmLoad(cp: Checkpoint, u: Tables, st: Status, m: seq<map<Id, nat>>)
    requires TablesOk(u) && HoldsTables(cp, u) && LoadedAll(cp.smCache, cp.smCacheSize, cp.numSys, st, m)
    ensures st.Running? && m == u.smCache
  {
    hide StatesOk, SystemsOk, Inverse;
    forall x | 0 <= x < |u.smCache| ensures |cp.smCache[x]| == |u.smCache[x]| {
      assert Lists(cp.smCache[x], u.smCache[x]);
    }
    LoadAllLists(cp.smCache, cp.smCacheSize, u.smCache, m);
  }

  /** The queues hold the same records in the same order, each with its remaining count as its only count. */
  ghost predicate SameQueues(heap: Heap, qData: seq<seq<Pointer>>, heap': Heap, qData': seq<seq<Pointer>>) {
    |qData'| == |qData| && forall x :: 0 <= x < |qData| ==> SameQueue(heap, qData[x], heap', qData'[x])
  }

  ghost predicate SameQueue(heap: Heap, q: seq<Pointer>, heap': Heap, q': seq<Pointer>) {
    && InHeap(heap, q) && InHeap(heap', q') && |q'| == |q|
    && forall y :: 0 <= y < |q| ==> heap'[q'[y]] == heap[q[y]].(origData := heap[q[y]].data, dump := true)
  }

  lemma QueuesReload(cp: Checkpoint, s: Core, heap: Heap, data: seq<Pointer>, qData: seq<seq<Pointer>>)
    requires Saveable(s) && Holds(cp, s) && Reloaded(cp.qData, heap, data, qData) && |qData| == |s.qSize|
    requires forall x :: 0 <= x < |qData| ==> |qData[x]| == if s.qSize[x] > 0 then s.qSize[x] else 0
    ensures SameQueues(s.heap, s.qData, heap, qData)
    ensures QueuesOk(heap, s.qSize, s.qBytes, qData)
  {
    hide TablesOk, HoldsTables, StacksOk, Lists, Bytes;
    forall x | 0 <= x < |qData|
      ensures SameQueue(s.heap, s.qData[x], heap, qData[x])
    {
      assert SavedQueue(cp.qData[x], s.heap, s.qData[x]) && SameRecords(cp.qData[x], heap, qData[x]);
    }
    forall x | 0 <= x < |qData|
      ensures Bytes(heap, qData[x]) == Bytes(s.heap, s.qData[x])
    {
      assert SameQueue(s.heap, s.qData[x], heap, qData[x]);
      BytesMatch(s.heap, s.qData[x], heap, qData[x]);
    }
  }

  lemma QueuesSaved(cp: Checkpoint, s: Core)
    requires Saveable(s) && Holds(cp, s)
    ensures |s.qSize| == |cp.qData| && forall x :: 0 <= x < |s.qSize| ==> s.qSize[x] <= |cp.qData[x]|
    ensures Sized(cp.qData, s.qSize) && cp.qData == SavedLists(s.heap, s.qData)
  {
    hide TablesOk, HoldsTables, StacksOk, Lists, Bytes;
    forall x | 0 <= x < |s.qSize|
      ensures s.qSize[x] == |cp.qData[x]| && cp.qData[x] == SavedList(s.heap, s.qData[x])
    {
      assert SavedQueue(cp.qData[x], s.heap, s.qData[x]);
    }
  }

  /** What is saved of a queue; a record outside the store cannot be. */
  ghost function SavedList(heap: Heap, q: seq<Pointer>): seq<Saved> {
    if InHeap(heap, q) then seq(|q|, y requires 0 <= y < |q| => Save(heap[q[y]])) else []
  }

  ghost function SavedLists(heap: Heap, qData: seq<seq<Pointer>>): seq<seq<Saved>> {
    seq(|qData|, x requires 0 <= x < |qData| => SavedList(heap, qData[x]))
  }

  /**
   The state a checkpoint of s restores: tables, links, marks, last states and connection numbers as
   they were, the stacks that were not empty, no held links, and as the only records those of the
   queues, one queue after the other, each with its remaining count as its only count.  The clock is
   the simulator's.
   */
  ghost function Restored(s: Core, now: int): Core {
    var saved := SavedLists(s.heap, s.qData);
    s.(now := now, heap := FlatRecords(saved, |saved|), qData := FlatQueues(saved, |saved|),
       smStack := NonEmpty(s.smStack), scLinks := NoLinks(s.t.numSys))
  }

  lemma MapsSaved(cp: Checkpoint, s: Core)
    requires Holds(cp, s)
    ensures cp.lnMapSize == |cp.lnMap| && Load(cp.lnMap[..cp.lnMapSize]) == s.lnMap
    ensures cp.swExplCount == |cp.swExpl| && Load(cp.swExpl[..cp.swExplCount]) == s.swExpl
    ensures cp.lastStateSize == |cp.lastState| && Load(cp.lastState[..cp.lastStateSize]) == s.lastState
    ensures cp.smStackIdCount == |cp.smStack| && StackLoad(cp.smStack[..cp.smStackIdCount]) == NonEmpty(s.smStack)
  {
    hide HoldsTables, SavedQueues;
    LoadLists(cp.lnMap, s.lnMap);
    LoadLists(cp.swExpl, s.swExpl);
    LoadLists(cp.lastState, s.lastState);
    StackLoadLists(cp.smStack, s.smStack);
    assert cp.lnMap[..|cp.lnMap|] == cp.lnMap && cp.swExpl[..|cp.swExpl|] == cp.swExpl;
    assert cp.lastState[..|cp.lastState|] == cp.lastState && cp.smStack[..|cp.smStack|] == cp.smStack;
  }

  /** Links are not saved: every system starts without any. */
  function NoLinks(n: nat): (links: seq<map<Id, Pointer>>)
    ensures |links| == n
  {
    seq(n, _ => map[])
  }

  lemma FreshLog(saved: seq<seq<Saved>>, heap: Heap, data: seq<Pointer>, qData: seq<seq<Pointer>>, n: nat)
    requires Reloaded(saved, heap, data, qData)
    ensures LogOk(heap, data, [], []) && LinksOk(heap, NoLinks(n)) && data == Consecutive(0, |heap|)
  {
  }

  lemma StacksReload(smStack: map<StackId, seq<nat>>, smMap: seq<(nat, Id)>)
    requires StacksOk(smStack, smMap)
    ensures StacksOk(NonEmpty(smStack), smMap)
    ensures NonEmpty(smStack) == smStack <==> forall sid :: sid in smStack ==> smStack[sid] != []
  {
  }

  /** Builds a new annotator from a checkpoint; `s` is what was saved, if it was saved by an annotator. */
  method Unserialize(cp: Checkpoint, now: int, ghost s: Core) returns (st: Status, d: CPA?)
    ensures d != null <==> st.Running?
    ensures st.Running? <==> Loadable(cp)
    ensures d != null ==> fresh(d)
    ensures Saveable(s) && Holds(cp, s) ==>
              && d != null && d.Valid() && d.Now() == Restored(s, now)
              && SameQueues(s.heap, s.qData, d.heap, d.qData)
              && d.written == [] && d.annotateIdx == [] && d.data == Consecutive(0, |d.heap|)
  {
    hide LogOk, LinksOk, StacksOk, TablesOk, SavedQueues, HoldsTables, Reloaded, QueuesOk, Holds, SameQueues;
    hide NonEmpty, NoLinks;
    hide FlatRecords, FlatQueues, SavedLists, Sized;
    ghost var good := Saveable(s) && Holds(cp, s);
    if good { QueuesSaved(cp, s); HoldsParts(cp, s); }
    d := null;
    var loaded;
    st, loaded := LoadMaps(cp, s);
    if st.Stopped? { return; }
    if |cp.qSize| > |cp.qData| { return Stopped, null; }
    var heap, data, qData;
    st, heap, data, qData := LoadQueues(cp.qData, cp.qSize);
    if st.Stopped? { return; }
    if good { QueuesReload(cp, s, heap, data, qData); QueuesShape(s.heap, s.qSize, s.qBytes, s.qData); }
    FreshLog(cp.qData, heap, data, qData, loaded.t.numSys);
    var core := Core(now, heap, cp.qSize, cp.qBytes, qData, loaded.t, NoLinks(loaded.t.numSys), loaded.smStack,
                     loaded.lnMap, loaded.swExpl, loaded.lastState, cp.conId);
    d := new CPA.Loaded(core, data);
  }

  /** Everything but the queues, in the order `unserialize` reads it. */
  method LoadMaps(cp: Checkpoint, ghost s: Core) returns (st: Status, loaded: Core)
    ensures st.Running? <==> TablesLoadable(cp) && MapsLoadable(cp)
    ensures Saveable(s) && Holds(cp, s) ==>
              && st.Running? && loaded.t == s.t && loaded.smStack == NonEmpty(s.smStack) && loaded.lnMap == s.lnMap
              && loaded.swExpl == s.swExpl && loaded.lastState == s.lastState
              && StacksOk(loaded.smStack, loaded.t.smMap)
  {
    hide StacksOk, TablesOk, HoldsTables, QueuesOk, Holds, NonEmpty;
    if Saveable(s) && Holds(cp, s) { MapsSaved(cp, s); HoldsParts(cp, s); StacksReload(s.smStack, s.t.smMap); }
    loaded := EMPTY_CORE;
    var t, lnMap, swExpl, lastState, smStack;
    st, t := LoadTables(cp, s.t);
    if st.Stopped? { return; }
    st, smStack := LoadStacks(cp.smStack, cp.smStackIdCount);
    if st.Stopped? { return; }
    st, lnMap := LoadEntries(cp.lnMap, cp.lnMapSize);
    if st.Stopped? { return; }
    st, swExpl := LoadEntries(cp.swExpl, cp.swExplCount);
    if st.Stopped? { return; }
    st, lastState := LoadEntries(cp.lastState, cp.lastStateSize);
    if st.Stopped? { return; }
    loaded := loaded.(t := t, smStack := smStack, lnMap := lnMap, swExpl := swExpl, lastState := lastState);
  }

  lemma HoldsParts(cp: Checkpoint, s: Core)
    requires Holds(cp, s)
    ensures HoldsTables(cp, s.t) && cp.numSys == s.t.numSys
    ensures cp.conId == s.conId && cp.qSize == s.qSize && cp.qBytes == s.qBytes
  {
  }

  /** Stacks come back as they were exactly when none of them is empty. */
  lemma StacksRestoredIff(s: Core, now: int)
    ensures Restored(s, now).smStack == s.smStack <==> forall sid :: sid in s.smStack ==> s.smStack[sid] != []
  {
    hide FlatRecords, FlatQueues, SavedLists;
  }

  /** Held links come back, namely as none, exactly when no record is held. */
  lemma LinksRestoredIff(s: Core, now: int)
    requires CoreOk(s)
    ensures Restored(s, now).scLinks == s.scLinks <==> forall p :: 0 <= p < |s.heap| ==> s.heap[p].dump
  {
    hide FlatRecords, FlatQueues, SavedLists, TablesOk, QueuesOk, StacksOk, LinksOk, NonEmpty, NoLinks;
    NoneHeldIff(s.heap, s.scLinks);
  }

  lemma NoneHeldIff(heap: Heap, scLinks: seq<map<Id, Pointer>>)
    requires LinksOk(heap, scLinks)
    ensures NoLinks(|scLinks|) == scLinks <==> forall p :: 0 <= p < |heap| ==> heap[p].dump
  {
    hide LinksUnique;
    if forall p :: 0 <= p < |heap| ==> heap[p].dump {
      forall x | 0 <= x < |scLinks| ensures scLinks[x] == map[] {
        if id :| id in scLinks[x] { assert false; }
      }
      assert scLinks == NoLinks(|scLinks|);
    } else {
      var p :| 0 <= p < |heap| && !heap[p].dump;
      assert Linked(scLinks, p);
    }
  }

  lemma {:induction false} FlatHas(saved: seq<seq<Saved>>, n: nat, x: nat, y: nat)
    requires x < n <= |saved| && y < |saved[x]|
    ensures var ps := FlatQueues(saved, n)[x];
      |ps| == |saved[x]| && ps[y] < |FlatRecords(saved, n)| && FlatRecords(saved, n)[ps[y]] == Restore(saved[x][y])
  {
    if x < n - 1 { FlatHas(saved, n - 1, x, y); }
  }

  lemma {:induction false} FlatOnly(saved: seq<seq<Saved>>, n: nat, p: nat) returns (x: nat, y: nat)
    requires n <= |saved| && p < |FlatRecords(saved, n)|
    ensures x < n && y < |saved[x]| == |FlatQueues(saved, n)[x]| && FlatQueues(saved, n)[x][y] == p
  {
    var before := |FlatRecords(saved, n - 1)|;
    if p < before {
      x, y := FlatOnly(saved, n - 1, p);
    } else {
      x, y := n - 1, p - before;
    }
  }

  /**
   A queued record comes back, in its place in its queue, with its remaining count as the original
   one; nothing else of it changes.
   */
  lemma QueuedIsRestored(s: Core, now: int, x: nat, y: nat)
    requires QueuesOk(s.heap, s.qSize, s.qBytes, s.qData) && x < |s.qData| && y < |s.qData[x]|
    ensures |Restored(s, now).qData| == |s.qData| && |Restored(s, now).qData[x]| == |s.qData[x]|
    ensures var p := Restored(s, now).qData[x][y];
      && p < |Restored(s, now).heap| && s.qData[x][y] < |s.heap|
      && var r := s.heap[s.qData[x][y]];
         Restored(s, now).heap[p] == AnnotateData(r.time, r.data, r.data, r.sm, r.stq, r.op, r.flag, r.cpu, true)
  {
    hide FlatRecords, FlatQueues, NonEmpty, NoLinks;
    var saved := SavedLists(s.heap, s.qData);
    QueueInHeap(s.heap, s.qSize, s.qBytes, s.qData, x);
    FlatHas(saved, |saved|, x, y);
  }

  /** Nothing else comes back: every restored record is in a queue. */
  lemma RestoredIsQueued(s: Core, now: int, p: nat) returns (x: nat, y: nat)
    requires p < |Restored(s, now).heap|
    ensures x < |s.qData| == |Restored(s, now).qData| && y < |Restored(s, now).qData[x]| &&
        Restored(s, now).qData[x][y] == p
  {
    hide FlatRecords, FlatQueues, NonEmpty, NoLinks;
    var saved := SavedLists(s.heap, s.qData);
    x, y := FlatOnly(saved, |saved|, p);
  }

  lemma QueueInHeap(heap: Heap, qSize: seq<int>, qBytes: seq<int>, qData: seq<seq<Pointer>>, x: nat)
    requires QueuesOk(heap, qSize, qBytes, qData) && x < |qData|
    ensures InHeap(heap, qData[x])
  {
  }

  /** One state announced without a running machine leaves an empty stack, which is not restored. */
  lemma EmptyStackReached(sys: System, frame: nat, cpuid: nat, state: string, flag: nat, now: int)
    requires !Ignored(state)
    ensures var after := After(EMPTY_CORE, [Begin(sys, frame, cpuid, state, false, flag)]);
      && after.Goes? && after.s.smStack == map[StackId(1, frame) := []]
      && Restored(after.s, now).smStack == map[]
  {
    var calls := [Begin(sys, frame, cpuid, state, false, flag)];
    assert calls[..0] == [];
    assert After(EMPTY_CORE, calls[..0]) == Goes(EMPTY_CORE);
    hide FlatRecords, FlatQueues, SavedLists, Ignored;
  }

  /** A system call that announces a machine leaves a held link, which is not restored. */
  lemma HeldLinkReached(sys: System, frame: nat, now: int)
    ensures var begin, link := SmBegin(sys, frame, 0, "m", 0, false, ""), SyscallLink(sys, frame, 0, "n", false, "");
      var after := After(EMPTY_CORE, [begin, link]);
      && after.Goes? && after.s.scLinks == [map[Id("n", frame) := 0]] && Restored(after.s, now).scLinks == [map[]]
  {
    var begin, link := SmBegin(sys, frame, 0, "m", 0, false, ""), SyscallLink(sys, frame, 0, "n", false, "");
    var calls := [begin, link];
    assert calls[..1] == [begin] && calls[..1][..0] == [];
    assert After(EMPTY_CORE, calls[..1][..0]) == Goes(EMPTY_CORE);
    hide FlatRecords, FlatQueues, SavedLists, SmBegins, SyscallLinks;
    var s1 := MachineBegun(sys, frame);
    assert After(EMPTY_CORE, calls[..1]) == Goes(s1);
    LinkHeld(s1, sys, frame);
    assert NoLinks(1) == [map[]];
  }

  lemma LinkHeld(s: Core, sys: System, frame: nat)
    requires s.t.numSys == 1 && sys in s.t.nameCache && s.t.nameCache[sys].1 == 1
    requires s.scLinks == [map[]] && s.heap == [] && s.smStack == map[StackId(1, frame) := [1]]
    ensures var after := SyscallLinks(s, sys, 0, frame, "n", false, "");
      after.Goes? && after.s.t.numSys == 1 && after.s.scLinks == [map[Id("n", frame) := 0]]
  {
  }

  lemma MachineBegun(sys: System, frame: nat) returns (s: Core)
    ensures SmBegins(EMPTY_CORE, sys, frame, 0, "m", 0, false, "") == Goes(s)
    ensures s.t.numSys == 1 && sys in s.t.nameCache && s.t.nameCache[sys].1 == 1
    ensures s.scLinks == [map[]] && s.heap == [] && s.smStack == map[StackId(1, frame) := [1]]
  {
    s := SmBegins(EMPTY_CORE, sys, frame, 0, "m", 0, false, "").s;
    assert [] + [1] == [1];
    assert s.smStack == map[][StackId(1, frame) := [] + [1]];
  }

  /**
   Round trip.  Saving an annotator and loading the checkpoint never fails and gives a working
   annotator in the restored state, with nothing written and all its records pending.
   */
  method SaveAndLoad(c: CPA, now: int) returns (st: Status, d: CPA?)
    requires c.Valid()
    ensures st.Running? && d != null && fresh(d) && d.Valid() && d.Now() == Restored(c.Now(), now)
    ensures SameQueues(c.heap, c.qData, d.heap, d.qData)
    ensures d.written == [] && d.annotateIdx == [] && d.data == Consecutive(0, |d.heap|)
    ensures CameBack(c.Now(), d.Now(), now)
  {
    hide LogOk, LinksOk, StacksOk, TablesOk, QueuesOk, Holds, SameQueues, Restored, CameBack;
    var cp := Serialize(c);
    assert Saveable(c.Now());
    st, d := Unserialize(cp, now, c.Now());
    RestoredFields(c.Now(), now);
  }

  /** The restored state field by field: only the clock, empty stacks, held links and the store differ. */
  ghost predicate CameBack(s: Core, s': Core, now: int) {
    && s'.now == now && s'.t == s.t && s'.conId == s.conId && s'.qSize == s.qSize && s'.qBytes == s.qBytes
    && s'.lnMap == s.lnMap && s'.swExpl == s.swExpl && s'.lastState == s.lastState
    && (forall sid :: sid in s'.smStack <==> sid in s.smStack && s.smStack[sid] != [])
    && (forall sid :: sid in s'.smStack ==> s'.smStack[sid] == s.smStack[sid])
    && |s'.scLinks| == s.t.numSys && (forall x :: 0 <= x < |s'.scLinks| ==> s'.scLinks[x] == map[])
  }

  lemma RestoredFields(s: Core, now: int)
    ensures CameBack(s, Restored(s, now), now)
  {
  }

  /** Every reachable annotator: after any calls that did not stop the simulation, a checkpoint round-trips. */
  method CheckpointAfter(calls: seq<Call>, now: int) returns (st: Status, d: CPA?)
    requires WellTypedAll(calls)
    ensures st.Running? <==> After(EMPTY_CORE, calls).Goes?
    ensures st.Running? ==> d != null && d.Valid() && d.Now() == Restored(After(EMPTY_CORE, calls).s, now)
  {
    hide LogOk, Inv, SameQueues, Restored, Next;
    var c := new CPA();
    d := null;
    st := c.Execute(calls);
    if st.Running? {
      st, d := SaveAndLoad(c, now);
    }
  }
}
