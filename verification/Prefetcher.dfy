/**
 * The delta-correlating prefetcher: a direct-mapped table of recent address differences per
 * instruction, candidates found by matching the last two differences, and a set of blocks for
 * which a prefetch is in flight.  What the cache, its miss queue and the prefetch queue answer is
 * arbitrary and may differ from call to call.
 */
module Prefetcher {

  const NUM_DELTAS := 19
  const TABLE_SIZE := 98
  const MAX_DEGREE := NUM_DELTAS
  const DELTA_MIN := -2048
  const DELTA_MAX := 2047
  const BLOCK_SIZE := 64
  const MAX_QUEUE_SIZE := 100
  const MAX_PHYS_MEM_ADDR := 256 * 1024 * 1024 - 1
  const WORD := 0x1_0000_0000_0000_0000
  const HALF := 0x1_0000_0000

  type Addr = x: int | 0 <= x < WORD

  datatype Entry = Entry(pc: Addr, lastAddress: Addr, lastPrefetch: Addr, deltas: seq<int>)
  datatype Access = Access(pc: Addr, addr: Addr)

  /**
   * Answers of the simulator during one access: the numbers of the candidates for which it says
   * they are in the miss queue or in the cache, and of the prefetches that find the queue full.
   */
  datatype Env = Env(mshr: set<nat>, cache: set<nat>, full: set<nat>)

  function Wrap(x: int): Addr { x % WORD }

  function ToBlock(a: Addr): (b: Addr)
    ensures b <= a < b + 64 && b % 64 == 0
  {
    (a / BLOCK_SIZE) * BLOCK_SIZE
  }

  /** The 64-bit difference of two addresses, kept in a 32-bit int. */
  function Difference(a: Addr, b: Addr): (d: int)
    ensures -0x8000_0000 <= d < 0x8000_0000
  {
    var low := Wrap(a - b) % HALF;
    if low < 0x8000_0000 then low else low - HALF
  }

  /** Between addresses of physical memory nothing is cut off. */
  lemma DifferenceExact(a: Addr, b: Addr)
    requires a <= MAX_PHYS_MEM_ADDR && b <= MAX_PHYS_MEM_ADDR
    ensures Difference(a, b) == a - b
  {
    if a < b {
      assert Wrap(a - b) == a - b + WORD;
    }
  }

  /** The last n elements, or all of them. */
  function Lasts(s: seq<int>, n: nat): (r: seq<int>)
    ensures |r| <= n && (|r| == n || r == s)
    ensures |r| <= |s| && forall i :: 0 <= i < |r| ==> r[i] == s[|s| - |r| + i]
  {
    if |s| <= n then s else s[|s| - n..]
  }

  // ----- The table as a replay of the accesses -----

  /** The accesses that map to the slot, behind the blank entry every slot starts with. */
  function History(trace: seq<Access>, slot: nat): (h: seq<Access>)
    ensures h != []
  {
    if trace == [] then [Access(0, 0)]
    else
      var last := trace[|trace| - 1];
      var h := History(trace[..|trace| - 1], slot);
      if last.pc % TABLE_SIZE == slot then h + [last] else h
  }

  /** The accesses since the instruction that made the last one took the slot. */
  function Tenure(h: seq<Access>): (t: seq<Access>)
    requires h != []
    ensures t != [] && |t| <= |h| && t[|t| - 1] == h[|h| - 1]
  {
    if |h| == 1 || h[|h| - 2].pc != h[|h| - 1].pc then [h[|h| - 1]]
    else Tenure(h[..|h| - 1]) + [h[|h| - 1]]
  }

  predicate Representable(d: int) { DELTA_MIN <= d <= DELTA_MAX }

  /** The representable differences between successive, different addresses. */
  function Deltas(t: seq<Access>): seq<int> {
    if |t| < 2 then []
    else
      var a, b := t[|t| - 2].addr, t[|t| - 1].addr;
      Deltas(t[..|t| - 1]) + if a != b && Representable(Difference(b, a)) then [Difference(b, a)] else []
  }

  /** What the slot must hold after the accesses of the trace. */
  function Replay(trace: seq<Access>, slot: nat): Entry {
    var t := Tenure(History(trace, slot));
    Entry(t[0].pc, t[|t| - 1].addr, 0, Lasts(Deltas(t), NUM_DELTAS))
  }

  /** A tenure is the longest stretch of accesses by one instruction that ends the history. */
  lemma {:induction false} TenureIsLongest(h: seq<Access>)
    requires h != []
    ensures var t := Tenure(h);
      && h[|h| - |t|..] == t
      && (forall i :: 0 <= i < |t| ==> t[i].pc == h[|h| - 1].pc)
      && (|t| < |h| ==> h[|h| - |t| - 1].pc != h[|h| - 1].pc)
  {
    if |h| > 1 && h[|h| - 2].pc == h[|h| - 1].pc { TenureIsLongest(h[..|h| - 1]); }
  }

  predicate PhysicalTrace(t: seq<Access>) {
    forall i :: 0 <= i < |t| ==> t[i].addr <= MAX_PHYS_MEM_ADDR
  }

  /** As Deltas, with the mathematical difference. */
  function TrueDeltas(t: seq<Access>): seq<int> {
    if |t| < 2 then []
    else
      var d := t[|t| - 1].addr - t[|t| - 2].addr;
      TrueDeltas(t[..|t| - 1]) + if d != 0 && Representable(d) then [d] else []
  }

  lemma {:induction false} DeltasExact(t: seq<Access>)
    requires PhysicalTrace(t)
    ensures Deltas(t) == TrueDeltas(t)
  {
    hide Difference;
    if |t| >= 2 {
      DeltasExact(t[..|t| - 1]);
      DifferenceExact(t[|t| - 1].addr, t[|t| - 2].addr);
    }
  }

  lemma {:induction false} PhysicalHistory(trace: seq<Access>, slot: nat)
    requires PhysicalTrace(trace)
    ensures PhysicalTrace(History(trace, slot))
  {
    if trace != [] { PhysicalHistory(trace[..|trace| - 1], slot); }
  }

  /** With all accesses in physical memory, a slot holds the true differences. */
  lemma SlotDeltas(trace: seq<Access>, slot: nat)
    requires PhysicalTrace(trace)
    ensures Replay(trace, slot).deltas == Lasts(TrueDeltas(Tenure(History(trace, slot))), NUM_DELTAS)
  {
    PhysicalHistory(trace, slot);
    var h := History(trace, slot);
    TenureIsLongest(h);
    hide History, Tenure, Deltas, TrueDeltas;
    assert forall i :: 0 <= i < |Tenure(h)| ==> Tenure(h)[i] == h[|h| - |Tenure(h)| + i];
    DeltasExact(Tenure(h));
  }

  function Inserted(deltas: seq<int>, d: int): seq<int> {
    if !Representable(d) then deltas else Lasts(deltas + [d], NUM_DELTAS)
  }

  lemma LastsInserted(s: seq<int>, d: int)
    ensures Lasts(Lasts(s, NUM_DELTAS) + [d], NUM_DELTAS) == Lasts(s + [d], NUM_DELTAS)
  {
  }

  /** How the slot of an access must change. */
  function Updated(e: Entry, a: Access): Entry {
    if e.pc != a.pc then Entry(a.pc, a.addr, 0, [])
    else if a.addr == e.lastAddress then e
    else e.(lastAddress := a.addr, deltas := Inserted(e.deltas, Difference(a.addr, e.lastAddress)))
  }

  lemma OtherSlot(trace: seq<Access>, a: Access, slot: nat)
    requires a.pc % TABLE_SIZE != slot
    ensures Replay(trace + [a], slot) == Replay(trace, slot)
  {
    assert (trace + [a])[..|trace|] == trace;
  }

  lemma SameSlot(trace: seq<Access>, a: Access, slot: nat)
    requires a.pc % TABLE_SIZE == slot
    ensures Replay(trace + [a], slot) == Updated(Replay(trace, slot), a)
  {
    assert (trace + [a])[..|trace|] == trace;
    var h := History(trace, slot);
    var t := Tenure(h);
    TenureIsLongest(h);
    assert History(trace + [a], slot) == h + [a] && (h + [a])[..|h|] == h;
    if h[|h| - 1].pc == a.pc {
      assert Tenure(h + [a]) == t + [a] && (t + [a])[..|t|] == t;
      LastsInserted(Deltas(t), Difference(a.addr, t[|t| - 1].addr));
    }
  }

  // ----- Candidates -----

  /** The first n differences, newest first. */
  function Backwards(ds: seq<int>, n: nat): (r: seq<int>)
    requires n <= |ds|
    ensures |r| == n
  {
    if n == 0 then [] else [ds[n - 1]] + Backwards(ds, n - 1)
  }

  predicate Match(ds: seq<int>, v: nat)
    requires v + 1 < |ds|
  {
    ds[v + 1] == ds[|ds| - 1] && ds[v] == ds[|ds| - 2]
  }

  /** The differences added up, oldest candidate first: for each earlier match below n, all before it backwards. */
  function Strides(ds: seq<int>, n: nat): seq<int>
    requires n == 0 || n + 1 < |ds|
  {
    if n == 0 then []
    else (if Match(ds, n - 1) then Backwards(ds, n) else []) + Strides(ds, n - 1)
  }

  function Sum(s: seq<int>): int {
    if s == [] then 0 else Sum(s[..|s| - 1]) + s[|s| - 1]
  }

  /** 1 + 2 + ... + n */
  function Triangle(n: nat): nat { if n == 0 then 0 else Triangle(n - 1) + n }

  predicate RunningSums(start: Addr, strides: seq<int>, cs: seq<Addr>) {
    |cs| == |strides| && forall k :: 0 <= k < |cs| ==> cs[k] == Wrap(start + Sum(strides[..k + 1]))
  }

  function AllStrides(ds: seq<int>): seq<int> {
    if |ds| < 2 then [] else Strides(ds, |ds| - 2)
  }

  lemma WrapAdd(x: int, d: int)
    ensures Wrap(Wrap(x) + d) == Wrap(x + d)
  {
    assert x == x / WORD * WORD + Wrap(x);
  }

  lemma SumsExtend(start: Addr, strides: seq<int>, cs: seq<Addr>, d: int)
    requires RunningSums(start, strides, cs)
    ensures RunningSums(start, strides + [d], cs + [Wrap(Wrap(start + Sum(strides)) + d)])
    ensures Sum(strides + [d]) == Sum(strides) + d
  {
    hide Wrap;
    var all := strides + [d];
    assert all[..|strides|] == strides && all[..|all|] == all;
    WrapAdd(start + Sum(strides), d);
    var ext := cs + [Wrap(Wrap(start + Sum(strides)) + d)];
    forall k | 0 <= k < |ext| ensures ext[k] == Wrap(start + Sum(all[..k + 1])) {
      if k < |cs| { assert all[..k + 1] == strides[..k + 1]; }
    }
  }

  lemma {:induction false} TriangleIs(n: nat)
    ensures 2 * Triangle(n) == (n + 1) * n
  {
    if n > 0 {
      TriangleIs(n - 1);
      assert (n + 1) * n == n * (n - 1) + 2 * n;
    }
  }

  lemma {:induction false} StridesBound(ds: seq<int>, n: nat)
    requires n == 0 || n + 1 < |ds|
    ensures |Strides(ds, n)| <= Triangle(n)
  {
    if n > 0 { StridesBound(ds, n - 1); }
  }

  predicate All(s: seq<int>, d: int) { forall i :: 0 <= i < |s| ==> s[i] == d }

  lemma {:induction false} UniformBackwards(ds: seq<int>, n: nat, d: int)
    requires n <= |ds| && All(ds, d)
    ensures All(Backwards(ds, n), d)
  {
    if n > 0 { UniformBackwards(ds, n - 1, d); }
  }

  lemma {:induction false} UniformStrides(ds: seq<int>, n: nat, d: int)
    requires (n == 0 || n + 1 < |ds|) && All(ds, d)
    ensures |Strides(ds, n)| == Triangle(n) && All(Strides(ds, n), d)
  {
    if n > 0 {
      UniformStrides(ds, n - 1, d);
      UniformBackwards(ds, n, d);
      assert Match(ds, n - 1);
      hide Match, Backwards;
      assert Strides(ds, n) == Backwards(ds, n) + Strides(ds, n - 1);
    }
  }

  lemma {:induction false} UniformSum(s: seq<int>, d: int)
    requires All(s, d)
    ensures Sum(s) == |s| * d
  {
    if s != [] {
      UniformSum(s[..|s| - 1], d);
      assert |s| * d == (|s| - 1) * d + d;
    }
  }

  lemma NthSum(start: Addr, d: int, s: seq<int>, cs: seq<Addr>, k: nat)
    requires All(s, d) && RunningSums(start, s, cs) && k < |cs|
    ensures cs[k] == Wrap(start + (k + 1) * d)
  {
    hide Wrap;
    UniformSum(s[..k + 1], d);
  }

  /** At most (n-1)(n-2)/2 candidates come from n differences. */
  lemma CandidateBound(ds: seq<int>)
    requires |ds| >= 2
    ensures 2 * |AllStrides(ds)| <= (|ds| - 1) * (|ds| - 2)
  {
    hide Triangle, Strides;
    var n := |ds| - 2;
    StridesBound(ds, n);
    TriangleIs(n);
    assert (|ds| - 1) * (|ds| - 2) == (n + 1) * n;
  }

  /** Equal differences d predict start + d, start + 2d, ... without a gap. */
  lemma ConstantStride(ds: seq<int>, d: int, start: Addr, cs: seq<Addr>)
    requires |ds| >= 2 && All(ds, d)
    requires RunningSums(start, AllStrides(ds), cs)
    ensures 2 * |cs| == (|ds| - 1) * (|ds| - 2)
    ensures forall k :: 0 <= k < |cs| ==> cs[k] == Wrap(start + (k + 1) * d)
  {
    hide Wrap, Strides, Triangle;
    var n := |ds| - 2;
    UniformStrides(ds, n, d);
    TriangleIs(n);
    assert (|ds| - 1) * (|ds| - 2) == (n + 1) * n;
    var s := AllStrides(ds);
    forall k | 0 <= k < |cs| ensures cs[k] == Wrap(start + (k + 1) * d) {
      NthSum(start, d, s, cs, k);
    }
  }

  // ----- Which differences count, pair by pair -----

  lemma {:induction false} BackwardsAt(ds: seq<int>, n: nat, k: nat)
    requires k < n <= |ds|
    ensures Backwards(ds, n)[k] == ds[n - 1 - k]
  {
    if k > 0 { BackwardsAt(ds, n - 1, k - 1); }
  }

  /** For every pair below n that equals the last pair of differences, the number of differences up to it. */
  function Preceding(ds: seq<int>, n: nat): nat
    requires n == 0 || n + 1 < |ds|
  {
    if n == 0 then 0
    else Preceding(ds, n - 1) + if ds[n - 1] == ds[|ds| - 2] && ds[n] == ds[|ds| - 1] then n else 0
  }

  lemma {:induction false} StridesCount(ds: seq<int>, n: nat)
    requires n == 0 || n + 1 < |ds|
    ensures |Strides(ds, n)| == Preceding(ds, n)
  {
    if n > 0 { StridesCount(ds, n - 1); }
  }

  lemma {:induction false} PrecedingGrows(ds: seq<int>, m: nat, n: nat)
    requires m <= n && (n == 0 || n + 1 < |ds|)
    ensures Preceding(ds, m) <= Preceding(ds, n)
    decreases n - m
  {
    if m < n { PrecedingGrows(ds, m, n - 1); }
  }

  /** Behind the differences for later pairs, those up to an equal pair v come one by one, newest first. */
  lemma {:induction false} StrideAt(ds: seq<int>, n: nat, v: nat, k: nat)
    requires k <= v < n && n + 1 < |ds| && ds[v] == ds[|ds| - 2] && ds[v + 1] == ds[|ds| - 1]
    ensures var i := Preceding(ds, n) - Preceding(ds, v + 1) + k;
      0 <= i < |Strides(ds, n)| && Strides(ds, n)[i] == ds[v - k]
    decreases n
  {
    StridesCount(ds, n);
    StridesCount(ds, n - 1);
    if v == n - 1 {
      BackwardsAt(ds, n, k);
    } else {
      PrecedingGrows(ds, v + 1, n - 1);
      StrideAt(ds, n - 1, v, k);
    }
  }

  /** Each candidate is the one before it, or the last address, plus the next difference. */
  lemma SumsStep(start: Addr, strides: seq<int>, cs: seq<Addr>, i: nat)
    requires RunningSums(start, strides, cs) && i < |cs|
    ensures cs[i] == Wrap((if i == 0 then start else cs[i - 1]) + strides[i])
  {
    hide Wrap;
    assert strides[..i + 1][..i] == strides[..i];
    WrapAdd(start + Sum(strides[..i]), strides[i]);
    if i == 0 { NoSums(start); }
  }

  /** No earlier pair of differences equals the last one. */
  predicate NoEarlierPair(ds: seq<int>) {
    forall v :: 0 <= v && v + 2 < |ds| ==> !(ds[v] == ds[|ds| - 2] && ds[v + 1] == ds[|ds| - 1])
  }

  /** The pair at v does, and it alone. */
  predicate OnlyEarlierPair(ds: seq<int>, v: nat) {
    && v + 2 < |ds| && ds[v] == ds[|ds| - 2] && ds[v + 1] == ds[|ds| - 1]
    && forall w :: 0 <= w && w + 2 < |ds| && w != v ==> !(ds[w] == ds[|ds| - 2] && ds[w + 1] == ds[|ds| - 1])
  }

  /** From last on, the differences up to v are added one by one, newest first. */
  predicate AddsBack(last: Addr, ds: seq<int>, v: nat, cs: seq<Addr>)
    requires v < |ds|
  {
    |cs| == v + 1 && forall k :: 0 <= k <= v ==> cs[k] == Wrap((if k == 0 then last else cs[k - 1]) + ds[v - k])
  }

  lemma {:induction false} NonePreceding(ds: seq<int>, m: nat, n: nat)
    requires m <= n && n + 1 < |ds|
    requires forall v :: m <= v < n ==> !(ds[v] == ds[|ds| - 2] && ds[v + 1] == ds[|ds| - 1])
    ensures Preceding(ds, n) == Preceding(ds, m)
    decreases n - m
  {
    if m < n { NonePreceding(ds, m, n - 1); }
  }

  /** Exactly without an earlier equal pair there is no candidate. */
  lemma NoPairNoCandidate(ds: seq<int>)
    ensures AllStrides(ds) == [] <==> NoEarlierPair(ds)
  {
    if |ds| >= 2 {
      StridesCount(ds, |ds| - 2);
      if NoEarlierPair(ds) {
        NonePreceding(ds, 0, |ds| - 2);
      } else {
        var v :| 0 <= v && v + 2 < |ds| && ds[v] == ds[|ds| - 2] && ds[v + 1] == ds[|ds| - 1];
        StrideAt(ds, |ds| - 2, v, 0);
      }
    }
  }

  /** A candidate for every difference up to every equal pair, later pairs first. */
  lemma CandidateAt(start: Addr, ds: seq<int>, cs: seq<Addr>, v: nat, k: nat)
    requires RunningSums(start, AllStrides(ds), cs)
    requires k <= v && v + 2 < |ds| && ds[v] == ds[|ds| - 2] && ds[v + 1] == ds[|ds| - 1]
    ensures |cs| == Preceding(ds, |ds| - 2)
    ensures var i := Preceding(ds, |ds| - 2) - Preceding(ds, v + 1) + k;
      0 <= i < |cs| && cs[i] == Wrap((if i == 0 then start else cs[i - 1]) + ds[v - k])
  {
    hide Wrap, RunningSums;
    var s := AllStrides(ds);
    StridesCount(ds, |ds| - 2);
    StrideAt(ds, |ds| - 2, v, k);
    SumsLength(start, s, cs);
    SumsStep(start, s, cs, Preceding(ds, |ds| - 2) - Preceding(ds, v + 1) + k);
  }

  lemma SumsLength(start: Addr, strides: seq<int>, cs: seq<Addr>)
    requires RunningSums(start, strides, cs)
    ensures |cs| == |strides|
  {
  }

  lemma OnlyPairCandidates(start: Addr, ds: seq<int>, cs: seq<Addr>, v: nat)
    requires RunningSums(start, AllStrides(ds), cs) && OnlyEarlierPair(ds, v)
    ensures AddsBack(start, ds, v, cs)
  {
    hide Wrap, RunningSums;
    var n := |ds| - 2;
    NonePreceding(ds, v + 1, n);
    NonePreceding(ds, 0, v);
    CandidateAt(start, ds, cs, v, 0);
    forall k | 0 <= k <= v ensures cs[k] == Wrap((if k == 0 then start else cs[k - 1]) + ds[v - k]) {
      CandidateAt(start, ds, cs, v, k);
    }
  }

  lemma Advance(start: Addr, now: seq<int>, cs: seq<Addr>, address: Addr, d: int)
    requires RunningSums(start, now, cs) && address == Wrap(start + Sum(now))
    ensures RunningSums(start, now + [d], cs + [Wrap(address + d)])
    ensures Wrap(address + d) == Wrap(start + Sum(now + [d]))
  {
    hide Wrap, RunningSums;
    SumsExtend(start, now, cs, d);
    WrapAdd(start + Sum(now), d);
  }

  lemma BackwardsStep(now: seq<int>, ds: seq<int>, w: nat)
    requires w < |ds|
    ensures now + Backwards(ds, w + 1) == now + [ds[w]] + Backwards(ds, w)
  {
  }

  /** The inner loop of `delta_correlation`: add up the differences from v backwards. */
  method AddStrides(ds: seq<int>, v: nat, start: Addr, ghost done: seq<int>, cs0: seq<Addr>, address0: Addr)
    returns (cs: seq<Addr>, address: Addr)
    requires v < |ds| && RunningSums(start, done, cs0) && address0 == Wrap(start + Sum(done))
    ensures RunningSums(start, done + Backwards(ds, v + 1), cs)
    ensures address == Wrap(start + Sum(done + Backwards(ds, v + 1)))
  {
    hide Wrap, RunningSums, Sum;
    assert Backwards(ds, 0) == [];
    hide Backwards;
    cs, address := cs0, address0;
    ghost var now := done;
    var w := v;
    while w >= 0
      invariant -1 <= w <= v
      invariant now + Backwards(ds, w + 1) == done + Backwards(ds, v + 1)
      invariant RunningSums(start, now, cs) && address == Wrap(start + Sum(now))
    {
      Advance(start, now, cs, address, ds[w]);
      BackwardsStep(now, ds, w);
      address := Wrap(address + ds[w]);
      cs := cs + [address];
      now := now + [ds[w]];
      w := w - 1;
    }
    assert now + [] == now;
  }

  lemma StridesStep(done: seq<int>, ds: seq<int>, v: nat)
    requires v + 2 < |ds| && Match(ds, v)
    ensures done + Strides(ds, v + 1) == done + Backwards(ds, v + 1) + Strides(ds, v)
  {
  }

  /** `delta_correlation` */
  method DeltaCorrelation(entry: Entry) returns (cs: seq<Addr>)
    ensures RunningSums(entry.lastAddress, AllStrides(entry.deltas), cs)
    ensures cs == [] <==> NoEarlierPair(entry.deltas)
    ensures forall v: nat :: OnlyEarlierPair(entry.deltas, v) ==> AddsBack(entry.lastAddress, entry.deltas, v, cs)
    ensures |cs| == if |entry.deltas| < 2 then 0 else Preceding(entry.deltas, |entry.deltas| - 2)
  {
    cs := FindCandidates(entry);
    ghost var ds := entry.deltas;
    NoPairNoCandidate(ds);
    if |ds| >= 2 { StridesCount(ds, |ds| - 2); }
    forall v: nat | OnlyEarlierPair(ds, v) ensures AddsBack(entry.lastAddress, ds, v, cs) {
      OnlyPairCandidates(entry.lastAddress, ds, cs, v);
    }
  }

  method FindCandidates(entry: Entry) returns (cs: seq<Addr>)
    ensures RunningSums(entry.lastAddress, AllStrides(entry.deltas), cs)
  {
    hide Wrap, RunningSums, Backwards, Sum;
    cs := [];
    NoSums(entry.lastAddress);
    var ds := entry.deltas;
    if |ds| < 2 { return; }
    var d1, d2 := ds[|ds| - 1], ds[|ds| - 2];
    var address := entry.lastAddress;
    ghost var start := entry.lastAddress;
    ghost var done: seq<int> := [];
    var v := |ds| - 3;
    while v >= 0
      invariant -1 <= v <= |ds| - 3
      invariant done + Strides(ds, v + 1) == AllStrides(ds)
      invariant RunningSums(start, done, cs) && address == Wrap(start + Sum(done))
    {
      if ds[v + 1] == d1 && ds[v] == d2 {
        cs, address := AddStrides(ds, v, entry.lastAddress, done, cs, address);
        StridesStep(done, ds, v);
        done := done + Backwards(ds, v + 1);
      }
      v := v - 1;
    }
    assert done == AllStrides(ds);
  }

  lemma NoSums(start: Addr)
    ensures RunningSums(start, [], []) && Wrap(start + Sum([])) == start
  {
  }

  // ----- Blocks in flight -----

  datatype Event = Issue(addr: Addr) | Complete(addr: Addr)

  function NowOutstanding(o: set<Addr>, e: Event): set<Addr> {
    if e.Issue? then o + {ToBlock(e.addr)} else o - {ToBlock(e.addr)}
  }

  /** The blocks for which a prefetch has been issued and not completed. */
  function Outstanding(log: seq<Event>): set<Addr> {
    if log == [] then {}
    else NowOutstanding(Outstanding(log[..|log| - 1]), log[|log| - 1])
  }

  /** Prefetch number n of the log is in physical memory and for a block with none outstanding. */
  predicate GoodIssue(log: seq<Event>, n: nat)
    requires n < |log|
  {
    log[n].Issue? ==> log[n].addr <= MAX_PHYS_MEM_ADDR && ToBlock(log[n].addr) !in Outstanding(log[..n])
  }

  predicate GoodLog(log: seq<Event>) {
    forall n :: 0 <= n < |log| ==> GoodIssue(log, n)
  }

  predicate FlightOk(inFlight: set<Addr>, log: seq<Event>) {
    |inFlight| <= MAX_QUEUE_SIZE && Outstanding(log) <= inFlight && GoodLog(log)
  }

  lemma LogExtends(log: seq<Event>, e: Event)
    requires GoodLog(log)
    requires e.Issue? ==> e.addr <= MAX_PHYS_MEM_ADDR && ToBlock(e.addr) !in Outstanding(log)
    ensures GoodLog(log + [e])
    ensures Outstanding(log + [e]) == NowOutstanding(Outstanding(log), e)
  {
    var all := log + [e];
    assert all[..|log|] == log;
    forall n | 0 <= n < |all| ensures GoodIssue(all, n) {
      assert all[..n] == log[..n];
      if n < |log| { assert GoodIssue(log, n); }
    }
  }

  /** Blocks that a list of addresses lies in. */
  function Blocks(ps: seq<Addr>): set<Addr> {
    set i | 0 <= i < |ps| :: ToBlock(ps[i])
  }

  /** No two of the addresses lie in the same block. */
  predicate DistinctBlocks(ps: seq<Addr>) {
    forall i, j :: 0 <= i < j < |ps| ==> ToBlock(ps[i]) != ToBlock(ps[j])
  }

  /** Candidate number k may be reserved. */
  predicate Wanted(env: Env, inFlight: set<Addr>, k: nat, c: Addr) {
    c <= MAX_PHYS_MEM_ADDR && ToBlock(c) !in inFlight && k !in env.mshr && k !in env.cache
    && |inFlight| < MAX_QUEUE_SIZE
  }

  /** The candidates among the first n that get a place in the in-flight set. */
  function Reserved(env: Env, inFlight: set<Addr>, cs: seq<Addr>, n: nat): seq<Addr>
    requires n <= |cs|
  {
    if n == 0 then []
    else
      var rs := Reserved(env, inFlight, cs, n - 1);
      if Wanted(env, inFlight + Blocks(rs), n - 1, cs[n - 1]) then rs + [cs[n - 1]] else rs
  }

  /** How many of them remain once every candidate equal to last has emptied the list. */
  function Kept(env: Env, inFlight: set<Addr>, last: Addr, cs: seq<Addr>, n: nat): (k: nat)
    requires n <= |cs|
    ensures k <= |Reserved(env, inFlight, cs, n)|
  {
    if n == 0 || cs[n - 1] == last then 0
    else if Wanted(env, inFlight + Blocks(Reserved(env, inFlight, cs, n - 1)), n - 1, cs[n - 1]) then
      Kept(env, inFlight, last, cs, n - 1) + 1
    else Kept(env, inFlight, last, cs, n - 1)
  }

  lemma BlocksExtend(ps: seq<Addr>, p: Addr)
    ensures Blocks(ps + [p]) == Blocks(ps) + {ToBlock(p)}
  {
    forall b | b in Blocks(ps) + {ToBlock(p)} ensures b in Blocks(ps + [p]) {
      if b == ToBlock(p) {
        assert (ps + [p])[|ps|] == p;
      } else {
        var i :| 0 <= i < |ps| && ToBlock(ps[i]) == b;
        assert (ps + [p])[i] == ps[i];
      }
    }
  }

  predicate InMemory(ps: seq<Addr>) {
    forall i :: 0 <= i < |ps| ==> ps[i] <= MAX_PHYS_MEM_ADDR
  }

  lemma {:induction false} ReservedInMemory(env: Env, inFlight: set<Addr>, cs: seq<Addr>, n: nat)
    requires n <= |cs|
    ensures InMemory(Reserved(env, inFlight, cs, n))
  {
    if n > 0 { ReservedInMemory(env, inFlight, cs, n - 1); }
  }

  /** Reserved candidates are in blocks of their own and fit the queue. */
  lemma {:induction false} ReservedOk(env: Env, inFlight: set<Addr>, cs: seq<Addr>, n: nat)
    requires n <= |cs| && |inFlight| <= MAX_QUEUE_SIZE
    ensures var rs := Reserved(env, inFlight, cs, n);
      DistinctBlocks(rs) && Blocks(rs) !! inFlight && |inFlight + Blocks(rs)| <= MAX_QUEUE_SIZE
  {
    if n > 0 {
      ReservedOk(env, inFlight, cs, n - 1);
      var rs := Reserved(env, inFlight, cs, n - 1);
      if Wanted(env, inFlight + Blocks(rs), n - 1, cs[n - 1]) { OneMoreBlock(inFlight, rs, cs[n - 1]); }
    } else {
      assert Blocks([]) == {} && inFlight + {} == inFlight;
    }
  }

  /** A reservation is for a candidate that is neither in the cache nor in the miss queue, nor in flight. */
  lemma {:induction false} ReservedFor(env: Env, inFlight: set<Addr>, cs: seq<Addr>, n: nat, i: nat) returns (k: nat)
    requires n <= |cs| && i < |Reserved(env, inFlight, cs, n)|
    ensures k < n && cs[k] == Reserved(env, inFlight, cs, n)[i]
    ensures k !in env.mshr && k !in env.cache && cs[k] <= MAX_PHYS_MEM_ADDR && ToBlock(cs[k]) !in inFlight
  {
    hide ToBlock, Blocks;
    if i < |Reserved(env, inFlight, cs, n - 1)| {
      k := ReservedFor(env, inFlight, cs, n - 1, i);
    } else {
      k := n - 1;
    }
  }

  /** Every such candidate has its block in flight afterwards, unless the set is full. */
  lemma {:induction false} NoneForgotten(env: Env, inFlight: set<Addr>, cs: seq<Addr>, n: nat, k: nat)
    requires k < n <= |cs| && k !in env.mshr && k !in env.cache && cs[k] <= MAX_PHYS_MEM_ADDR
    ensures var f := inFlight + Blocks(Reserved(env, inFlight, cs, n));
      ToBlock(cs[k]) in f || |f| >= MAX_QUEUE_SIZE
  {
    hide ToBlock, Blocks;
    var rs := Reserved(env, inFlight, cs, n - 1);
    BlocksExtend(rs, cs[n - 1]);
    assert inFlight + (Blocks(rs) + {ToBlock(cs[n - 1])}) == inFlight + Blocks(rs) + {ToBlock(cs[n - 1])};
    if k < n - 1 {
      NoneForgotten(env, inFlight, cs, n - 1, k);
      Larger(inFlight + Blocks(rs), inFlight + Blocks(Reserved(env, inFlight, cs, n)));
    }
  }

  lemma {:induction false} Larger(s: set<Addr>, t: set<Addr>)
    requires s <= t
    ensures |s| <= |t|
    decreases |t|
  {
    if s != {} {
      var x :| x in s;
      Larger(s - {x}, t - {x});
    }
  }

  lemma AddOne(s: set<Addr>, b: Addr)
    ensures |s + {b}| <= |s| + 1
  {
    if b in s { assert s + {b} == s; }
  }

  lemma OneMoreBlock(inFlight: set<Addr>, rs: seq<Addr>, c: Addr)
    requires DistinctBlocks(rs) && Blocks(rs) !! inFlight && |inFlight + Blocks(rs)| < MAX_QUEUE_SIZE
    requires ToBlock(c) !in inFlight + Blocks(rs)
    ensures var all := rs + [c];
      DistinctBlocks(all) && Blocks(all) !! inFlight && |inFlight + Blocks(all)| <= MAX_QUEUE_SIZE
  {
    hide ToBlock;
    forall i | 0 <= i < |rs| ensures ToBlock(rs[i]) in Blocks(rs) {}
    BlocksExtend(rs, c);
    hide Blocks;
    AddOne(inFlight + Blocks(rs), ToBlock(c));
    assert inFlight + Blocks(rs + [c]) == inFlight + Blocks(rs) + {ToBlock(c)};
  }

  /** Between two prefetches of one block lies a completion of that block. */
  lemma {:induction false} CompletedBetween(log: seq<Event>, i: nat, j: nat) returns (k: nat)
    requires GoodLog(log) && i < j < |log| && log[i].Issue? && log[j].Issue?
    requires ToBlock(log[i].addr) == ToBlock(log[j].addr)
    ensures i < k < j && log[k].Complete? && ToBlock(log[k].addr) == ToBlock(log[i].addr)
  {
    var b := ToBlock(log[i].addr);
    hide ToBlock;
    assert GoodIssue(log, j);
    assert log[..i + 1][..i] == log[..i];
    assert b in Outstanding(log[..i + 1]);
    k := i + 1;
    while !(log[k].Complete? && ToBlock(log[k].addr) == b)
      invariant i < k <= j && b in Outstanding(log[..k])
      decreases j - k
    {
      assert log[..k + 1][..k] == log[..k];
      k := k + 1;
    }
  }

  /** No candidate equal to last comes with or after a reservation. */
  predicate NoneCleared(env: Env, inFlight: set<Addr>, last: Addr, cs: seq<Addr>, n: nat)
    requires n <= |cs|
  {
    forall i :: 0 <= i < n && cs[i] == last ==> Reserved(env, inFlight, cs, i + 1) == []
  }

  /** Nothing reserved is dropped exactly when no candidate equal to last comes with or after a reservation. */
  lemma {:induction false} KeptAll(env: Env, inFlight: set<Addr>, last: Addr, cs: seq<Addr>, n: nat)
    requires n <= |cs|
    ensures Kept(env, inFlight, last, cs, n) == |Reserved(env, inFlight, cs, n)| <==>
      NoneCleared(env, inFlight, last, cs, n)
  {
    hide Wanted;
    if n > 0 {
      KeptAll(env, inFlight, last, cs, n - 1);
      forall j | 0 < j <= n
        ensures Reserved(env, inFlight, cs, n) == [] ==> Reserved(env, inFlight, cs, j) == []
      {
        ReservedGrows(env, inFlight, cs, j, n);
      }
    }
  }

  lemma {:induction false} ReservedGrows(env: Env, inFlight: set<Addr>, cs: seq<Addr>, m: nat, n: nat)
    requires m <= n <= |cs|
    ensures |Reserved(env, inFlight, cs, m)| <= |Reserved(env, inFlight, cs, n)|
    decreases n - m
  {
    hide Wanted;
    if m < n { ReservedGrows(env, inFlight, cs, m, n - 1); }
  }

  /** A piece of the reservations covers their blocks only if it is all of them. */
  lemma PieceOfBlocks(inFlight: set<Addr>, rs: seq<Addr>, lo: nat, hi: nat)
    requires lo <= hi <= |rs| && DistinctBlocks(rs) && Blocks(rs) !! inFlight
    ensures inFlight + Blocks(rs[lo..hi]) == inFlight + Blocks(rs) <==> lo == 0 && hi == |rs|
  {
    var ps := rs[lo..hi];
    hide ToBlock;
    if lo > 0 || hi < |rs| {
      var i := if lo > 0 then 0 else |rs| - 1;
      assert ToBlock(rs[i]) in Blocks(rs);
      forall j | 0 <= j < |ps| ensures ToBlock(ps[j]) != ToBlock(rs[i]) { assert ps[j] == rs[lo + j]; }
      assert ToBlock(rs[i]) !in Blocks(ps);
    } else {
      assert ps == rs;
    }
  }

  /** What `delta_correlation` finds for an entry. */
  function Candidates(e: Entry): seq<Addr> {
    var s := AllStrides(e.deltas);
    seq(|s|, k requires 0 <= k < |s| => Wrap(e.lastAddress + Sum(s[..k + 1])))
  }

  lemma AreCandidates(e: Entry, cs: seq<Addr>)
    requires RunningSums(e.lastAddress, AllStrides(e.deltas), cs)
    ensures cs == Candidates(e)
  {
    hide AllStrides, Wrap, Sum;
  }

  predicate TableOk(table: seq<Entry>, trace: seq<Access>) {
    |table| == TABLE_SIZE && forall s :: 0 <= s < TABLE_SIZE ==> table[s] == Replay(trace, s)
  }

  lemma SlotIs(table: seq<Entry>, trace: seq<Access>, slot: nat)
    requires TableOk(table, trace) && slot < TABLE_SIZE
    ensures |table| == TABLE_SIZE && table[slot] == Replay(trace, slot)
  {
  }

  lemma TableUpdated(table: seq<Entry>, trace: seq<Access>, a: Access)
    requires TableOk(table, trace)
    ensures var slot := a.pc % TABLE_SIZE; TableOk(table[slot := Updated(table[slot], a)], trace + [a])
  {
    var slot := a.pc % TABLE_SIZE;
    hide Replay, Updated;
    SameSlot(trace, a, slot);
    forall s | 0 <= s < TABLE_SIZE && s != slot ensures Replay(trace + [a], s) == Replay(trace, s) {
      OtherSlot(trace, a, s);
    }
  }

  function Issues(ps: seq<Addr>): seq<Event> {
    seq(|ps|, i requires 0 <= i < |ps| => Issue(ps[i]))
  }

  /** The reserved candidates that are still on the list after the first n. */
  function Listed(env: Env, inFlight: set<Addr>, last: Addr, cs: seq<Addr>, n: nat): seq<Addr>
    requires n <= |cs|
  {
    var rs := Reserved(env, inFlight, cs, n);
    rs[|rs| - Kept(env, inFlight, last, cs, n)..]
  }

  /** The list holds exactly what was reserved behind the last candidate that equals last. */
  lemma {:induction false} ListedIs(env: Env, inFlight: set<Addr>, last: Addr, cs: seq<Addr>, n: nat, m: nat)
    requires m <= n <= |cs| && (m > 0 ==> cs[m - 1] == last) && forall i :: m <= i < n ==> cs[i] != last
    ensures |Reserved(env, inFlight, cs, m)| <= |Reserved(env, inFlight, cs, n)|
    ensures Listed(env, inFlight, last, cs, n)
            == Reserved(env, inFlight, cs, n)[|Reserved(env, inFlight, cs, m)|..]
  {
    hide Wanted;
    if m < n { ListedIs(env, inFlight, last, cs, n - 1, m); }
  }

  lemma FilterStart(env: Env, inFlight: set<Addr>, last: Addr, cs: seq<Addr>)
    ensures Listed(env, inFlight, last, cs, 0) == [] && inFlight + Blocks(Reserved(env, inFlight, cs, 0)) == inFlight
  {
    assert Blocks([]) == {} && inFlight + {} == inFlight;
  }

  lemma FilterStep(env: Env, inFlight: set<Addr>, last: Addr, cs: seq<Addr>, n: nat)
    requires n < |cs|
    ensures var f := inFlight + Blocks(Reserved(env, inFlight, cs, n));
      var ps, c := Listed(env, inFlight, last, cs, n), cs[n];
      && inFlight + Blocks(Reserved(env, inFlight, cs, n + 1)) == (if Wanted(env, f, n, c) then f + {ToBlock(c)} else f)
      && Listed(env, inFlight, last, cs, n + 1)
         == if c == last then [] else if Wanted(env, f, n, c) then ps + [c] else ps
  {
    var rs := Reserved(env, inFlight, cs, n);
    BlocksExtend(rs, cs[n]);
    hide Blocks, ToBlock, Wanted;
    assert inFlight + (Blocks(rs) + {ToBlock(cs[n])}) == inFlight + Blocks(rs) + {ToBlock(cs[n])};
  }

  /** The prefetches the entry of an access leads to, before the queue is consulted. */
  function Prefetches(env: Env, inFlight: set<Addr>, e: Entry): seq<Addr> {
    Listed(env, inFlight, e.lastPrefetch, Candidates(e), |Candidates(e)|)
  }

  /** Address p is that of a candidate which is neither in the cache nor in the miss queue, nor in flight. */
  predicate Missing(env: Env, inFlight: set<Addr>, cs: seq<Addr>, p: Addr) {
    p <= MAX_PHYS_MEM_ADDR && ToBlock(p) !in inFlight
    && exists k :: 0 <= k < |cs| && cs[k] == p && k !in env.mshr && k !in env.cache
  }

  lemma PrefetchesMissing(env: Env, inFlight: set<Addr>, e: Entry, i: nat)
    requires i < |Prefetches(env, inFlight, e)|
    ensures Missing(env, inFlight, Candidates(e), Prefetches(env, inFlight, e)[i])
  {
    hide Candidates, Reserved, Kept, ToBlock;
    var cs := Candidates(e);
    var rs := Reserved(env, inFlight, cs, |cs|);
    var skipped := |rs| - |Prefetches(env, inFlight, e)|;
    var k := ReservedFor(env, inFlight, cs, |cs|, skipped + i);
  }

  /** N of the prefetches are issued: up to the degree, as long as the queue has room. */
  predicate StopsAt(env: Env, ps: seq<Addr>, n: nat) {
    && n <= |ps| && n <= MAX_DEGREE
    && (forall i :: 0 <= i < n ==> i !in env.full)
    && (n < |ps| ==> n == MAX_DEGREE || n in env.full)
  }

  /** Where issuing stops: at the end, after the degree, or at the first full queue. */
  function StopAt(env: Env, ps: seq<Addr>, i: nat): (n: nat)
    requires i <= |ps|
    ensures i <= n <= |ps|
    decreases |ps| - i
  {
    if i == |ps| || i in env.full || i >= MAX_DEGREE then i else StopAt(env, ps, i + 1)
  }

  lemma {:induction false} StopIs(env: Env, ps: seq<Addr>, i: nat, n: nat)
    requires i <= n && StopsAt(env, ps, n)
    ensures StopAt(env, ps, i) == n
    decreases n - i
  {
    if i < n { StopIs(env, ps, i + 1, n); }
  }

  lemma {:induction false} StopHolds(env: Env, ps: seq<Addr>, i: nat)
    requires i <= |ps| && i <= MAX_DEGREE && forall k :: 0 <= k < i ==> k !in env.full
    ensures StopsAt(env, ps, StopAt(env, ps, i))
    decreases |ps| - i
  {
    if !(i == |ps| || i in env.full || i >= MAX_DEGREE) { StopHolds(env, ps, i + 1); }
  }

  // ----- The in-flight set and the log as a function of the run -----

  datatype Flight = Flight(inFlight: set<Addr>, log: seq<Event>)

  predicate FlightFine(f: Flight) { FlightOk(f.inFlight, f.log) }

  /** What an updated entry puts in flight and issues. */
  function Launched(f: Flight, u: Entry, env: Env): Flight {
    var cs := Candidates(u);
    var ps := Prefetches(env, f.inFlight, u);
    Flight(f.inFlight + Blocks(Reserved(env, f.inFlight, cs, |cs|)), f.log + Issues(ps[..StopAt(env, ps, 0)]))
  }

  /** What an access does that finds entry e in its slot. */
  function AfterAccess(f: Flight, e: Entry, a: Access, env: Env): Flight {
    if e.pc != a.pc || a.addr == e.lastAddress then f else Launched(f, Updated(e, a), env)
  }

  function AfterDone(f: Flight, addr: Addr): Flight {
    Flight(f.inFlight - {ToBlock(addr)}, f.log + [Event.Complete(addr)])
  }

  datatype Input = Demand(a: Access, env: Env) | Done(addr: Addr)

  function Demands(run: seq<Input>): seq<Access> {
    if run == [] then []
    else
      var last := run[|run| - 1];
      Demands(run[..|run| - 1]) + if last.Demand? then [last.a] else []
  }

  /** One more input after a run of accesses `trace`. */
  function Next(f: Flight, trace: seq<Access>, input: Input): Flight {
    match input
    case Demand(a, env) => AfterAccess(f, Replay(trace, a.pc % TABLE_SIZE), a, env)
    case Done(addr) => AfterDone(f, addr)
  }

  /** The blocks in flight and the log of prefetches and completions after a run. */
  function After(run: seq<Input>): Flight {
    if run == [] then Flight({}, [])
    else
      var before := run[..|run| - 1];
      Next(After(before), Demands(before), run[|run| - 1])
  }

  lemma AfterOneMore(run: seq<Input>, input: Input)
    ensures After(run + [input]) == Next(After(run), Demands(run), input)
    ensures Demands(run + [input]) == Demands(run) + if input.Demand? then [input.a] else []
  {
    assert (run + [input])[..|run|] == run;
  }

  lemma {:induction false} IssueMany(inFlight: set<Addr>, before: seq<Event>, ps: seq<Addr>, n: nat)
    requires n <= |ps| && InMemory(ps) && DistinctBlocks(ps) && FlightOk(inFlight, before)
    requires Blocks(ps) !! Outstanding(before) && Blocks(ps) <= inFlight
    ensures var log := before + Issues(ps[..n]);
      FlightOk(inFlight, log) && Outstanding(log) == Outstanding(before) + Blocks(ps[..n])
  {
    hide FlightOk, Outstanding, Blocks, Issues, InMemory, DistinctBlocks;
    if n == 0 {
      assert ps[..0] == [];
      NoIssues(before);
    } else {
      IssueMany(inFlight, before, ps, n - 1);
      IssueOne(inFlight, before, ps, n - 1);
    }
  }

  lemma LaunchedOk(f: Flight, u: Entry, env: Env)
    requires FlightFine(f)
    ensures FlightFine(Launched(f, u, env))
    ensures var ps := Prefetches(env, f.inFlight, u);
      Outstanding(Launched(f, u, env).log) == Outstanding(f.log) + Blocks(ps[..StopAt(env, ps, 0)])
  {
    var cs := Candidates(u);
    var rs := Reserved(env, f.inFlight, cs, |cs|);
    var ps := Prefetches(env, f.inFlight, u);
    TailOk(env, f.inFlight, cs, |rs| - |ps|);
    hide Candidates, Reserved, Kept, Outstanding, GoodLog, Blocks, ToBlock, Issues, StopAt, InMemory, DistinctBlocks;
    IssueMany(f.inFlight + Blocks(rs), f.log, ps, StopAt(env, ps, 0));
  }

  lemma NextOk(f: Flight, trace: seq<Access>, input: Input)
    requires FlightFine(f)
    ensures FlightFine(Next(f, trace, input))
  {
    match input {
      case Demand(a, env) =>
        hide FlightFine, Launched, Replay, Updated;
        var e := Replay(trace, a.pc % TABLE_SIZE);
        LaunchedOk(f, Updated(e, a), env);
      case Done(addr) =>
        hide ToBlock;
        LogExtends(f.log, Event.Complete(addr));
    }
  }

  /**
   * After every run, with any answers: at most 100 blocks in flight, every outstanding block among
   * them, and every prefetch in physical memory and for a block with none outstanding.
   */
  lemma {:induction false} RunOk(run: seq<Input>)
    ensures FlightFine(After(run))
  {
    hide Next;
    if run != [] {
      RunOk(run[..|run| - 1]);
      NextOk(After(run[..|run| - 1]), Demands(run[..|run| - 1]), run[|run| - 1]);
    }
  }

  /** Between two prefetches of one block in any run lies a completion of that block. */
  lemma RunCompletedBetween(run: seq<Input>, i: nat, j: nat) returns (k: nat)
    requires var log := After(run).log;
      i < j < |log| && log[i].Issue? && log[j].Issue? && ToBlock(log[i].addr) == ToBlock(log[j].addr)
    ensures var log := After(run).log;
      i < k < j && log[k].Complete? && ToBlock(log[k].addr) == ToBlock(log[i].addr)
  {
    RunOk(run);
    hide After, ToBlock;
    k := CompletedBetween(After(run).log, i, j);
  }

  // ----- Blocks that stay in flight without a prefetch -----

  /** Every reservation the entry leads to will be issued. */
  predicate IssuesAll(f: Flight, u: Entry, env: Env) {
    var cs := Candidates(u);
    var rs := Reserved(env, f.inFlight, cs, |cs|);
    && NoneCleared(env, f.inFlight, u.lastPrefetch, cs, |cs|)
    && |rs| <= MAX_DEGREE && RoomFor(env, |rs|)
  }

  predicate RoomFor(env: Env, n: nat) { forall i :: 0 <= i < n ==> i !in env.full }

  /**
   * If the blocks in flight are exactly the outstanding ones, an access leaves them so if and only
   * if no candidate equal to the last prefetch comes with or after a reservation, at most 19
   * candidates are reserved, and the queue has room for each of them.
   */
  lemma LeakFreeIff(f: Flight, u: Entry, env: Env)
    requires FlightFine(f) && f.inFlight == Outstanding(f.log)
    ensures var after := Launched(f, u, env);
      after.inFlight == Outstanding(after.log) <==> IssuesAll(f, u, env)
  {
    hide Candidates, Reserved, Kept, Blocks, Outstanding, GoodLog, Issues, StopAt, DistinctBlocks, NoneCleared, RoomFor;
    var cs := Candidates(u);
    var rs := Reserved(env, f.inFlight, cs, |cs|);
    var ps := Prefetches(env, f.inFlight, u);
    var n := StopAt(env, ps, 0);
    LaunchedOk(f, u, env);
    KeptAll(env, f.inFlight, u.lastPrefetch, cs, |cs|);
    ReservedOk(env, f.inFlight, cs, |cs|);
    StopsAtEnd(env, ps);
    var lo := |rs| - |ps|;
    assert ps[..n] == rs[lo..lo + n];
    PieceOfBlocks(f.inFlight, rs, lo, lo + n);
    assert lo == 0 ==> |ps| == |rs|;
  }

  lemma StopsAtEnd(env: Env, ps: seq<Addr>)
    ensures StopAt(env, ps, 0) == |ps| <==> |ps| <= MAX_DEGREE && RoomFor(env, |ps|)
  {
    StopHolds(env, ps, 0);
  }

  /** A cache, miss queue and prefetch queue that never object. */
  const WILLING := Env({}, {}, {})

  function Asks(addr: Addr): Input { Demand(Access(1, addr), WILLING) }

  /** One instruction walking down to address 64. */
  function Downward(): seq<Input> { [] + [Asks(256)] + [Asks(192)] + [Asks(128)] + [Asks(64)] }

  /** One step of the walk, from entry e to u. */
  lemma WalkStep(run: seq<Input>, addr: Addr, e: Entry, u: Entry)
    requires Replay(Demands(run), 1) == e && Updated(e, Access(1, addr)) == u
    ensures Replay(Demands(run + [Asks(addr)]), 1) == u
    ensures After(run + [Asks(addr)]) == AfterAccess(After(run), e, Access(1, addr), WILLING)
  {
    AfterOneMore(run, Asks(addr));
    SameSlot(Demands(run), Access(1, addr), 1);
    hide Replay, Demands, After, AfterAccess;
  }

  lemma WalkStart()
    ensures Replay(Demands([]), 1) == Entry(0, 0, 0, []) && After([]) == Flight({}, [])
  {
  }

  lemma WalkEntries()
    ensures Updated(Entry(0, 0, 0, []), Access(1, 256)) == Entry(1, 256, 0, [])
    ensures Updated(Entry(1, 256, 0, []), Access(1, 192)) == Entry(1, 192, 0, [-64])
    ensures Updated(Entry(1, 192, 0, [-64]), Access(1, 128)) == Entry(1, 128, 0, [-64, -64])
    ensures Updated(Entry(1, 128, 0, [-64, -64]), Access(1, 64)) == Entry(1, 64, 0, [-64, -64, -64])
  {
    DifferenceExact(192, 256);
    DifferenceExact(128, 192);
    DifferenceExact(64, 128);
    hide Difference;
  }

  lemma DownwardCandidates()
    ensures Candidates(Entry(1, 128, 0, [-64, -64])) == [] && Candidates(Entry(1, 192, 0, [-64])) == []
    ensures Candidates(Entry(1, 64, 0, [-64, -64, -64])) == [0]
  {
    var ds := [-64, -64, -64];
    assert Match(ds, 0) && Backwards(ds, 0) == [] && Strides(ds, 0) == [];
    assert AllStrides(ds) == [-64] && [-64][..1] == [-64] && [-64][..0] == [];
    assert Sum([]) == 0 && Sum([-64]) == -64;
    var found := Candidates(Entry(1, 64, 0, ds));
    assert |found| == 1 && found[0] == Wrap(64 + Sum([-64][..1])) == 0;
  }

  lemma NoCandidates(f: Flight, u: Entry, env: Env)
    requires Candidates(u) == []
    ensures Launched(f, u, env) == f
  {
    NoIssues(f.log);
    hide Candidates, Issues;
    assert f.inFlight + {} == f.inFlight;
  }

  lemma ZeroDropped(u: Entry)
    requires Candidates(u) == [0] && u.lastPrefetch == 0
    ensures Launched(Flight({}, []), u, WILLING) == Flight({0}, [])
  {
    hide Candidates;
    var cs: seq<Addr> := [0];
    assert Blocks([]) == {} && Reserved(WILLING, {}, cs, 0) == [];
    assert Reserved(WILLING, {}, cs, 1) == [0];
    BlocksExtend([], 0);
    assert [] + [0] == cs && Blocks(cs) == {0};
    assert Prefetches(WILLING, {}, u) == [];
    NoIssues([]);
  }

  /**
   * Walking down to 64 makes 0 a candidate.  It is reserved and then dropped, because it equals the
   * last prefetch that no entry ever records: block 0 is in flight with nothing outstanding.
   */
  lemma ReservedButDropped()
    ensures After(Downward()) == Flight({0}, []) && Outstanding(After(Downward()).log) == {}
  {
    hide Replay, Demands, Candidates, Updated, After, ToBlock, Difference, Launched, Asks;
    WalkStart();
    WalkEntries();
    DownwardCandidates();
    var none := Flight({}, []);
    var e1, e2 := Entry(1, 256, 0, []), Entry(1, 192, 0, [-64]);
    var e3, e4 := Entry(1, 128, 0, [-64, -64]), Entry(1, 64, 0, [-64, -64, -64]);
    NoCandidates(none, e2, WILLING);
    NoCandidates(none, e3, WILLING);
    ZeroDropped(e4);
    WalkStep([], 256, Entry(0, 0, 0, []), e1);
    var r1 := [] + [Asks(256)];
    WalkStep(r1, 192, e1, e2);
    WalkStep(r1 + [Asks(192)], 128, e2, e3);
    WalkStep(r1 + [Asks(192)] + [Asks(128)], 64, e3, e4);
  }

  /** With 100 blocks in flight no access changes anything. */
  lemma FullIssuesNothing(f: Flight, u: Entry, env: Env)
    requires |f.inFlight| >= MAX_QUEUE_SIZE
    ensures Launched(f, u, env) == f
  {
    var cs := Candidates(u);
    NothingReserved(env, f.inFlight, cs, |cs|);
    NoIssues(f.log);
    hide Candidates, Issues, Blocks, Reserved;
    var ps := Prefetches(env, f.inFlight, u);
    assert ps == [] && ps[..StopAt(env, ps, 0)] == [];
    assert f.inFlight + Blocks([]) == f.inFlight;
  }

  lemma {:induction false} NothingReserved(env: Env, inFlight: set<Addr>, cs: seq<Addr>, n: nat)
    requires n <= |cs| && |inFlight| >= MAX_QUEUE_SIZE
    ensures Reserved(env, inFlight, cs, n) == []
  {
    if n > 0 {
      NothingReserved(env, inFlight, cs, n - 1);
      assert inFlight + Blocks([]) == inFlight;
    }
  }

  predicate Mentions(run: seq<Input>, b: Addr) {
    exists i :: 0 <= i < |run| && run[i].Done? && ToBlock(run[i].addr) == b
  }

  /** A block in flight, issued or not, stays so until a completion for it arrives. */
  lemma {:induction false} StaysInFlight(run: seq<Input>, rest: seq<Input>, b: Addr)
    requires b in After(run).inFlight && !Mentions(rest, b)
    ensures b in After(run + rest).inFlight
  {
    hide ToBlock, Replay, Candidates, Reserved, Prefetches, StopAt, Issues;
    if rest == [] {
      assert run + rest == run;
    } else {
      var front, last := rest[..|rest| - 1], rest[|rest| - 1];
      assert run + rest == run + front + [last];
      assert last == rest[|rest| - 1];
      assert forall i :: 0 <= i < |front| ==> front[i] == rest[i];
      StaysInFlight(run, front, b);
      AfterOneMore(run + front, last);
    }
  }

  /** Once 100 blocks are in flight, nothing is ever issued until something completes. */
  lemma {:induction false} Starves(run: seq<Input>, rest: seq<Input>)
    requires |After(run).inFlight| >= MAX_QUEUE_SIZE && forall i :: 0 <= i < |rest| ==> rest[i].Demand?
    ensures After(run + rest) == After(run)
  {
    hide Launched, Replay, Updated, After;
    if rest == [] {
      assert run + rest == run;
    } else {
      var front, last := rest[..|rest| - 1], rest[|rest| - 1];
      assert run + rest == run + front + [last];
      Starves(run, front);
      AfterOneMore(run + front, last);
      FullIssuesNothing(After(run), Updated(Replay(Demands(run + front), last.a.pc % TABLE_SIZE), last.a), last.env);
    }
  }

  lemma NoIssues(log: seq<Event>)
    ensures log + Issues([]) == log && Blocks([]) == {} && Outstanding(log) + Blocks([]) == Outstanding(log)
  {
  }

  lemma ReplayBlank(trace: seq<Access>, slot: nat)
    ensures Replay(trace, slot).lastPrefetch == 0
  {
  }

  lemma ReplayShort(trace: seq<Access>, slot: nat)
    ensures |Replay(trace, slot).deltas| <= NUM_DELTAS
  {
    hide Deltas, Tenure;
  }

  lemma FrontBlocks(ps: seq<Addr>, n: nat)
    requires n <= |ps|
    ensures Blocks(ps[..n]) <= Blocks(ps)
  {
    hide ToBlock;
    forall b | b in Blocks(ps[..n]) ensures b in Blocks(ps) {
      var i :| 0 <= i < n && ToBlock(ps[..n][i]) == b;
      assert ps[..n][i] == ps[i];
    }
  }

  lemma IssueOne(inFlight: set<Addr>, before: seq<Event>, ps: seq<Addr>, n: nat)
    requires n < |ps| && InMemory(ps) && DistinctBlocks(ps)
    requires Blocks(ps) !! Outstanding(before) && Blocks(ps) <= inFlight
    requires var log := before + Issues(ps[..n]);
      FlightOk(inFlight, log) && Outstanding(log) == Outstanding(before) + Blocks(ps[..n])
    ensures var log := before + Issues(ps[..n + 1]);
      && log == before + Issues(ps[..n]) + [Issue(ps[n])]
      && FlightOk(inFlight, log) && Outstanding(log) == Outstanding(before) + Blocks(ps[..n + 1])
  {
    hide ToBlock, Outstanding, GoodLog;
    var log := before + Issues(ps[..n]);
    assert ps[..n + 1] == ps[..n] + [ps[n]];
    assert Issues(ps[..n + 1]) == Issues(ps[..n]) + [Issue(ps[n])];
    assert ToBlock(ps[n]) in Blocks(ps);
    BlocksExtend(ps[..n], ps[n]);
    assert ToBlock(ps[n]) !in Blocks(ps[..n]);
    hide Blocks, Issues;
    LogExtends(log, Issue(ps[n]));
    assert before + Issues(ps[..n + 1]) == log + [Issue(ps[n])];
  }

  /** A tail of the reservations has the properties needed to issue it. */
  lemma TailOk(env: Env, inFlight: set<Addr>, cs: seq<Addr>, k: nat)
    requires |inFlight| <= MAX_QUEUE_SIZE && k <= |Reserved(env, inFlight, cs, |cs|)|
    ensures var rs := Reserved(env, inFlight, cs, |cs|);
      && InMemory(rs[k..]) && DistinctBlocks(rs[k..]) && Blocks(rs[k..]) <= Blocks(rs)
      && Blocks(rs) !! inFlight && |inFlight + Blocks(rs)| <= MAX_QUEUE_SIZE
  {
    ReservedOk(env, inFlight, cs, |cs|);
    ReservedInMemory(env, inFlight, cs, |cs|);
    SubBlocks(Reserved(env, inFlight, cs, |cs|), k);
  }

  lemma SubBlocks(rs: seq<Addr>, k: nat)
    requires k <= |rs|
    ensures Blocks(rs[k..]) <= Blocks(rs)
  {
    hide ToBlock;
    forall b | b in Blocks(rs[k..]) ensures b in Blocks(rs) {
      var i :| 0 <= i < |rs[k..]| && ToBlock(rs[k..][i]) == b;
      assert rs[k..][i] == rs[k + i];
    }
  }

  class Dcpt {
    const table: array<Entry>
    var inFlight: set<Addr>
    ghost var trace: seq<Access>
    ghost var log: seq<Event>

    ghost predicate Valid()
      reads this, table
    {
      TableOk(table[..], trace) && FlightOk(inFlight, log)
    }

    constructor ()
      ensures Valid() && fresh(table) && trace == [] && log == [] && inFlight == {}
    {
      table := new Entry[TABLE_SIZE](i => Entry(0, 0, 0, []));
      inFlight, trace, log := {}, [], [];
    }

    /** `Entry::insert_delta` */
    method InsertDelta(slot: nat, delta: int)
      requires slot < table.Length && |table[slot].deltas| <= NUM_DELTAS
      modifies table
      ensures table[..] == old(table[..])[slot := old(table[slot]).(deltas := Inserted(old(table[slot].deltas), delta))]
    {
      if delta < DELTA_MIN || delta > DELTA_MAX { return; }
      var deltas := table[slot].deltas + [delta];
      if |deltas| > NUM_DELTAS { deltas := deltas[1..]; }
      table[slot] := table[slot].(deltas := deltas);
    }

    /** `prefetch_filter` */
    method PrefetchFilter(entry: Entry, cs: seq<Addr>, env: Env) returns (ps: seq<Addr>)
      modifies `inFlight
      ensures inFlight == old(inFlight) + Blocks(Reserved(env, old(inFlight), cs, |cs|))
      ensures ps == Listed(env, old(inFlight), entry.lastPrefetch, cs, |cs|)
    {
      hide Reserved, Listed, Blocks, ToBlock;
      ghost var f := inFlight;
      ps := [];
      FilterStart(env, f, entry.lastPrefetch, cs);
      for i := 0 to |cs|
        invariant inFlight == f + Blocks(Reserved(env, f, cs, i))
        invariant ps == Listed(env, f, entry.lastPrefetch, cs, i)
      {
        var c := cs[i];
        FilterStep(env, f, entry.lastPrefetch, cs, i);
        if c <= MAX_PHYS_MEM_ADDR && ToBlock(c) !in inFlight && i !in env.mshr && i !in env.cache {
          if |inFlight| < MAX_QUEUE_SIZE {
            ps := ps + [c];
            inFlight := inFlight + {ToBlock(c)};
          }
        }
        if c == entry.lastPrefetch { ps := []; }
      }
    }

    /** `issue_prefetches` */
    method IssuePrefetches(ps: seq<Addr>, env: Env) returns (n: nat)
      requires FlightOk(inFlight, log) && InMemory(ps) && DistinctBlocks(ps)
      requires Blocks(ps) !! Outstanding(log) && Blocks(ps) <= inFlight
      modifies `log
      ensures StopsAt(env, ps, n) && log == old(log) + Issues(ps[..n])
      ensures FlightOk(inFlight, log) && Outstanding(log) == Outstanding(old(log)) + Blocks(ps[..n])
    {
      hide Outstanding, Blocks, FlightOk, InMemory, DistinctBlocks, Issues;
      n := 0;
      assert ps[..0] == [];
      NoIssues(log);
      while n < |ps|
        invariant n <= |ps| && n <= MAX_DEGREE && forall i :: 0 <= i < n ==> i !in env.full
        invariant log == old(log) + Issues(ps[..n])
        invariant FlightOk(inFlight, log) && Outstanding(log) == Outstanding(old(log)) + Blocks(ps[..n])
      {
        if n in env.full || n >= MAX_DEGREE { break; }
        IssueOne(inFlight, old(log), ps, n);
        log := log + [Issue(ps[n])];
        n := n + 1;
      }
    }

    /** The prefetching part of `prefetch_access`. */
    method Prefetch(entry: Entry, env: Env) returns (issued: seq<Addr>)
      requires FlightOk(inFlight, log)
      modifies `inFlight, `log
      ensures FlightOk(inFlight, log) && log == old(log) + Issues(issued)
      ensures var ps := Prefetches(env, old(inFlight), entry); issued <= ps && StopsAt(env, ps, |issued|)
      ensures InMemory(issued) && DistinctBlocks(issued) && Blocks(issued) !! Outstanding(old(log))
      ensures Flight(inFlight, log) == Launched(Flight(old(inFlight), old(log)), entry, env)
      ensures forall i :: 0 <= i < |issued| ==> Missing(env, old(inFlight), Candidates(entry), issued[i])
    {
      hide Missing, GoodLog, Outstanding, ToBlock, Blocks, Reserved, Kept, Candidates, Issues, Wanted;
      var cs := DeltaCorrelation(entry);
      AreCandidates(entry, cs);
      var ps := PrefetchFilter(entry, cs, env);
      ghost var rs := Reserved(env, old(inFlight), cs, |cs|);
      TailOk(env, old(inFlight), cs, |rs| - |ps|);
      var n := IssuePrefetches(ps, env);
      issued := ps[..n];
      FrontBlocks(ps, n);
      StopIs(env, ps, 0, n);
      forall i | 0 <= i < |issued| ensures Missing(env, old(inFlight), Candidates(entry), issued[i]) {
        PrefetchesMissing(env, old(inFlight), entry, i);
      }
    }

    /** `prefetch_access` */
    method Access(a: Access, env: Env) returns (issued: seq<Addr>)
      requires Valid()
      modifies this, table
      ensures Valid() && trace == old(trace) + [a] && log == old(log) + Issues(issued)
      ensures |issued| <= MAX_DEGREE && InMemory(issued) && DistinctBlocks(issued)
      ensures Blocks(issued) !! Outstanding(old(log))
      ensures Flight(inFlight, log)
              == AfterAccess(Flight(old(inFlight), old(log)), old(table[a.pc % TABLE_SIZE]), a, env)
      ensures var slot := a.pc % TABLE_SIZE;
        var e, u := old(table[slot]), table[slot];
        && table[..] == old(table[..])[slot := u] && u.pc == a.pc && u.lastAddress == a.addr && u.lastPrefetch == 0
        && (e.pc != a.pc ==> u.deltas == [])
        && (e.pc == a.pc && e.lastAddress == a.addr ==> u == e)
        && (e.pc == a.pc && e.lastAddress != a.addr ==>
              u.deltas == if Representable(Difference(a.addr, e.lastAddress))
                          then Lasts(e.deltas + [Difference(a.addr, e.lastAddress)], NUM_DELTAS) else e.deltas)
        && (e.pc != a.pc || e.lastAddress == a.addr ==> issued == [] && inFlight == old(inFlight))
        && (forall i :: 0 <= i < |issued| ==> Missing(env, old(inFlight), Candidates(u), issued[i]))
    {
      ReplayBlank(trace, a.pc % TABLE_SIZE);
      hide Missing, Candidates, Representable, Lasts, FlightOk, Outstanding, Blocks, ToBlock, Prefetches, Issues;
      hide Replay, Difference, Launched;
      issued := [];
      NoIssues(log);
      ghost var slots := table[..];
      var slot := a.pc % TABLE_SIZE;
      ReplayShort(trace, slot);
      TableUpdated(slots, trace, a);
      trace := trace + [a];
      if table[slot].pc != a.pc {
        table[slot] := Entry(a.pc, a.addr, 0, []);
        assert table[..] == slots[slot := Updated(slots[slot], a)];
      } else if a.addr != table[slot].lastAddress {
        InsertDelta(slot, Difference(a.addr, table[slot].lastAddress));
        table[slot] := table[slot].(lastAddress := a.addr);
        assert table[..] == slots[slot := Updated(slots[slot], a)];
        issued := Prefetch(table[slot], env);
      } else {
        assert table[..] == slots[slot := Updated(slots[slot], a)];
      }
    }

    /** `prefetch_complete` */
    method Complete(addr: Addr)
      requires Valid()
      modifies `inFlight, `log
      ensures Valid() && Flight(inFlight, log) == AfterDone(Flight(old(inFlight), old(log)), addr)
      ensures trace == old(trace) && table[..] == old(table[..])
    {
      hide TableOk, ToBlock;
      LogExtends(log, Event.Complete(addr));
      inFlight := inFlight - {ToBlock(addr)};
      log := log + [Event.Complete(addr)];
    }
  }

  // ----- Whole runs -----

  /** One input more, after the run `before`. */
  method PlayOne(p: Dcpt, ghost before: seq<Input>, input: Input)
    requires p.Valid() && p.trace == Demands(before) && Flight(p.inFlight, p.log) == After(before)
    modifies p, p.table
    ensures p.Valid() && p.trace == Demands(before + [input])
    ensures Flight(p.inFlight, p.log) == After(before + [input])
  {
    hide FlightOk, TableOk, After, AfterAccess, AfterDone, Demands, Replay, Outstanding, Blocks, Issues;
    hide InMemory, DistinctBlocks;
    AfterOneMore(before, input);
    match input {
      case Demand(a, env) =>
        SlotIs(p.table[..], p.trace, a.pc % TABLE_SIZE);
        var issued := p.Access(a, env);
      case Done(addr) => p.Complete(addr);
    }
  }

  /** Any run of accesses and completions, with any answers, from the start. */
  method Play(run: seq<Input>) returns (p: Dcpt)
    ensures fresh(p) && fresh(p.table) && p.Valid() && p.trace == Demands(run)
    ensures Flight(p.inFlight, p.log) == After(run)
  {
    hide FlightOk, TableOk, Next;
    p := new Dcpt();
    assert run[..0] == [];
    for i := 0 to |run|
      invariant fresh(p) && fresh(p.table) && p.Valid() && p.trace == Demands(run[..i])
      invariant Flight(p.inFlight, p.log) == After(run[..i])
    {
      assert run[..i + 1] == run[..i] + [run[i]];
      PlayOne(p, run[..i], run[i]);
    }
    assert run[..|run|] == run;
  }
}
