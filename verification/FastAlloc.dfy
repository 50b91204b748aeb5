/**
 FastAlloc: one free list per size class, threaded through the free blocks
 themselves, refilled twenty blocks at a time.

 Memory holds eight-byte words.  `mem[a]` is the word last stored at address `a`;
 a store into any overlapping byte makes the word unknown (its key disappears).
 The system allocator and the client are outside the model: the address that
 `::new` would return is a parameter, and the client may overwrite live blocks.
 */
module FastAlloc {

  const MAX_ALLOC_SIZE: nat := 512
  const ALLOC_QUANTUM: nat := 8
  const NUM_BUCKETS: nat := 65
  const STRUCTS_PER_NEW: nat := 20
  const UNSIGNED_LIMIT: nat := 0x1_0000_0000

  type Memory = map<int, int>

  datatype Option<+T> = None | Some(value: T)

  /** The bucket holds blocks of 8 * b bytes: the smallest multiple of the quantum that fits. */
  function BucketFor(sz: nat): (b: nat)
    ensures sz <= ALLOC_QUANTUM * b < sz + ALLOC_QUANTUM
    ensures sz <= MAX_ALLOC_SIZE <==> b < NUM_BUCKETS
  {
    (sz + ALLOC_QUANTUM - 1) / ALLOC_QUANTUM
  }

  /** Forgets every word that shares a byte with [lo, hi). */
  function Clobber(mem: Memory, lo: int, hi: int): Memory {
    map a | a in mem && (a + ALLOC_QUANTUM <= lo || hi <= a) :: mem[a]
  }

  /** Stores a pointer at address `a`. */
  function Store(mem: Memory, a: int, v: int): Memory {
    Clobber(mem, a, a + ALLOC_QUANTUM)[a := v]
  }

  // ----- The reference allocator: who owns which bytes -----

  /**
   `owned` gives the bucket of every block ever carved, `live` the blocks clients hold,
   `free[b]` the free blocks of bucket b with the next one to hand out in front,
   `refills[b]` how often bucket b was refilled, and `big` the sizes of the live
   blocks that came straight from the system.
   */
  datatype Books = Books(owned: map<int, nat>, live: set<int>, free: seq<seq<int>>,
                         refills: seq<nat>, big: map<int, nat>)

  const EMPTY_BOOKS: Books :=
    Books(map[], {}, seq(NUM_BUCKETS, _ => []), seq(NUM_BUCKETS, _ => 0), map[])

  ghost predicate Apart(p: int, pBytes: int, q: int, qBytes: int) {
    p + pBytes <= q || q + qBytes <= p
  }

  ghost predicate Distinct(xs: seq<int>) {
    forall i, j :: 0 <= i < j < |xs| ==> xs[i] != xs[j]
  }

  ghost predicate OwnedApart(owned: map<int, nat>) {
    forall p, q :: p in owned && q in owned && p != q ==>
      Apart(p, ALLOC_QUANTUM * owned[p], q, ALLOC_QUANTUM * owned[q])
  }

  ghost predicate BigApart(books: Books) {
    && (forall p, q :: p in books.big && q in books.owned ==>
          Apart(p, books.big[p], q, ALLOC_QUANTUM * books.owned[q]))
    && (forall p, q :: p in books.big && q in books.big && p != q ==>
          Apart(p, books.big[p], q, books.big[q]))
  }

  /** Every free entry is a carved, non-live block of its own bucket, listed once. */
  ghost predicate FreeListed(books: Books)
    requires |books.free| == NUM_BUCKETS
  {
    forall b :: 0 <= b < NUM_BUCKETS ==>
      && Distinct(books.free[b])
      && forall x :: x in books.free[b] ==>
           x in books.owned && books.owned[x] == b && x !in books.live
  }

  /** A carved block that is not live is in the free list of its bucket. */
  ghost predicate NoneLost(books: Books) {
    forall p :: p in books.owned && p !in books.live ==>
      books.owned[p] < |books.free| && p in books.free[books.owned[p]]
  }

  function OfBucket(owned: map<int, nat>, b: nat): set<int> {
    set p | p in owned && owned[p] == b
  }

  function LiveOf(books: Books, b: nat): set<int> {
    set p | p in books.live && p in books.owned && books.owned[p] == b
  }

  ghost predicate BooksOk(books: Books) {
    && |books.free| == NUM_BUCKETS && |books.refills| == NUM_BUCKETS
    && (forall p :: p in books.owned ==> p > 0 && 0 < books.owned[p] < NUM_BUCKETS)
    && books.live <= books.owned.Keys
    && OwnedApart(books.owned)
    && BigApart(books)
    && FreeListed(books)
    && NoneLost(books)
    && forall b :: 0 <= b < NUM_BUCKETS ==>
         |OfBucket(books.owned, b)| == STRUCTS_PER_NEW * books.refills[b]
  }

  /** What `::new` promises: [chunk, chunk + bytes) touches nothing handed out before. */
  ghost predicate Unused(books: Books, chunk: int, bytes: nat) {
    && chunk > 0
    && (forall q :: q in books.owned ==> Apart(chunk, bytes, q, ALLOC_QUANTUM * books.owned[q]))
    && (forall q :: q in books.big ==> q != chunk && Apart(chunk, bytes, q, books.big[q]))
  }

  /** How many bytes `allocate(sz)` asks the system for; zero when it does not ask. */
  function SystemBytes(books: Books, sz: nat): nat
    requires |books.free| == NUM_BUCKETS
  {
    if sz > MAX_ALLOC_SIZE then sz
    else if books.free[BucketFor(sz)] == [] then STRUCTS_PER_NEW * (ALLOC_QUANTUM * BucketFor(sz))
    else 0
  }

  /** Block i of a chunk of blocks of `bytes` bytes. */
  function Slot(chunk: int, bytes: nat, i: int): int {
    chunk + i * bytes
  }

  function Slots(chunk: int, bytes: nat, n: nat): (slots: seq<int>)
    ensures |slots| == n
  {
    seq(n, i => Slot(chunk, bytes, i))
  }

  function Carve(owned: map<int, nat>, slots: seq<int>, b: nat): map<int, nat> {
    owned + map p | p in slots :: b
  }

  function TakeFree(books: Books, b: nat): Books
    requires |books.free| == NUM_BUCKETS && b < NUM_BUCKETS && books.free[b] != []
  {
    books.(live := books.live + {books.free[b][0]},
           free := books.free[b := books.free[b][1..]])
  }

  /** The last block of the chunk goes to the client, the others to the free list. */
  function Refill(books: Books, b: nat, chunk: int): Books
    requires |books.free| == |books.refills| == NUM_BUCKETS && b < NUM_BUCKETS
  {
    var bytes := ALLOC_QUANTUM * b;
    books.(owned := Carve(books.owned, Slots(chunk, bytes, STRUCTS_PER_NEW), b),
           live := books.live + {Slot(chunk, bytes, STRUCTS_PER_NEW - 1)},
           free := books.free[b := Slots(chunk, bytes, STRUCTS_PER_NEW - 1)],
           refills := books.refills[b := books.refills[b] + 1])
  }

  function TakeBlock(books: Books, b: nat, chunk: int): Books
    requires |books.free| == |books.refills| == NUM_BUCKETS && b < NUM_BUCKETS
  {
    if books.free[b] != [] then TakeFree(books, b) else Refill(books, b, chunk)
  }

  function GiveBack(books: Books, p: int, b: nat): Books
    requires |books.free| == NUM_BUCKETS && b < NUM_BUCKETS
  {
    books.(live := books.live - {p}, free := books.free[b := [p] + books.free[b]])
  }

  lemma TakeFreeOk(books: Books, b: nat)
    requires BooksOk(books) && b < NUM_BUCKETS && books.free[b] != []
    ensures BooksOk(TakeFree(books, b))
  {
    var p := books.free[b][0];
    var after := TakeFree(books, b);
    assert p in books.free[b];
    forall x | x in after.free[b]
      ensures x in books.free[b] && x != p
    {
      var i :| 0 <= i < |after.free[b]| && after.free[b][i] == x;
      assert books.free[b][i + 1] == x;
    }
    forall q | q in after.owned && q !in after.live
      ensures q in after.free[after.owned[q]]
    {
      var c := books.owned[q];
      if c == b {
        var i :| 0 <= i < |books.free[b]| && books.free[b][i] == q;
        assert after.free[b][i - 1] == q;
      }
    }
  }

  lemma GiveBackOk(books: Books, p: int)
    requires BooksOk(books) && p in books.live
    ensures BooksOk(GiveBack(books, p, books.owned[p]))
  {
    var b := books.owned[p];
    var after := GiveBack(books, p, b);
    assert p !in books.free[b];
    forall x | x in after.free[b]
      ensures x == p || x in books.free[b]
    {
    }
  }

  lemma SlotNext(chunk: int, bytes: nat, i: int)
    ensures Slot(chunk, bytes, i) + bytes == Slot(chunk, bytes, i + 1)
  {
  }

  lemma {:induction false} SlotApart(chunk: int, bytes: nat, i: int, j: int)
    requires 0 <= i < j
    ensures Slot(chunk, bytes, i) + bytes <= Slot(chunk, bytes, j)
  {
    SlotNext(chunk, bytes, j - 1);
    if i < j - 1 { SlotApart(chunk, bytes, i, j - 1); }
  }

  lemma SlotsDistinct(chunk: int, bytes: nat, n: nat)
    requires bytes > 0
    ensures Distinct(Slots(chunk, bytes, n))
  {
    forall i, j | 0 <= i < j < n
      ensures Slots(chunk, bytes, n)[i] != Slots(chunk, bytes, n)[j]
    {
      SlotApart(chunk, bytes, i, j);
    }
  }

  lemma SlotsPrefix(chunk: int, bytes: nat, n: nat)
    ensures Slots(chunk, bytes, n + 1) == Slots(chunk, bytes, n) + [Slot(chunk, bytes, n)]
  {
  }

  lemma SlotInChunk(chunk: int, bytes: nat, n: nat, i: int)
    requires 0 <= i < n
    ensures chunk <= Slot(chunk, bytes, i) && Slot(chunk, bytes, i) + bytes <= chunk + n * bytes
  {
    SlotApart(chunk, bytes, i, n);
    assert i * bytes >= 0;
  }

  function Elements(xs: seq<int>): set<int> {
    set x | x in xs
  }

  lemma {:induction false} ElementsCount(xs: seq<int>)
    requires Distinct(xs)
    ensures |Elements(xs)| == |xs|
  {
    if xs == [] {
      assert Elements(xs) == {};
    } else {
      var last := |xs| - 1;
      ElementsCount(xs[..last]);
      assert xs == xs[..last] + [xs[last]];
      assert Elements(xs) == Elements(xs[..last]) + {xs[last]};
    }
  }

  lemma CarveBucket(owned: map<int, nat>, slots: seq<int>, b: nat, c: nat)
    requires forall p :: p in slots ==> p !in owned
    ensures OfBucket(Carve(owned, slots, b), c)
            == OfBucket(owned, c) + if c == b then Elements(slots) else {}
  {
    var carved := Carve(owned, slots, b);
    var parts := OfBucket(owned, c) + if c == b then Elements(slots) else {};
    forall p
      ensures p in OfBucket(carved, c) <==> p in parts
    {
      assert p in carved <==> p in owned || p in slots;
    }
  }

  lemma CarveCount(owned: map<int, nat>, slots: seq<int>, b: nat, c: nat)
    requires Distinct(slots)
    requires forall p :: p in slots ==> p !in owned
    ensures |OfBucket(Carve(owned, slots, b), c)|
            == |OfBucket(owned, c)| + if c == b then |slots| else 0
  {
    CarveBucket(owned, slots, b, c);
    ElementsCount(slots);
    assert OfBucket(owned, c) !! Elements(slots);
  }

  lemma SlotsApart(chunk: int, bytes: nat, n: nat, p: int, q: int)
    requires p in Slots(chunk, bytes, n) && q in Slots(chunk, bytes, n) && p != q
    ensures Apart(p, bytes, q, bytes)
  {
    var i :| 0 <= i < n && Slots(chunk, bytes, n)[i] == p;
    var j :| 0 <= j < n && Slots(chunk, bytes, n)[j] == q;
    if i < j { SlotApart(chunk, bytes, i, j); } else { SlotApart(chunk, bytes, j, i); }
  }

  /** The slots of an unused chunk lie apart from everything handed out before. */
  lemma SlotsUnused(books: Books, b: nat, chunk: int)
    requires 0 < b
    requires Unused(books, chunk, STRUCTS_PER_NEW * (ALLOC_QUANTUM * b))
    ensures forall p :: p in Slots(chunk, ALLOC_QUANTUM * b, STRUCTS_PER_NEW) ==>
              p > 0 && Unused(books, p, ALLOC_QUANTUM * b)
  {
    var bytes := ALLOC_QUANTUM * b;
    var slots := Slots(chunk, bytes, STRUCTS_PER_NEW);
    forall p | p in slots
      ensures p > 0 && Unused(books, p, bytes)
    {
      var i :| 0 <= i < STRUCTS_PER_NEW && slots[i] == p;
      SlotInChunk(chunk, bytes, STRUCTS_PER_NEW, i);
    }
  }

  lemma CarveOk(books: Books, slots: seq<int>, b: nat)
    requires OwnedApart(books.owned) && BigApart(books) && 0 < b
    requires forall p :: p in books.owned ==> 0 < books.owned[p]
    requires forall p :: p in slots ==> Unused(books, p, ALLOC_QUANTUM * b)
    requires forall p, q :: p in slots && q in slots && p != q ==>
               Apart(p, ALLOC_QUANTUM * b, q, ALLOC_QUANTUM * b)
    ensures var owned := Carve(books.owned, slots, b);
            && OwnedApart(owned)
            && BigApart(books.(owned := owned))
            && forall p :: p in slots ==> p !in books.owned
  {
  }

  lemma RefillOk(books: Books, b: nat, chunk: int)
    requires BooksOk(books) && 0 < b < NUM_BUCKETS && books.free[b] == []
    requires Unused(books, chunk, STRUCTS_PER_NEW * (ALLOC_QUANTUM * b))
    ensures BooksOk(Refill(books, b, chunk))
  {
    hide OwnedApart, BigApart, FreeListed, NoneLost, OfBucket, Slots, Unused, Apart;
    var bytes := ALLOC_QUANTUM * b;
    var after := Refill(books, b, chunk);
    var slots := Slots(chunk, bytes, STRUCTS_PER_NEW);
    SlotsUnused(books, b, chunk);
    forall p, q | p in slots && q in slots && p != q
      ensures Apart(p, bytes, q, bytes)
    {
      SlotsApart(chunk, bytes, STRUCTS_PER_NEW, p, q);
    }
    CarveOk(books, slots, b);
    SlotsDistinct(chunk, bytes, STRUCTS_PER_NEW);
    SlotsPrefix(chunk, bytes, STRUCTS_PER_NEW - 1);
    SpareOk(books, slots, b, after);
    BigApartSame(books.(owned := after.owned), after);
    RefillCounts(books, slots, b, after);
  }

  lemma RefillCounts(books: Books, slots: seq<int>, b: nat, after: Books)
    requires BooksOk(books) && 0 < b < NUM_BUCKETS && Distinct(slots) && |slots| == STRUCTS_PER_NEW
    requires forall p :: p in slots ==> p !in books.owned
    requires after.owned == Carve(books.owned, slots, b)
    requires after.refills == books.refills[b := books.refills[b] + 1]
    ensures forall c :: 0 <= c < NUM_BUCKETS ==> |OfBucket(after.owned, c)| == STRUCTS_PER_NEW * after.refills[c]
  {
    hide OwnedApart, BigApart, FreeListed, NoneLost, OfBucket, Carve, Distinct;
    forall c | 0 <= c < NUM_BUCKETS
      ensures |OfBucket(after.owned, c)| == STRUCTS_PER_NEW * after.refills[c]
    {
      CarveCount(books.owned, slots, b, c);
    }
  }

  lemma BigApartSame(books: Books, after: Books)
    requires BigApart(books) && after.big == books.big && after.owned == books.owned
    ensures BigApart(after)
  {
  }

  /** All slots but the last become the free list; the last one becomes live. */
  lemma SpareOk(books: Books, slots: seq<int>, b: nat, after: Books)
    requires BooksOk(books) && 0 < b < NUM_BUCKETS && books.free[b] == []
    requires slots != [] && Distinct(slots)
    requires forall p :: p in slots ==> p !in books.owned
    requires after.owned == Carve(books.owned, slots, b)
    requires after.live == books.live + {slots[|slots| - 1]}
    requires after.free == books.free[b := slots[..|slots| - 1]]
    ensures FreeListed(after) && NoneLost(after)
  {
    var spare := slots[..|slots| - 1];
    assert slots == spare + [slots[|slots| - 1]];
  }

  // ----- What every run of the reference allocator keeps -----

  datatype Event =
    | Alloc(sz: nat, chunk: int)
    | Free(p: int, sz: nat)
    | Scribble(lo: int, hi: int)

  /** The bytes of a block a client holds. */
  ghost predicate InLiveBlock(books: Books, lo: int, hi: int) {
    || (exists p :: p in books.live && p in books.owned
                    && p <= lo && hi <= p + ALLOC_QUANTUM * books.owned[p])
    || (exists p :: p in books.big && p <= lo && hi <= p + books.big[p])
  }

  /**
   What callers and the system must respect: `::new` returns unused bytes, a block is
   freed while live with a size of its own bucket, and clients write only into their blocks.
   */
  ghost predicate Legal(books: Books, e: Event)
    requires |books.free| == NUM_BUCKETS
  {
    match e
    case Alloc(sz, chunk) =>
      sz > 0 && (SystemBytes(books, sz) > 0 ==> Unused(books, chunk, SystemBytes(books, sz)))
    case Free(p, sz) =>
      if sz > MAX_ALLOC_SIZE then p in books.big
      else p in books.live && p in books.owned && books.owned[p] == BucketFor(sz)
    case Scribble(lo, hi) => lo <= hi && InLiveBlock(books, lo, hi)
  }

  function Step(books: Books, e: Event): (next: Books)
    requires |books.free| == |books.refills| == NUM_BUCKETS
    ensures |next.free| == |next.refills| == NUM_BUCKETS
  {
    match e
    case Alloc(sz, chunk) =>
      if sz > MAX_ALLOC_SIZE then books.(big := books.big[chunk := sz])
      else TakeBlock(books, BucketFor(sz), chunk)
    case Free(p, sz) =>
      if sz > MAX_ALLOC_SIZE then books.(big := books.big - {p})
      else GiveBack(books, p, BucketFor(sz))
    case Scribble(_, _) => books
  }

  /** Where `allocate` puts the new block. */
  function Placed(books: Books, sz: nat, chunk: int): int
    requires |books.free| == NUM_BUCKETS
  {
    var b := BucketFor(sz);
    if sz > MAX_ALLOC_SIZE then chunk
    else if books.free[b] != [] then books.free[b][0]
    else Slot(chunk, ALLOC_QUANTUM * b, STRUCTS_PER_NEW - 1)
  }

  lemma StepOk(books: Books, e: Event)
    requires BooksOk(books) && Legal(books, e)
    ensures BooksOk(Step(books, e))
  {
    match e
    case Alloc(sz, chunk) =>
      if sz <= MAX_ALLOC_SIZE {
        if books.free[BucketFor(sz)] != [] {
          TakeFreeOk(books, BucketFor(sz));
        } else {
          RefillOk(books, BucketFor(sz), chunk);
        }
      }
    case Free(p, sz) =>
      if sz <= MAX_ALLOC_SIZE { GiveBackOk(books, p); }
    case Scribble(_, _) =>
  }

  ghost predicate LegalRun(books: Books, run: seq<Event>)
    decreases |run|
  {
    |books.free| == |books.refills| == NUM_BUCKETS &&
    (run == [] || (Legal(books, run[0]) && LegalRun(Step(books, run[0]), run[1..])))
  }

  function After(books: Books, run: seq<Event>): (last: Books)
    requires |books.free| == |books.refills| == NUM_BUCKETS
    ensures |last.free| == |last.refills| == NUM_BUCKETS
    decreases |run|
  {
    if run == [] then books else After(Step(books, run[0]), run[1..])
  }

  /** Every legal run from the empty allocator keeps the books in order. */
  lemma {:induction false} RunOk(books: Books, run: seq<Event>)
    requires BooksOk(books) && LegalRun(books, run)
    ensures BooksOk(After(books, run))
    decreases |run|
  {
    if run != [] {
      StepOk(books, run[0]);
      RunOk(Step(books, run[0]), run[1..]);
    }
  }

  lemma EmptyOk()
    ensures BooksOk(EMPTY_BOOKS)
  {
    forall b | 0 <= b < NUM_BUCKETS
      ensures |OfBucket(EMPTY_BOOKS.owned, b)| == STRUCTS_PER_NEW * EMPTY_BOOKS.refills[b]
    {
      assert OfBucket(EMPTY_BOOKS.owned, b) == {};
    }
  }

  /** Conservation: what clients hold and what is free make up twenty blocks per refill. */
  lemma Conservation(run: seq<Event>, b: nat)
    requires LegalRun(EMPTY_BOOKS, run) && b < NUM_BUCKETS
    ensures var books := After(EMPTY_BOOKS, run);
            |LiveOf(books, b)| + |books.free[b]| == STRUCTS_PER_NEW * books.refills[b]
  {
    EmptyOk();
    RunOk(EMPTY_BOOKS, run);
    HeldIsLive(After(EMPTY_BOOKS, run), b);
  }

  lemma HeldIsLive(books: Books, b: nat)
    requires BooksOk(books) && b < NUM_BUCKETS
    ensures |LiveOf(books, b)| == Held(books, b)
  {
    ElementsCount(books.free[b]);
    LiveAndFree(books, b);
  }

  lemma LiveAndFree(books: Books, b: nat)
    requires BooksOk(books) && b < NUM_BUCKETS
    ensures OfBucket(books.owned, b) == LiveOf(books, b) + Elements(books.free[b])
    ensures LiveOf(books, b) !! Elements(books.free[b])
  {
    forall p
      ensures p in OfBucket(books.owned, b) <==> p in LiveOf(books, b) + Elements(books.free[b])
    {
    }
  }

  /**
   The client's view of a run: the block `allocate` returns is large enough, is not in
   use, and overlaps neither a live block, nor a free block, nor a system block.
   */
  lemma NewBlockIsPrivate(run: seq<Event>, sz: nat, chunk: int)
    requires LegalRun(EMPTY_BOOKS, run)
    requires Legal(After(EMPTY_BOOKS, run), Alloc(sz, chunk)) && sz <= MAX_ALLOC_SIZE
    ensures var books := After(EMPTY_BOOKS, run);
            var next := Step(books, Alloc(sz, chunk));
            var p := Placed(books, sz, chunk);
            && p !in books.live && p in next.live && next.live == books.live + {p}
            && p in next.owned && sz <= ALLOC_QUANTUM * next.owned[p]
            && (forall q :: q in next.owned && q != p ==> Apart(p, sz, q, ALLOC_QUANTUM * next.owned[q]))
            && (forall q :: q in next.big ==> Apart(p, sz, q, next.big[q]))
            && (forall b :: 0 <= b < NUM_BUCKETS ==> p !in next.free[b])
  {
    EmptyOk();
    RunOk(EMPTY_BOOKS, run);
    var books := After(EMPTY_BOOKS, run);
    var b := BucketFor(sz);
    StepOk(books, Alloc(sz, chunk));
    if books.free[b] != [] {
      assert Placed(books, sz, chunk) in books.free[b];
    } else {
      SlotsUnused(books, b, chunk);
      var slots := Slots(chunk, ALLOC_QUANTUM * b, STRUCTS_PER_NEW);
      assert slots[STRUCTS_PER_NEW - 1] == Placed(books, sz, chunk);
      assert Placed(books, sz, chunk) in slots;
    }
  }

  /** A freed block is the next one of its bucket to be handed out, and then all is as before. */
  lemma FreeThenAllocate(books: Books, p: int, sz: nat, again: nat, chunk: int)
    requires BooksOk(books) && Legal(books, Free(p, sz)) && sz <= 512
    requires BucketFor(again) == BucketFor(sz)
    ensures var freed := Step(books, Free(p, sz));
            Placed(freed, again, chunk) == p && Step(freed, Alloc(again, chunk)) == books
  {
    var b := BucketFor(sz);
    var freed := Step(books, Free(p, sz));
    assert freed.free[b][1..] == books.free[b];
    assert freed.free[b := books.free[b]] == books.free;
    assert freed.live + {p} == books.live;
  }

  /**
   What an allocation does to the books.  From a bucket with free blocks the client gets the first, and
   the system is not asked.  From an empty one it gets the last of twenty new blocks, and the other
   nineteen become the list in address order.  A large block is the system's.
   */
  ghost predicate Allocated(books: Books, next: Books, sz: nat, chunk: int, p: int) {
    var b := (sz + 7) / 8;
    && (sz <= 512 ==> b < |books.free| == |next.free|)
    && (sz <= 512 && books.free[b] != [] ==>
          && p == books.free[b][0]
          && next == books.(live := books.live + {p}, free := books.free[b := books.free[b][1..]]))
    && (sz <= 512 && books.free[b] == [] ==>
          && p == chunk + 19 * (8 * b) && next.live == books.live + {p} && next.big == books.big
          && |next.free[b]| == 19 && (forall i :: 0 <= i < 19 ==> next.free[b][i] == chunk + i * (8 * b))
          && (forall c :: 0 <= c < |books.free| && c != b ==> next.free[c] == books.free[c])
          && b < |books.refills| && next.refills == books.refills[b := books.refills[b] + 1])
    && (sz > 512 ==> p == chunk && next == books.(big := books.big[chunk := sz]))
  }

  /** What freeing does: the block goes to the head of its list, a large one back to the system. */
  ghost predicate Returned(books: Books, next: Books, sz: nat, p: int) {
    var b := (sz + 7) / 8;
    && (sz <= 512 ==>
          && b < |books.free|
          && next == books.(live := books.live - {p}, free := books.free[b := [p] + books.free[b]]))
    && (sz > 512 ==> next == books.(big := books.big - {p}))
  }

  /** The counter of the bucket goes up by one, in 32 bits; sizes without a bucket are not counted. */
  function Counted(counts: seq<int>, sz: nat, asked: bool): seq<int> {
    if sz > 512 || BucketFor(sz) >= |counts| || (asked && sz == 0) then counts
    else counts[BucketFor(sz) := (counts[BucketFor(sz)] + 1) % UNSIGNED_LIMIT]
  }

  lemma AllocLeaves(books: Books, sz: nat, chunk: int)
    requires |books.free| == |books.refills| == NUM_BUCKETS
    ensures Allocated(books, Step(books, Alloc(sz, chunk)), sz, chunk, Placed(books, sz, chunk))
  {
    if sz <= 512 {
      var b := BucketFor(sz);
      assert b == (sz + 7) / 8;
      SlotsAre(chunk, ALLOC_QUANTUM * b);
      hide Slots, Slot, Carve;
    }
  }

  lemma BooksShape(books: Books)
    requires BooksOk(books)
    ensures |books.free| == |books.refills| == NUM_BUCKETS
  {
  }

  lemma BumpIs(n: int)
    ensures Bump(n) == (n + 1) % UNSIGNED_LIMIT
  {
  }

  /** A block that may be freed has room for a pointer. */
  lemma LiveBlockHead(books: Books, p: int, sz: nat)
    requires BooksOk(books) && Legal(books, Free(p, sz)) && sz <= MAX_ALLOC_SIZE
    ensures InLiveBlock(books, p, p + ALLOC_QUANTUM) && 0 < BucketFor(sz) < NUM_BUCKETS
  {
    assert books.owned[p] == BucketFor(sz);
  }

  lemma StoreKept(mem: Memory, p: int, v: int)
    ensures KeptOutside(mem, Store(mem, p, v), p, p + ALLOC_QUANTUM)
    ensures p in Store(mem, p, v) && Store(mem, p, v)[p] == v
  {
  }

  lemma ThreadAt(mem: Memory, heads: seq<int>, free: seq<seq<int>>, b: nat)
    requires Threads(mem, heads, free) && b < |free|
    ensures b < |heads| && Linked(mem, heads[b], free[b])
  {
  }

  lemma FreeLeaves(books: Books, sz: nat, p: int)
    requires |books.free| == |books.refills| == NUM_BUCKETS
    ensures Returned(books, Step(books, Free(p, sz)), sz, p)
  {
    assert BucketFor(sz) == (sz + 7) / 8;
  }

  lemma SlotsAre(chunk: int, bytes: nat)
    ensures forall i :: 0 <= i < 19 ==> Slots(chunk, bytes, STRUCTS_PER_NEW - 1)[i] == chunk + i * bytes
    ensures |Slots(chunk, bytes, STRUCTS_PER_NEW - 1)| == 19
    ensures Slot(chunk, bytes, STRUCTS_PER_NEW - 1) == chunk + 19 * bytes
  {
  }

  // ----- The allocator itself -----

  /** The words in memory chain `xs` from `head` to the null pointer. */
  ghost predicate Linked(mem: Memory, head: int, xs: seq<int>) {
    && head == (if xs == [] then 0 else xs[0])
    && forall i :: 0 <= i < |xs| ==> xs[i] in mem && mem[xs[i]] == Successor(xs, i)
  }

  function Successor(xs: seq<int>, i: nat): int {
    if i + 1 < |xs| then xs[i + 1] else 0
  }

  /** Every word that shares no byte with [lo, hi) kept its value. */
  ghost predicate KeptOutside(before: Memory, after: Memory, lo: int, hi: int) {
    forall a :: a in before && (a + ALLOC_QUANTUM <= lo || hi <= a) ==> a in after && after[a] == before[a]
  }

  lemma LinkedFrame(before: Memory, after: Memory, head: int, xs: seq<int>, lo: int, hi: int)
    requires Linked(before, head, xs) && KeptOutside(before, after, lo, hi)
    requires forall x :: x in xs ==> x + ALLOC_QUANTUM <= lo || hi <= x
    ensures Linked(after, head, xs)
  {
    forall i | 0 <= i < |xs|
      ensures xs[i] in after && after[xs[i]] == before[xs[i]]
    {
      var x := xs[i];
      assert x in xs && x in before;
      assert x + ALLOC_QUANTUM <= lo || hi <= x;
    }
  }

  lemma LinkedPop(mem: Memory, head: int, xs: seq<int>)
    requires Linked(mem, head, xs) && xs != []
    ensures Linked(mem, mem[head], xs[1..])
  {
    assert mem[xs[0]] == Successor(xs, 0);
    forall i | 0 <= i < |xs| - 1
      ensures xs[1..][i] in mem && mem[xs[1..][i]] == Successor(xs[1..], i)
    {
      assert mem[xs[i + 1]] == Successor(xs, i + 1);
    }
  }

  lemma LinkedPush(mem: Memory, head: int, xs: seq<int>, p: int)
    requires Linked(mem, head, xs) && p in mem && mem[p] == head
    ensures Linked(mem, p, [p] + xs)
  {
    forall i | 0 < i <= |xs|
      ensures ([p] + xs)[i] in mem && mem[([p] + xs)[i]] == Successor([p] + xs, i)
    {
      assert mem[xs[i - 1]] == Successor(xs, i - 1);
    }
  }

  /** The pointer reached from `p` by n loads. */
  function Follow(mem: Memory, p: int, n: nat): int
    decreases n
  {
    if n == 0 then p else if p in mem then Follow(mem, mem[p], n - 1) else p
  }

  /** Following the stored pointers visits exactly the listed blocks and then meets null. */
  lemma {:induction false} FollowLinked(mem: Memory, head: int, xs: seq<int>, n: nat)
    requires Linked(mem, head, xs) && n <= |xs|
    ensures Follow(mem, head, n) == if n < |xs| then xs[n] else 0
    decreases n
  {
    if n > 0 {
      LinkedPop(mem, head, xs);
      FollowLinked(mem, mem[head], xs[1..], n - 1);
    }
  }

  /** The first n slots of a chunk each hold the address of the next one. */
  ghost predicate Threaded(mem: Memory, chunk: int, bytes: nat, n: int) {
    forall j :: 0 <= j < n ==>
      Slot(chunk, bytes, j) in mem && mem[Slot(chunk, bytes, j)] == Slot(chunk, bytes, j + 1)
  }

  lemma StoreKeepsThread(mem: Memory, chunk: int, bytes: nat, n: nat, v: int)
    requires Threaded(mem, chunk, bytes, n) && ALLOC_QUANTUM <= bytes
    ensures Threaded(Store(mem, Slot(chunk, bytes, n), v), chunk, bytes, n)
    ensures v == Slot(chunk, bytes, n + 1) ==>
              Threaded(Store(mem, Slot(chunk, bytes, n), v), chunk, bytes, n + 1)
  {
    forall j | 0 <= j < n
      ensures Slot(chunk, bytes, j) + ALLOC_QUANTUM <= Slot(chunk, bytes, n)
    {
      SlotApart(chunk, bytes, j, n);
    }
  }

  lemma StoreInChunk(before: Memory, mem: Memory, chunk: int, bytes: nat, n: nat, v: int)
    requires KeptOutside(before, mem, chunk, chunk + STRUCTS_PER_NEW * bytes)
    requires n < STRUCTS_PER_NEW && ALLOC_QUANTUM <= bytes
    ensures KeptOutside(before, Store(mem, Slot(chunk, bytes, n), v), chunk, chunk + STRUCTS_PER_NEW * bytes)
  {
    SlotInChunk(chunk, bytes, STRUCTS_PER_NEW, n);
  }

  lemma ThreadIsLinked(mem: Memory, chunk: int, bytes: nat, n: nat)
    requires Threaded(mem, chunk, bytes, n)
    requires Slot(chunk, bytes, n) in mem && mem[Slot(chunk, bytes, n)] == 0
    ensures Linked(mem, chunk, Slots(chunk, bytes, n + 1))
  {
    assert Slot(chunk, bytes, 0) == chunk;
  }

  /** No free block shares a byte with a block that a client holds. */
  lemma FreeOutsideLive(books: Books, lo: int, hi: int, b: nat)
    requires BooksOk(books) && InLiveBlock(books, lo, hi) && b < NUM_BUCKETS
    ensures forall x :: x in books.free[b] ==> x + ALLOC_QUANTUM <= lo || hi <= x
  {
  }

  lemma FreeOutsideUnused(books: Books, chunk: int, bytes: nat, b: nat)
    requires BooksOk(books) && Unused(books, chunk, bytes) && b < NUM_BUCKETS
    ensures forall x :: x in books.free[b] ==> x + ALLOC_QUANTUM <= chunk || chunk + bytes <= x
  {
  }

  /** Memory and list heads spell out the free lists of the books. */
  ghost predicate Threads(mem: Memory, heads: seq<int>, free: seq<seq<int>>) {
    |heads| == |free| && forall b :: 0 <= b < |free| ==> Linked(mem, heads[b], free[b])
  }

  lemma ThreadsKept(before: Memory, after: Memory, heads: seq<int>, books: Books, lo: int, hi: int)
    requires BooksOk(books) && Threads(before, heads, books.free)
    requires KeptOutside(before, after, lo, hi)
    requires lo <= hi && (InLiveBlock(books, lo, hi) || Unused(books, lo, hi - lo))
    ensures Threads(after, heads, books.free)
  {
    forall b | 0 <= b < NUM_BUCKETS
      ensures Linked(after, heads[b], books.free[b])
    {
      if InLiveBlock(books, lo, hi) {
        FreeOutsideLive(books, lo, hi, b);
      } else {
        FreeOutsideUnused(books, lo, hi - lo, b);
      }
      LinkedFrame(before, after, heads[b], books.free[b], lo, hi);
    }
  }

  /** A null head means an empty list: no block lives at address zero. */
  lemma HeadTells(mem: Memory, heads: seq<int>, books: Books, b: nat)
    requires BooksOk(books) && Threads(mem, heads, books.free) && b < NUM_BUCKETS
    ensures heads[b] == 0 <==> books.free[b] == []
    ensures heads[b] != 0 ==> b != 0 && heads[b] == books.free[b][0] && heads[b] in mem
  {
    assert Linked(mem, heads[b], books.free[b]);
    if books.free[b] != [] { assert books.free[b][0] in books.owned; }
  }

  /** The 32-bit statistics agree with the books up to wrap-around. */
  ghost predicate Tallied(news: seq<int>, deletes: seq<int>, allocs: seq<int>, books: Books)
    requires |books.free| == |books.refills| == NUM_BUCKETS
  {
    && |news| == |deletes| == |allocs| == NUM_BUCKETS
    && forall b :: 0 <= b < NUM_BUCKETS ==>
         && allocs[b] == books.refills[b] % UNSIGNED_LIMIT
         && Congruent(news[b] - deletes[b], Held(books, b))
  }

  /** The number of blocks of bucket b that clients hold. */
  function Held(books: Books, b: nat): int
    requires |books.free| == |books.refills| == NUM_BUCKETS && b < NUM_BUCKETS
  {
    STRUCTS_PER_NEW * books.refills[b] - |books.free[b]|
  }

  lemma HeldMoves(books: Books, b: nat, c: nat, chunk: int, p: int)
    requires |books.free| == |books.refills| == NUM_BUCKETS && b < NUM_BUCKETS && c < NUM_BUCKETS
    ensures Held(TakeBlock(books, b, chunk), c) == Held(books, c) + if c == b then 1 else 0
    ensures Held(GiveBack(books, p, b), c) == Held(books, c) - if c == b then 1 else 0
  {
  }

  lemma BumpCounts(n: nat)
    ensures Bump(n % UNSIGNED_LIMIT) == (n + 1) % UNSIGNED_LIMIT
  {
  }

  ghost predicate Congruent(x: int, y: int) {
    (x - y) % UNSIGNED_LIMIT == 0
  }

  function Bump(count: int): int {
    (count + 1) % UNSIGNED_LIMIT
  }

  lemma BumpCongruent(news: int, deletes: int, held: int)
    requires Congruent(news - deletes, held)
    ensures Congruent(Bump(news) - deletes, held + 1)
    ensures Congruent(news - Bump(deletes), held - 1)
  {
    var k := (news + 1) / UNSIGNED_LIMIT;
    assert Bump(news) - deletes - (held + 1) == news - deletes - held - k * UNSIGNED_LIMIT;
    var m := (deletes + 1) / UNSIGNED_LIMIT;
    assert news - Bump(deletes) - (held - 1) == news - deletes - held + m * UNSIGNED_LIMIT;
  }

  lemma ThreadsUpdate(mem: Memory, heads: seq<int>, free: seq<seq<int>>, b: nat, head: int, xs: seq<int>)
    requires Threads(mem, heads, free) && b < |free| && Linked(mem, head, xs)
    ensures Threads(mem, heads[b := head], free[b := xs])
  {
  }

  lemma ThreadsRefill(before: Memory, after: Memory, heads: seq<int>, books: Books, b: nat, chunk: int)
    requires BooksOk(books) && Threads(before, heads, books.free) && 0 < b < NUM_BUCKETS
    requires Unused(books, chunk, STRUCTS_PER_NEW * (ALLOC_QUANTUM * b))
    requires KeptOutside(before, after, chunk, chunk + STRUCTS_PER_NEW * (ALLOC_QUANTUM * b))
    requires Linked(after, chunk, Slots(chunk, ALLOC_QUANTUM * b, STRUCTS_PER_NEW - 1))
    ensures Threads(after, heads[b := chunk], Refill(books, b, chunk).free)
  {
    ThreadsKept(before, after, heads, books, chunk, chunk + STRUCTS_PER_NEW * (ALLOC_QUANTUM * b));
    ThreadsUpdate(after, heads, books.free, b, chunk, Slots(chunk, ALLOC_QUANTUM * b, STRUCTS_PER_NEW - 1));
  }

  lemma TalliedTake(news: seq<int>, deletes: seq<int>, allocs: seq<int>, books: Books, b: nat, chunk: int)
    requires |books.free| == |books.refills| == NUM_BUCKETS && b < NUM_BUCKETS
    requires Tallied(news, deletes, allocs, books)
    ensures Tallied(news[b := Bump(news[b])], deletes,
                    if books.free[b] == [] then allocs[b := Bump(allocs[b])] else allocs,
                    TakeBlock(books, b, chunk))
  {
    BumpCongruent(news[b], deletes[b], Held(books, b));
    BumpCounts(books.refills[b]);
    forall c | 0 <= c < NUM_BUCKETS
      ensures Held(TakeBlock(books, b, chunk), c) == Held(books, c) + if c == b then 1 else 0
    {
      HeldMoves(books, b, c, chunk, 0);
    }
  }

  lemma TalliedGive(news: seq<int>, deletes: seq<int>, allocs: seq<int>, books: Books, b: nat, p: int)
    requires |books.free| == |books.refills| == NUM_BUCKETS && b < NUM_BUCKETS
    requires Tallied(news, deletes, allocs, books)
    ensures Tallied(news, deletes[b := Bump(deletes[b])], allocs, GiveBack(books, p, b))
  {
    BumpCongruent(news[b], deletes[b], Held(books, b));
    forall c | 0 <= c < NUM_BUCKETS
      ensures Held(GiveBack(books, p, b), c) == Held(books, c) - if c == b then 1 else 0
    {
      HeldMoves(books, b, c, 0, p);
    }
  }

  /** Large blocks are not counted. */
  lemma TalliedBig(news: seq<int>, deletes: seq<int>, allocs: seq<int>, books: Books, next: Books)
    requires |books.free| == |books.refills| == NUM_BUCKETS && Tallied(news, deletes, allocs, books)
    requires next.free == books.free && next.refills == books.refills
    ensures Tallied(news, deletes, allocs, next)
  {
  }

  lemma FreshOk(zeros: seq<int>)
    requires |zeros| == NUM_BUCKETS && forall b :: 0 <= b < NUM_BUCKETS ==> zeros[b] == 0
    ensures Threads(map[], zeros, EMPTY_BOOKS.free) && Tallied(zeros, zeros, zeros, EMPTY_BOOKS)
  {
  }

  class FastAlloc {
    var mem: Memory
    const freeLists: array<int>
    const newCount: array<int>
    const deleteCount: array<int>
    const allocCount: array<int>
    ghost var books: Books

    ghost predicate Shaped() {
      && freeLists.Length == newCount.Length == deleteCount.Length == allocCount.Length == NUM_BUCKETS
      && freeLists != newCount && freeLists != deleteCount && freeLists != allocCount
      && newCount != deleteCount && newCount != allocCount && deleteCount != allocCount
    }

    ghost predicate Valid()
      reads this, freeLists, newCount, deleteCount, allocCount
    {
      && Shaped()
      && BooksOk(books)
      && Threads(mem, freeLists[..], books.free)
      && Tallied(newCount[..], deleteCount[..], allocCount[..], books)
    }

    constructor ()
      ensures Valid() && books == EMPTY_BOOKS
      ensures fresh(freeLists) && fresh(newCount) && fresh(deleteCount) && fresh(allocCount)
    {
      mem := map[];
      freeLists := new int[NUM_BUCKETS](_ => 0);
      newCount := new int[NUM_BUCKETS](_ => 0);
      deleteCount := new int[NUM_BUCKETS](_ => 0);
      allocCount := new int[NUM_BUCKETS](_ => 0);
      books := EMPTY_BOOKS;
      new;
      hide BooksOk, Threads, Tallied;
      EmptyOk();
      ghost var zeros := freeLists[..];
      assert newCount[..] == zeros && deleteCount[..] == zeros && allocCount[..] == zeros;
      FreshOk(zeros);
    }

    /** Threads nineteen of the twenty blocks of a new chunk and returns the last. */
    method MoreStructs(bucket: nat, chunk: int) returns (block: int)
      requires Shaped() && 0 < bucket < NUM_BUCKETS
      modifies this`mem, freeLists, allocCount
      ensures var bytes := ALLOC_QUANTUM * bucket;
              && block == Slot(chunk, bytes, STRUCTS_PER_NEW - 1)
              && Linked(mem, chunk, Slots(chunk, bytes, STRUCTS_PER_NEW - 1))
              && KeptOutside(old(mem), mem, chunk, chunk + STRUCTS_PER_NEW * bytes)
      ensures freeLists[..] == old(freeLists[..])[bucket := chunk]
      ensures allocCount[..] == old(allocCount[..])[bucket := Bump(old(allocCount[bucket]))]
    {
      var sz := ALLOC_QUANTUM * bucket;
      var p := chunk;
      allocCount[bucket] := Bump(allocCount[bucket]);
      freeLists[bucket] := p;
      var i := 0;
      while i < STRUCTS_PER_NEW - 2
        invariant 0 <= i <= STRUCTS_PER_NEW - 2
        invariant p == Slot(chunk, sz, i)
        invariant Threaded(mem, chunk, sz, i)
        invariant KeptOutside(old(mem), mem, chunk, chunk + STRUCTS_PER_NEW * sz)
        modifies this`mem
      {
        SlotNext(chunk, sz, i);
        StoreKeepsThread(mem, chunk, sz, i, p + sz);
        StoreInChunk(old(mem), mem, chunk, sz, i, p + sz);
        mem := Store(mem, p, p + sz);
        i, p := i + 1, p + sz;
      }
      SlotNext(chunk, sz, i);
      StoreKeepsThread(mem, chunk, sz, i, 0);
      StoreInChunk(old(mem), mem, chunk, sz, i, 0);
      mem := Store(mem, p, 0);
      ThreadIsLinked(mem, chunk, sz, i);
      block := p + sz;
    }

    /**
     `chunk` is what `::new` returns if it is called.  Size zero lands in bucket zero, whose
     list is always empty, and trips the assertion in `moreStructs`: no block is returned.
     */
    method Allocate(sz: nat, chunk: int) returns (r: Option<int>)
      requires Valid()
      requires SystemBytes(books, sz) > 0 ==> Unused(books, chunk, SystemBytes(books, sz))
      modifies this, freeLists, newCount, allocCount
      ensures Valid()
      ensures sz == 0 ==> r == None && books == old(books)
      ensures sz > 0 ==> r == Some(old(Placed(books, sz, chunk)))
                         && books == old(Step(books, Alloc(sz, chunk)))
      ensures sz > 0 ==> Allocated(old(books), books, sz, chunk, r.value)
      ensures newCount[..] == Counted(old(newCount[..]), sz, true)
    {
      AllocLeaves(books, sz, chunk);
      hide BooksOk, Threads, Tallied, Step, Placed, Legal, Unused, Allocated, Counted, SystemBytes;
      r := FindBlock(sz, chunk);
    }

    method FindBlock(sz: nat, chunk: int) returns (r: Option<int>)
      requires Valid()
      requires SystemBytes(books, sz) > 0 ==> Unused(books, chunk, SystemBytes(books, sz))
      modifies this, freeLists, newCount, allocCount
      ensures Valid()
      ensures sz == 0 ==> r == None && books == old(books)
      ensures sz > 0 ==> r == Some(old(Placed(books, sz, chunk)))
                         && books == old(Step(books, Alloc(sz, chunk)))
      ensures newCount[..] == Counted(old(newCount[..]), sz, true)
    {
      hide BooksOk, Threads, Tallied, Unused, Bump, Linked, KeptOutside;
      BooksShape(books);
      if sz > MAX_ALLOC_SIZE {
        StepOk(books, Alloc(sz, chunk));
        TalliedBig(newCount[..], deleteCount[..], allocCount[..], books, Step(books, Alloc(sz, chunk)));
        books := Step(books, Alloc(sz, chunk));
        return Some(chunk);
      }
      var b := BucketFor(sz);
      HeadTells(mem, freeLists[..], books, b);
      var p := freeLists[b];
      if p != 0 {
        Pop(b);
      } else if b == 0 {
        return None;
      } else {
        p := MoreStructs(b, chunk);
        ThreadsRefill(old(mem), mem, old(freeLists[..]), books, b, chunk);
      }
      TalliedTake(newCount[..], deleteCount[..], old(allocCount[..]), books, b, chunk);
      newCount[b] := Bump(newCount[b]);
      assert newCount[..] == old(newCount[..])[b := Bump(old(newCount[b]))];
      BumpIs(old(newCount[b]));
      StepOk(books, Alloc(sz, chunk));
      books := Step(books, Alloc(sz, chunk));
      r := Some(p);
    }

    /** Takes the head off a list, following its first word. */
    method Pop(b: nat)
      requires Shaped() && BooksOk(books) && b < NUM_BUCKETS && |books.free| == NUM_BUCKETS && books.free[b] != []
      requires Threads(mem, freeLists[..], books.free)
      modifies freeLists
      ensures Threads(mem, freeLists[..], books.free[b := books.free[b][1..]])
    {
      hide BooksOk, Threads, Linked;
      HeadTells(mem, freeLists[..], books, b);
      ThreadAt(mem, freeLists[..], books.free, b);
      var p := freeLists[b];
      LinkedPop(mem, p, books.free[b]);
      ThreadsUpdate(mem, freeLists[..], books.free, b, mem[p], books.free[b][1..]);
      freeLists[b] := mem[p];
      assert freeLists[..] == old(freeLists[..])[b := mem[p]];
    }

    method Deallocate(p: int, sz: nat)
      requires Valid() && Legal(books, Free(p, sz))
      modifies this, freeLists, deleteCount
      ensures Valid() && books == old(Step(books, Free(p, sz)))
      ensures Returned(old(books), books, sz, p)
      ensures sz <= 512 ==> freeLists[..] == old(freeLists[..])[BucketFor(sz) := p]
                            && p in mem && mem[p] == old(freeLists[BucketFor(sz)])
      ensures sz > 512 ==> mem == old(mem) && freeLists[..] == old(freeLists[..])
      ensures deleteCount[..] == Counted(old(deleteCount[..]), sz, false)
    {
      hide Returned, BooksOk, Threads, Tallied, Legal, InLiveBlock, KeptOutside, Linked, Store, Bump;
      BooksShape(books);
      FreeLeaves(books, sz, p);
      StepOk(books, Free(p, sz));
      if sz <= MAX_ALLOC_SIZE {
        LiveBlockHead(books, p, sz);
        var b := BucketFor(sz);
        TalliedGive(newCount[..], deleteCount[..], allocCount[..], books, b, p);
        Push(b, p);
        deleteCount[b] := Bump(deleteCount[b]);
        assert deleteCount[..] == old(deleteCount[..])[b := Bump(old(deleteCount[b]))];
        BumpIs(old(deleteCount[b]));
      } else {
        TalliedBig(newCount[..], deleteCount[..], allocCount[..], books, Step(books, Free(p, sz)));
      }
      books := Step(books, Free(p, sz));
    }

    /** Puts a live block at the head of a list, through its first word. */
    method Push(b: nat, p: int)
      requires Shaped() && BooksOk(books) && b < NUM_BUCKETS && InLiveBlock(books, p, p + ALLOC_QUANTUM)
      requires Threads(mem, freeLists[..], books.free) && |books.free| == NUM_BUCKETS
      modifies this`mem, freeLists
      ensures Threads(mem, freeLists[..], books.free[b := [p] + books.free[b]])
      ensures freeLists[..] == old(freeLists[..])[b := p] && p in mem && mem[p] == old(freeLists[b])
    {
      hide BooksOk, Threads, InLiveBlock, KeptOutside, Linked, Store;
      StoreKept(mem, p, freeLists[b]);
      mem := Store(mem, p, freeLists[b]);
      ThreadsKept(old(mem), mem, freeLists[..], books, p, p + ALLOC_QUANTUM);
      ThreadAt(mem, freeLists[..], books.free, b);
      LinkedPush(mem, freeLists[b], books.free[b], p);
      ThreadsUpdate(mem, freeLists[..], books.free, b, p, [p] + books.free[b]);
      freeLists[b] := p;
      assert freeLists[..] == old(freeLists[..])[b := p];
    }

    /** A client fills bytes of a block it holds; the free lists do not notice. */
    method ClientWrite(lo: int, hi: int)
      requires Valid() && lo <= hi && InLiveBlock(books, lo, hi)
      modifies this`mem
      ensures Valid()
    {
      mem := Clobber(mem, lo, hi);
      ThreadsKept(old(mem), mem, freeLists[..], books, lo, hi);
    }
  }

  /** Any legal run can be carried out, and ends with the books the reference predicts. */
  method Play(run: seq<Event>) returns (a: FastAlloc)
    requires LegalRun(EMPTY_BOOKS, run)
    ensures a.Valid() && a.books == After(EMPTY_BOOKS, run)
  {
    a := new FastAlloc();
    var i := 0;
    while i < |run|
      invariant 0 <= i <= |run|
      invariant a.Valid() && fresh(a) && fresh(a.freeLists)
      invariant fresh(a.newCount) && fresh(a.deleteCount) && fresh(a.allocCount)
      invariant LegalRun(a.books, run[i..])
      invariant After(a.books, run[i..]) == After(EMPTY_BOOKS, run)
    {
      assert run[i..][0] == run[i] && run[i..][1..] == run[i + 1..];
      match run[i] {
        case Alloc(sz, chunk) => var _ := a.Allocate(sz, chunk);
        case Free(p, sz) => a.Deallocate(p, sz);
        case Scribble(lo, hi) => a.ClientWrite(lo, hi);
      }
      i := i + 1;
    }
  }
}
