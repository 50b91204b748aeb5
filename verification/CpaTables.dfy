/** The interning tables: names become small dense numbers, and back. */
module CpaTables {
  import opened CpaRecords

  datatype Tables = Tables(
    numSm: nat, numSmt: nat, numSt: seq<nat>, numQ: seq<nat>, numSys: nat, numQs: nat,
    smtCache: map<string, nat>, stCache: seq<map<string, nat>>,
    qCache: seq<map<Id, nat>>, smCache: seq<map<Id, nat>>,
    nameCache: map<System, (string, nat)>,
    smMap: seq<(nat, Id)>, qMap: seq<(nat, Id)>)

  const NO_TABLES: Tables := Tables(0, 0, [], [], 0, 0, map[], [], [], [], map[], [], [])

  /** The keys carry the numbers 1..n, no number twice. */
  ghost predicate Numbered<K(!new)>(m: map<K, nat>, n: nat) {
    && |m| == n
    && (forall k :: k in m ==> 1 <= m[k] <= n)
    && (forall k, l :: k in m && l in m && m[k] == m[l] ==> k == l)
  }

  /** Every number given out leads back to its name. */
  ghost predicate Listed(cache: seq<map<Id, nat>>, table: seq<(nat, Id)>) {
    forall x, id :: 0 <= x < |cache| && id in cache[x] ==>
      1 <= cache[x][id] <= |table| && table[cache[x][id] - 1] == (x + 1, id)
  }

  /** Every listed name has its position as number. */
  ghost predicate Found(cache: seq<map<Id, nat>>, table: seq<(nat, Id)>) {
    forall k :: 0 <= k < |table| ==> FoundAt(cache, table[k], k)
  }

  ghost predicate FoundAt(cache: seq<map<Id, nat>>, entry: (nat, Id), k: nat) {
    && 1 <= entry.0 <= |cache|
    && entry.1 in cache[entry.0 - 1]
    && cache[entry.0 - 1][entry.1] == k + 1
  }

  /** `table` lists, in order of their numbers, exactly the names that the caches number. */
  ghost predicate Inverse(cache: seq<map<Id, nat>>, table: seq<(nat, Id)>) {
    Listed(cache, table) && Found(cache, table)
  }

  function SystemIds(nameCache: map<System, (string, nat)>): map<System, nat> {
    map s | s in nameCache :: nameCache[s].1
  }

  ghost predicate SystemsOk(t: Tables) {
    && |t.nameCache| == t.numSys
    && Numbered(SystemIds(t.nameCache), t.numSys)
    && (forall s :: s in t.nameCache ==> t.nameCache[s].0 == s.name)
  }

  ghost predicate StatesOk(t: Tables) {
    && Numbered(t.smtCache, t.numSmt)
    && |t.stCache| == |t.numSt| == t.numSmt
    && forall x :: 0 <= x < t.numSmt ==> Numbered(t.stCache[x], t.numSt[x])
  }

  ghost predicate IdsOk(t: Tables) {
    && |t.smCache| == |t.qCache| == |t.numQ| == t.numSys
    && |t.smMap| == t.numSm && |t.qMap| == t.numQs
    && t.numSm < MAX_IDS && t.numQs < MAX_IDS
    && Inverse(t.smCache, t.smMap)
    && Inverse(t.qCache, t.qMap)
    && forall x :: 0 <= x < t.numSys ==> |t.qCache[x]| == t.numQ[x]
  }

  ghost predicate TablesOk(t: Tables) {
    SystemsOk(t) && StatesOk(t) && IdsOk(t)
  }

  function Put<K>(m: map<K, nat>, k: K, n: nat): map<K, nat> {
    m[k := n]
  }

  // ----- What the four look-ups do -----

  function InternSys(t: Tables, s: System): Tables {
    if s in t.nameCache then t
    else t.(nameCache := t.nameCache[s := (s.name, t.numSys + 1)], numSys := t.numSys + 1,
            numQ := t.numQ + [0], qCache := t.qCache + [map[]], smCache := t.smCache + [map[]])
  }

  function InternSm(t: Tables, sys: nat, id: Id): Tables
    requires 1 <= sys <= |t.smCache|
  {
    if id in t.smCache[sys - 1] then t
    else t.(numSm := t.numSm + 1,
            smCache := AddName(t.smCache, sys, id, t.numSm + 1),
            smMap := t.smMap + [(sys, id)])
  }

  function InternQ(t: Tables, sys: nat, id: Id): Tables
    requires 1 <= sys <= |t.qCache| == |t.numQ|
  {
    if id in t.qCache[sys - 1] then t
    else t.(numQs := t.numQs + 1,
            qCache := AddName(t.qCache, sys, id, t.numQs + 1),
            numQ := t.numQ[sys - 1 := t.numQ[sys - 1] + 1],
            qMap := t.qMap + [(sys, id)])
  }

  function InternSmt(t: Tables, sm: string): Tables {
    if sm in t.smtCache then t
    else t.(numSmt := t.numSmt + 1, smtCache := t.smtCache[sm := t.numSmt + 1],
            stCache := t.stCache + [map[]], numSt := t.numSt + [0])
  }

  function InternSt(t: Tables, sm: string, st: string): Tables
    requires StatesOk(t)
  {
    var u := InternSmt(t, sm);
    InternSmtOk(t, sm);
    var x := u.smtCache[sm] - 1;
    if st in u.stCache[x] then u
    else u.(stCache := u.stCache[x := Put(u.stCache[x], st, u.numSt[x] + 1)],
            numSt := u.numSt[x := u.numSt[x] + 1])
  }

  // ----- They keep the tables in order -----

  lemma NumberedExtend<K(!new)>(m: map<K, nat>, n: nat, k: K)
    requires Numbered(m, n) && k !in m
    ensures Numbered(m[k := n + 1], n + 1)
  {
  }

  lemma InternSmtOk(t: Tables, sm: string)
    requires StatesOk(t)
    ensures StatesOk(InternSmt(t, sm))
    ensures sm in InternSmt(t, sm).smtCache && 1 <= InternSmt(t, sm).smtCache[sm] <= InternSmt(t, sm).numSmt
  {
    if sm !in t.smtCache { NumberedExtend(t.smtCache, t.numSmt, sm); }
  }

  lemma InternStOk(t: Tables, sm: string, st: string)
    requires TablesOk(t)
    ensures TablesOk(InternSt(t, sm, st))
  {
    hide Inverse, Numbered;
    var u := InternSmt(t, sm);
    InternSmtOk(t, sm);
    var x := u.smtCache[sm] - 1;
    if st !in u.stCache[x] { NumberedExtend(u.stCache[x], u.numSt[x], st); }
  }

  lemma ListedGrow(cache: seq<map<Id, nat>>, table: seq<(nat, Id)>)
    requires Listed(cache, table)
    ensures Listed(cache + [map[]], table)
  {
  }

  lemma FoundGrow(cache: seq<map<Id, nat>>, table: seq<(nat, Id)>)
    requires Found(cache, table)
    ensures Found(cache + [map[]], table)
  {
    forall k | 0 <= k < |table| ensures FoundAt(cache + [map[]], table[k], k) { assert FoundAt(cache, table[k], k); }
  }

  lemma InverseGrow(cache: seq<map<Id, nat>>, table: seq<(nat, Id)>)
    requires Inverse(cache, table)
    ensures Inverse(cache + [map[]], table)
  {
    hide Listed, Found;
    ListedGrow(cache, table);
    FoundGrow(cache, table);
  }

  function AddName(cache: seq<map<Id, nat>>, sys: nat, id: Id, n: nat): seq<map<Id, nat>>
    requires 1 <= sys <= |cache|
  {
    cache[sys - 1 := Put(cache[sys - 1], id, n)]
  }

  lemma ListedExtend(cache: seq<map<Id, nat>>, table: seq<(nat, Id)>, sys: nat, id: Id)
    requires Listed(cache, table) && 1 <= sys <= |cache| && id !in cache[sys - 1]
    ensures Listed(AddName(cache, sys, id, |table| + 1), table + [(sys, id)])
  {
    var after := AddName(cache, sys, id, |table| + 1);
    var listed := table + [(sys, id)];
    forall x, other | 0 <= x < |after| && other in after[x]
      ensures 1 <= after[x][other] <= |listed| && listed[after[x][other] - 1] == (x + 1, other)
    {
      if x != sys - 1 || other != id { assert other in cache[x] && after[x][other] == cache[x][other]; }
    }
  }

  lemma FoundExtend(cache: seq<map<Id, nat>>, table: seq<(nat, Id)>, sys: nat, id: Id)
    requires Found(cache, table) && 1 <= sys <= |cache| && id !in cache[sys - 1]
    ensures Found(AddName(cache, sys, id, |table| + 1), table + [(sys, id)])
  {
    var listed := table + [(sys, id)];
    forall k | 0 <= k < |listed|
      ensures FoundAt(AddName(cache, sys, id, |table| + 1), listed[k], k)
    {
      if k < |table| { assert FoundAt(cache, table[k], k); }
    }
  }

  lemma InverseExtend(cache: seq<map<Id, nat>>, table: seq<(nat, Id)>, sys: nat, id: Id)
    requires Inverse(cache, table) && 1 <= sys <= |cache| && id !in cache[sys - 1]
    ensures Inverse(AddName(cache, sys, id, |table| + 1), table + [(sys, id)])
  {
    hide Listed, Found;
    ListedExtend(cache, table, sys, id);
    FoundExtend(cache, table, sys, id);
  }

  lemma InternSysOk(t: Tables, s: System)
    requires TablesOk(t)
    ensures TablesOk(InternSys(t, s))
  {
    hide Inverse, Numbered;
    if s !in t.nameCache {
      var u := InternSys(t, s);
      NumberedExtend(SystemIds(t.nameCache), t.numSys, s);
      assert SystemIds(u.nameCache) == SystemIds(t.nameCache)[s := t.numSys + 1];
      InverseGrow(t.smCache, t.smMap);
      InverseGrow(t.qCache, t.qMap);
    }
  }

  lemma InternSmOk(t: Tables, sys: nat, id: Id)
    requires TablesOk(t) && 1 <= sys <= t.numSys && InternSm(t, sys, id).numSm < MAX_IDS
    ensures TablesOk(InternSm(t, sys, id))
  {
    hide Inverse, Numbered;
    if id !in t.smCache[sys - 1] { InverseExtend(t.smCache, t.smMap, sys, id); }
  }

  lemma InternQOk(t: Tables, sys: nat, id: Id)
    requires TablesOk(t) && 1 <= sys <= t.numSys && InternQ(t, sys, id).numQs < MAX_IDS
    ensures TablesOk(InternQ(t, sys, id))
  {
    hide Inverse, Numbered;
    if id !in t.qCache[sys - 1] { InverseExtend(t.qCache, t.qMap, sys, id); }
  }

  // ----- Dense and injective -----

  function Range(n: nat): set<nat> {
    if n == 0 then {} else Range(n - 1) + {n}
  }

  lemma {:induction false} RangeSize(n: nat)
    ensures |Range(n)| == n
    ensures forall i: nat :: i in Range(n) <==> 1 <= i <= n
  {
    if n > 0 { RangeSize(n - 1); }
  }

  lemma {:induction false} InjectiveImage<K(!new)>(m: map<K, nat>, keys: set<K>)
    requires keys <= m.Keys
    requires forall k, l :: k in m && l in m && m[k] == m[l] ==> k == l
    ensures |set k | k in keys :: m[k]| == |keys|
    decreases |keys|
  {
    if keys == {} {
      assert (set k | k in keys :: m[k]) == {};
    } else {
      var k :| k in keys;
      InjectiveImage(m, keys - {k});
      assert (set l | l in keys :: m[l]) == (set l | l in keys - {k} :: m[l]) + {m[k]};
    }
  }

  lemma SubsetSameSize(a: set<nat>, b: set<nat>)
    requires a <= b && |a| == |b|
    ensures a == b
  {
    assert b == a + (b - a);
    assert |b| == |a| + |b - a|;
  }

  /** No number is skipped: every one of 1..n belongs to some name. */
  lemma NumbersAreDense<K(!new)>(m: map<K, nat>, n: nat, i: nat)
    requires Numbered(m, n) && 1 <= i <= n
    ensures exists k :: k in m && m[k] == i
  {
    var image := set k | k in m.Keys :: m[k];
    InjectiveImage(m, m.Keys);
    RangeSize(n);
    SubsetSameSize(image, Range(n));
    assert i in image;
  }

  /** Two names share a number only if they are the same name of the same system. */
  lemma IdsInjective(cache: seq<map<Id, nat>>, table: seq<(nat, Id)>, x: nat, id: Id, y: nat, id': Id)
    requires Inverse(cache, table) && x < |cache| && y < |cache| && id in cache[x] && id' in cache[y]
    requires cache[x][id] == cache[y][id']
    ensures x == y && id == id'
  {
    hide Found;
    assert table[cache[x][id] - 1] == (x + 1, id);
  }
}
