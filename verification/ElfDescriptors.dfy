/**
 Lifetimes of libelf descriptors: activation counts, archive members that keep their
 archive alive, and the release loop that climbs to the parents.

 A pointer is an index into the list of all descriptors ever allocated; `released` marks
 memory that has been freed.  What the operating system and the file contents decide is a
 parameter: `image` is the kind of object found, or None if opening or parsing fails.
 */
module ElfDescriptors {

  datatype Option<+T> = None | Some(value: T)
  datatype Kind = NoKind | Archive | Object
  datatype Cmd = Null | Read | Write | ReadWrite | Unknown

  datatype Elf = Elf(
    activations: int, kind: Kind, cmd: Cmd, fd: int, parent: Option<nat>, nchildren: int, released: bool)

  type Store = seq<Elf>

  // ----- What holds between calls -----

  function Children(elfs: Store, p: nat): set<nat> {
    set j | 0 <= j < |elfs| && !elfs[j].released && elfs[j].parent == Some(p)
  }

  /** Members are younger than their archive, and no live member has a freed archive. */
  ghost predicate ParentOk(elfs: Store, i: nat)
    requires i < |elfs|
  {
    elfs[i].parent.Some? ==>
      var p := elfs[i].parent.value;
      p < i && elfs[p].kind == Archive && !elfs[p].released
  }

  ghost predicate CountsOk(elfs: Store, i: nat)
    requires i < |elfs|
  {
    && elfs[i].activations >= 0
    && elfs[i].nchildren == |Children(elfs, i)|
    && (elfs[i].kind != Archive ==> elfs[i].nchildren == 0)
  }

  /** A live descriptor is activated, or is an archive with an open member. */
  ghost predicate Needed(e: Elf) {
    e.activations > 0 || (e.kind == Archive && e.nchildren > 0)
  }

  ghost predicate Live(elfs: Store, i: nat) {
    i < |elfs| && !elfs[i].released
  }

  ghost predicate Sound(elfs: Store, i: nat, but: Option<nat>)
    requires i < |elfs|
  {
    if elfs[i].released then elfs[i].activations == 0
    else ParentOk(elfs, i) && CountsOk(elfs, i) && (Some(i) != but ==> Needed(elfs[i]))
  }

  /** The invariant, except that `but` (if any) may no longer be needed. */
  ghost predicate InvBut(elfs: Store, but: Option<nat>) {
    forall i {:trigger Sound(elfs, i, but)} :: 0 <= i < |elfs| ==> Sound(elfs, i, but)
  }

  ghost predicate Inv(elfs: Store) {
    InvBut(elfs, None)
  }

  // ----- The operations -----

  function NewElf(kind: Kind, cmd: Cmd, fd: int, parent: Option<nat>): Elf {
    Elf(1, kind, cmd, fd, parent, 0, false)
  }

  /** Frees descriptor e and takes it off its archive's count. */
  function Freed(elfs: Store, e: nat): Store
    requires e < |elfs| && (elfs[e].parent.Some? ==> elfs[e].parent.value < |elfs|)
  {
    var freed := elfs[e := elfs[e].(released := true)];
    match elfs[e].parent
    case None => freed
    case Some(p) => freed[p := freed[p].(nchildren := freed[p].nchildren - 1)]
  }

  /** The release loop: free e if nothing needs it any more, then look at its archive. */
  function ReleaseUp(elfs: Store, e: nat): (r: Store)
    ensures |r| == |elfs|
    decreases e
  {
    if e >= |elfs| || elfs[e].activations != 0 || (elfs[e].kind == Archive && elfs[e].nchildren > 0) then elfs
    else match elfs[e].parent
      case None => Freed(elfs, e)
      case Some(p) => if p < e then ReleaseUp(Freed(elfs, e), p) else elfs
  }

  function EndSpec(elfs: Store, e: nat): (r: Store)
    requires e < |elfs|
    ensures |r| == |elfs|
  {
    if elfs[e].activations == 0 then elfs
    else
      var fewer := elfs[e := elfs[e].(activations := elfs[e].activations - 1)];
      if fewer[e].activations > 0 then fewer else ReleaseUp(fewer, e)
  }

  /** Ending a descriptor that was just made frees it and nothing else. */
  lemma EndsAtOnce(elfs: Store, d: Elf)
    requires d.activations == 1 && d.nchildren == 0 && d.parent.None?
    ensures EndSpec(elfs + [d], |elfs|) == elfs + [d.(activations := 0, released := true)]
  {
  }

  /** A refused or failed `elf_begin` returns no descriptor and leaves the library as it was. */
  function BeginSpec(elfs: Store, version: bool, fd: int, c: Cmd, a: Option<nat>,
                     image: Option<Kind>): (Store, Option<nat>)
    requires a.Some? ==> a.value < |elfs|
  {
    if !version || c == Null || c == Unknown then (elfs, None)
    else if c == Write then
      if a.Some? || image.None? then (elfs, None)
      else (elfs + [NewElf(Object, c, fd, None)], Some(|elfs|))
    else if a.Some? && (c == ReadWrite || elfs[a.value].fd != fd || elfs[a.value].cmd != c) then (elfs, None)
    else if a.None? then
      if image.None? then (elfs, None)
      else if c == ReadWrite && image.value == Archive then
        (EndSpec(elfs + [NewElf(Archive, c, fd, None)], |elfs|), None)
      else (elfs + [NewElf(image.value, c, fd, None)], Some(|elfs|))
    else if elfs[a.value].kind == Archive then
      if image.None? then (elfs, None)
      else (Counted(elfs, a) + [NewElf(image.value, c, fd, a)], Some(|elfs|))
    else (elfs[a.value := elfs[a.value].(activations := elfs[a.value].activations + 1)], a)
  }

  // ----- They keep the invariant -----

  lemma ChildrenOfFreed(elfs: Store, e: nat, p: nat)
    requires InvBut(elfs, Some(e)) && Live(elfs, e) && p < |elfs|
    ensures elfs[e].parent.Some? ==> elfs[e].parent.value < |elfs|
    ensures Children(Freed(elfs, e), p) == Children(elfs, p) - {e}
  {
    assert Sound(elfs, e, Some(e));
  }

  lemma FreedOne(elfs: Store, e: nat, i: nat)
    requires InvBut(elfs, Some(e)) && Live(elfs, e) && elfs[e].nchildren == 0 && Live(elfs, i) && i != e
    ensures elfs[e].parent.Some? ==> elfs[e].parent.value < |elfs|
    ensures var after := Freed(elfs, e);
            ParentOk(after, i) && CountsOk(after, i) && (elfs[e].parent != Some(i) ==> after[i] == elfs[i])
  {
    assert Sound(elfs, i, Some(e)) && Sound(elfs, e, Some(e));
    ChildrenOfFreed(elfs, e, i);
    ChildOf(elfs, e, i);
    NotChildless(elfs, e, i);
    hide Children, InvBut;
    assert elfs[e].parent != Some(i) ==> Children(elfs, i) - {e} == Children(elfs, i);
  }

  lemma ChildOf(elfs: Store, e: nat, i: nat)
    requires Live(elfs, e)
    ensures e in Children(elfs, i) <==> elfs[e].parent == Some(i)
  {
  }

  /** A descriptor without members is nobody's archive. */
  lemma NotChildless(elfs: Store, e: nat, i: nat)
    requires Live(elfs, e) && Live(elfs, i) && CountsOk(elfs, e) && elfs[e].nchildren == 0
    ensures elfs[i].parent != Some(e)
  {
    ChildOf(elfs, i, e);
  }

  lemma FreedOk(elfs: Store, e: nat)
    requires InvBut(elfs, Some(e)) && Live(elfs, e) && elfs[e].activations == 0 && elfs[e].nchildren == 0
    ensures elfs[e].parent.Some? ==> elfs[e].parent.value < |elfs|
    ensures InvBut(Freed(elfs, e), elfs[e].parent)
    ensures elfs[e].parent.Some? ==> Live(Freed(elfs, e), elfs[e].parent.value)
  {
    assert Sound(elfs, e, Some(e));
    var after := Freed(elfs, e);
    forall i | 0 <= i < |after|
      ensures Sound(after, i, elfs[e].parent)
    {
      assert Sound(elfs, i, Some(e));
      if !after[i].released { FreedOne(elfs, e, i); }
    }
  }

  /** Climbing the parents ends with everything in order again. */
  lemma {:induction false} ReleaseUpOk(elfs: Store, e: nat)
    requires InvBut(elfs, Some(e)) && Live(elfs, e)
    ensures Inv(ReleaseUp(elfs, e))
    decreases e
  {
    assert Sound(elfs, e, Some(e));
    if Needed(elfs[e]) {
      forall i | 0 <= i < |elfs| ensures Sound(elfs, i, None) { assert Sound(elfs, i, Some(e)); }
    } else {
      FreedOk(elfs, e);
      match elfs[e].parent
      case None =>
      case Some(p) => ReleaseUpOk(Freed(elfs, e), p);
    }
  }

  lemma SameChildren(elfs: Store, e: nat, d: Elf, p: nat)
    requires e < |elfs| && d.parent == elfs[e].parent && d.released == elfs[e].released
    ensures Children(elfs[e := d], p) == Children(elfs, p)
  {
  }

  lemma ActivationsOk(elfs: Store, e: nat, n: nat)
    requires Inv(elfs) && Live(elfs, e)
    ensures InvBut(elfs[e := elfs[e].(activations := n)], Some(e))
    ensures n > 0 ==> Inv(elfs[e := elfs[e].(activations := n)])
  {
    var d := elfs[e].(activations := n);
    var after := elfs[e := d];
    forall i | 0 <= i < |after|
      ensures Sound(after, i, Some(e)) && (n > 0 ==> Sound(after, i, None))
    {
      assert Sound(elfs, i, None);
      SameChildren(elfs, e, d, i);
    }
  }

  /** Only the counts differ, and what was freed stays freed. */
  predicate SameDescriptor(d: Elf, e: Elf) {
    && e.kind == d.kind && e.cmd == d.cmd && e.fd == d.fd && e.parent == d.parent
    && e.nchildren <= d.nchildren && (d.released ==> e.released)
  }

  lemma {:induction false} ReleaseUpKeeps(elfs: Store, e: nat)
    ensures var after := ReleaseUp(elfs, e);
      forall i :: 0 <= i < |elfs| ==> SameDescriptor(elfs[i], after[i]) && after[i].activations == elfs[i].activations
    decreases e
  {
    if e < |elfs| && elfs[e].parent.Some? && elfs[e].parent.value < e {
      ReleaseUpKeeps(Freed(elfs, e), elfs[e].parent.value);
    }
  }

  lemma EndKeeps(elfs: Store, e: nat)
    requires e < |elfs|
    ensures var after := EndSpec(elfs, e);
      && (forall i :: 0 <= i < |elfs| ==> SameDescriptor(elfs[i], after[i]))
      && (forall i :: 0 <= i < |elfs| && i != e ==> after[i].activations == elfs[i].activations)
      && after[e].activations == (if elfs[e].activations == 0 then 0 else elfs[e].activations - 1)
  {
    ReleaseUpKeeps(elfs[e := elfs[e].(activations := elfs[e].activations - 1)], e);
  }

  /**
   In order, exactly those descriptors are freed that no caller holds and no open member needs: an
   unneeded one is freed, and neither a held one nor the archive of an open member is.
   */
  lemma FreedIff(elfs: Store, i: nat)
    requires Inv(elfs) && i < |elfs|
    ensures elfs[i].activations > 0 ==> !elfs[i].released
    ensures Children(elfs, i) != {} ==> !elfs[i].released
    ensures elfs[i].activations == 0 && Children(elfs, i) == {} ==> elfs[i].released
  {
    assert Sound(elfs, i, None);
    if j :| j in Children(elfs, i) { assert Sound(elfs, j, None); }
  }

  lemma EndOk(elfs: Store, e: nat)
    requires Inv(elfs) && Live(elfs, e)
    ensures Inv(EndSpec(elfs, e))
  {
    if elfs[e].activations != 0 {
      assert Sound(elfs, e, None);
      ActivationsOk(elfs, e, elfs[e].activations - 1);
      if elfs[e].activations == 1 {
        ReleaseUpOk(elfs[e := elfs[e].(activations := 0)], e);
      }
    }
  }

  /** A new descriptor, with or without an archive that counts it. */
  lemma AddOk(elfs: Store, d: Elf)
    requires Inv(elfs) && d.activations == 1 && d.nchildren == 0 && !d.released
    requires d.parent.Some? ==> Live(elfs, d.parent.value) && elfs[d.parent.value].kind == Archive
    ensures Inv(Counted(elfs, d.parent) + [d])
  {
    var counted := Counted(elfs, d.parent);
    var after := counted + [d];
    forall i | 0 <= i < |after|
      ensures Sound(after, i, None)
    {
      ChildrenOfAdded(elfs, d, i);
      if i < |elfs| { assert Sound(elfs, i, None); }
    }
  }

  function Counted(elfs: Store, parent: Option<nat>): Store
    requires parent.Some? ==> parent.value < |elfs|
  {
    if parent.None? then elfs
    else elfs[parent.value := elfs[parent.value].(nchildren := elfs[parent.value].nchildren + 1)]
  }

  lemma ChildrenOfAdded(elfs: Store, d: Elf, i: nat)
    requires Inv(elfs) && !d.released && (d.parent.Some? ==> d.parent.value < |elfs|)
    ensures var after := Counted(elfs, d.parent) + [d];
            && |elfs| !in Children(elfs, i)
            && Children(after, i) == Children(elfs, i) + (if d.parent == Some(i) then {|elfs|} else {})
            && (i == |elfs| ==> Children(after, i) == {})
  {
    var after := Counted(elfs, d.parent) + [d];
    if i == |elfs| {
      forall j | 0 <= j < |elfs| && !elfs[j].released
        ensures elfs[j].parent != Some(i)
      {
        assert Sound(elfs, j, None);
      }
    }
  }

  lemma BeginOk(elfs: Store, version: bool, fd: int, c: Cmd, a: Option<nat>, image: Option<Kind>)
    requires Inv(elfs) && (a.Some? ==> Live(elfs, a.value))
    ensures var (after, r) := BeginSpec(elfs, version, fd, c, a, image);
            Inv(after) && (r.Some? ==> Live(after, r.value) && after[r.value].activations > 0)
  {
    var (after, r) := BeginSpec(elfs, version, fd, c, a, image);
    if r == Some(|elfs|) {
      AddOk(elfs, after[|elfs|]);
    } else if r.Some? {
      assert Sound(elfs, a.value, None);
      ActivationsOk(elfs, a.value, elfs[a.value].activations + 1);
    } else if |after| > |elfs| {
      AddOk(elfs, NewElf(Archive, c, fd, None));
      EndOk(elfs + [NewElf(Archive, c, fd, None)], |elfs|);
    }
  }

  // ----- Whole runs -----

  datatype Event =
    | Begin(version: bool, fd: int, c: Cmd, a: Option<nat>, image: Option<Kind>)
    | End(e: nat)

  /** Callers may only pass descriptors that have not been freed. */
  ghost predicate Legal(elfs: Store, ev: Event) {
    match ev
    case Begin(_, _, _, a, _) => a.Some? ==> Live(elfs, a.value)
    case End(e) => Live(elfs, e)
  }

  function Step(elfs: Store, ev: Event): Store {
    match ev
    case Begin(version, fd, c, a, image) =>
      if a.Some? && a.value >= |elfs| then elfs else BeginSpec(elfs, version, fd, c, a, image).0
    case End(e) => if e >= |elfs| then elfs else EndSpec(elfs, e)
  }

  function After(elfs: Store, run: seq<Event>): Store
    decreases |run|
  {
    if run == [] then elfs else After(Step(elfs, run[0]), run[1..])
  }

  ghost predicate LegalRun(elfs: Store, run: seq<Event>)
    decreases |run|
  {
    run == [] || (Legal(elfs, run[0]) && LegalRun(Step(elfs, run[0]), run[1..]))
  }

  lemma StepOk(elfs: Store, ev: Event)
    requires Inv(elfs) && Legal(elfs, ev)
    ensures Inv(Step(elfs, ev))
  {
    match ev
    case Begin(version, fd, c, a, image) => BeginOk(elfs, version, fd, c, a, image);
    case End(e) => EndOk(elfs, e);
  }

  /** Every run of `elf_begin` and `elf_end` on live descriptors keeps the invariant. */
  lemma {:induction false} RunOk(elfs: Store, run: seq<Event>)
    requires Inv(elfs) && LegalRun(elfs, run)
    ensures Inv(After(elfs, run))
    decreases |run|
  {
    hide InvBut, Step;
    if run != [] {
      StepOk(elfs, run[0]);
      RunOk(Step(elfs, run[0]), run[1..]);
    }
  }

  // ----- Nothing leaks -----

  /** All activations that callers still owe an `elf_end` for. */
  function Held(elfs: Store): int {
    if elfs == [] then 0 else Held(elfs[..|elfs| - 1]) + elfs[|elfs| - 1].activations
  }

  lemma {:induction false} HeldUpdate(elfs: Store, e: nat, d: Elf)
    requires e < |elfs|
    ensures Held(elfs[e := d]) == Held(elfs) - elfs[e].activations + d.activations
  {
    var last := |elfs| - 1;
    if e == last {
      assert elfs[e := d][..last] == elfs[..last];
    } else {
      HeldUpdate(elfs[..last], e, d);
      assert elfs[e := d][..last] == elfs[..last][e := d];
    }
  }

  lemma {:induction false} HeldReleaseUp(elfs: Store, e: nat)
    ensures Held(ReleaseUp(elfs, e)) == Held(elfs)
    decreases e
  {
    if ReleaseUp(elfs, e) != elfs {
      var freed := elfs[e := elfs[e].(released := true)];
      HeldUpdate(elfs, e, elfs[e].(released := true));
      match elfs[e].parent
      case None =>
      case Some(p) =>
        HeldUpdate(freed, p, freed[p].(nchildren := freed[p].nchildren - 1));
        HeldReleaseUp(Freed(elfs, e), p);
    }
  }

  lemma HeldAppend(elfs: Store, d: Elf)
    ensures Held(elfs + [d]) == Held(elfs) + d.activations
  {
    assert (elfs + [d])[..|elfs|] == elfs;
  }

  lemma HeldEnd(elfs: Store, e: nat)
    requires e < |elfs|
    ensures Held(EndSpec(elfs, e)) == Held(elfs) - if elfs[e].activations == 0 then 0 else 1
  {
    if elfs[e].activations != 0 {
      var fewer := elfs[e := elfs[e].(activations := elfs[e].activations - 1)];
      HeldUpdate(elfs, e, fewer[e]);
      HeldReleaseUp(fewer, e);
    }
  }

  /** A successful begin adds one activation, an end takes one away, and nothing else counts. */
  lemma HeldBegin(elfs: Store, version: bool, fd: int, c: Cmd, a: Option<nat>, image: Option<Kind>)
    requires a.Some? ==> a.value < |elfs|
    ensures var (after, r) := BeginSpec(elfs, version, fd, c, a, image);
            Held(after) == Held(elfs) + if r.Some? then 1 else 0
  {
    if a.Some? {
      HeldBeginOn(elfs, version, fd, c, a.value, image);
    } else {
      HeldBeginFile(elfs, version, fd, c, image);
    }
  }

  lemma HeldBeginOn(elfs: Store, version: bool, fd: int, c: Cmd, a: nat, image: Option<Kind>)
    requires a < |elfs|
    ensures var (after, r) := BeginSpec(elfs, version, fd, c, Some(a), image);
            Held(after) == Held(elfs) + if r.Some? then 1 else 0
  {
    hide Held, Counted;
    HeldUpdate(elfs, a, elfs[a].(activations := elfs[a].activations + 1));
    if image.Some? { HeldAdded(elfs, NewElf(image.value, c, fd, Some(a))); }
  }

  lemma HeldBeginFile(elfs: Store, version: bool, fd: int, c: Cmd, image: Option<Kind>)
    ensures var (after, r) := BeginSpec(elfs, version, fd, c, None, image);
            Held(after) == Held(elfs) + if r.Some? then 1 else 0
  {
    hide Held, EndSpec;
    HeldAppend(elfs, NewElf(Object, c, fd, None));
    if image.Some? { HeldAppend(elfs, NewElf(image.value, c, fd, None)); }
    HeldAppend(elfs, NewElf(Archive, c, fd, None));
    HeldEnd(elfs + [NewElf(Archive, c, fd, None)], |elfs|);
  }

  lemma HeldAdded(elfs: Store, d: Elf)
    requires d.parent.Some? && d.parent.value < |elfs|
    ensures Held(Counted(elfs, d.parent) + [d]) == Held(elfs) + d.activations
  {
    hide Held;
    var p := d.parent.value;
    HeldUpdate(elfs, p, elfs[p].(nchildren := elfs[p].nchildren + 1));
    HeldAppend(Counted(elfs, d.parent), d);
  }

  lemma {:induction false} HeldZero(elfs: Store, i: nat)
    requires i < |elfs| && Held(elfs) == 0 && forall k :: 0 <= k < |elfs| ==> elfs[k].activations >= 0
    ensures elfs[i].activations == 0
  {
    HeldNonNegative(elfs[..|elfs| - 1]);
    if i < |elfs| - 1 { HeldZero(elfs[..|elfs| - 1], i); }
  }

  lemma {:induction false} HeldNonNegative(elfs: Store)
    requires forall k :: 0 <= k < |elfs| ==> elfs[k].activations >= 0
    ensures Held(elfs) >= 0
  {
    if elfs != [] { HeldNonNegative(elfs[..|elfs| - 1]); }
  }

  lemma YoungerMembers(elfs: Store, i: nat)
    requires Inv(elfs)
    ensures forall j :: j in Children(elfs, i) ==> i < j && Live(elfs, j)
  {
    forall j | j in Children(elfs, i) ensures i < j { assert Sound(elfs, j, None); }
  }

  /** If no descriptor from i on is live, then a descriptor without activations cannot be needed. */
  lemma {:induction false} NoneLiveFrom(elfs: Store, i: nat)
    requires Inv(elfs) && i <= |elfs| && forall k :: 0 <= k < |elfs| ==> elfs[k].activations == 0
    ensures forall k :: i <= k < |elfs| ==> elfs[k].released
    decreases |elfs| - i
  {
    if i < |elfs| {
      NoneLiveFrom(elfs, i + 1);
      YoungerMembers(elfs, i);
      assert Children(elfs, i) == {};
      assert Sound(elfs, i, None);
    }
  }

  /** When every activation has been ended, everything has been freed, archives included. */
  lemma NoLeaks(run: seq<Event>)
    requires LegalRun([], run)
    ensures var elfs := After([], run);
            Held(elfs) == 0 <==> forall k :: 0 <= k < |elfs| ==> elfs[k].released
  {
    RunOk([], run);
    var elfs := After([], run);
    forall k | 0 <= k < |elfs| ensures elfs[k].activations >= 0 { assert Sound(elfs, k, None); }
    if Held(elfs) == 0 {
      forall k | 0 <= k < |elfs| ensures elfs[k].activations == 0 { HeldZero(elfs, k); }
      NoneLiveFrom(elfs, 0);
    }
    if forall k :: 0 <= k < |elfs| ==> elfs[k].released {
      forall k | 0 <= k < |elfs| ensures elfs[k].activations == 0 { assert Sound(elfs, k, None); }
      HeldAllZero(elfs);
    }
  }

  lemma {:induction false} HeldAllZero(elfs: Store)
    requires forall k :: 0 <= k < |elfs| ==> elfs[k].activations == 0
    ensures Held(elfs) == 0
  {
    if elfs != [] { HeldAllZero(elfs[..|elfs| - 1]); }
  }

  // ----- The library -----

  class Library {
    var version: bool
    var elfs: Store

    constructor ()
      ensures !version && elfs == [] && Inv(elfs)
    {
      version, elfs := false, [];
    }

    method ElfEnd(e: Option<nat>) returns (r: int)
      requires Inv(elfs) && (e.Some? ==> Live(elfs, e.value))
      modifies this`elfs
      ensures Inv(elfs)
      ensures e.None? ==> elfs == old(elfs) && r == 0
      ensures e.Some? ==> elfs == EndSpec(old(elfs), e.value)
      ensures e.Some? ==> r == if old(elfs)[e.value].activations > 0 then old(elfs)[e.value].activations - 1 else 0
      ensures e.Some? ==> |elfs| == |old(elfs)| && elfs[e.value].activations == r
      ensures e.Some? && r > 0 ==> elfs == old(elfs)[e.value := old(elfs)[e.value].(activations := r)]
      ensures forall i :: 0 <= i < |elfs| && Some(i) != e ==> elfs[i].activations == old(elfs)[i].activations
      ensures forall i :: 0 <= i < |elfs| ==> SameDescriptor(old(elfs)[i], elfs[i])
    {
      if e.Some? { EndKeeps(elfs, e.value); }
      if e.None? || elfs[e.value].activations == 0 { return 0; }
      var i := e.value;
      assert Sound(elfs, i, None);
      hide InvBut, ReleaseUp;
      EndOk(elfs, i);
      ActivationsOk(elfs, i, elfs[i].activations - 1);
      elfs := elfs[i := elfs[i].(activations := elfs[i].activations - 1)];
      if elfs[i].activations > 0 { return elfs[i].activations; }
      assert elfs[i].activations == 0;
      r := ReleaseLoop(i);
    }

    /** Frees descriptors up the parent chain; every descriptor it touches is still live. */
    method ReleaseLoop(start: nat) returns (r: int)
      requires InvBut(elfs, Some(start)) && Live(elfs, start)
      modifies this`elfs
      ensures elfs == ReleaseUp(old(elfs), start) && r == 0
    {
      var e: Option<nat> := Some(start);
      while e.Some? && elfs[e.value].activations == 0
        invariant e.Some? ==> Live(elfs, e.value) && InvBut(elfs, e)
        invariant e.Some? ==> ReleaseUp(elfs, e.value) == ReleaseUp(old(elfs), start)
        invariant e.None? ==> elfs == ReleaseUp(old(elfs), start)
        decreases if e.Some? then e.value + 1 else 0
      {
        var i := e.value;
        assert Sound(elfs, i, e);
        if elfs[i].kind == Archive && elfs[i].nchildren > 0 { return 0; }
        FreedOk(elfs, i);
        var parent := elfs[i].parent;
        elfs := Freed(elfs, i);
        e := parent;
      }
      r := 0;
    }

    method ElfBegin(fd: int, c: Cmd, a: Option<nat>, image: Option<Kind>) returns (r: Option<nat>)
      requires Inv(elfs) && (a.Some? ==> Live(elfs, a.value))
      modifies this`elfs
      ensures Inv(elfs) && (elfs, r) == BeginSpec(old(elfs), version, fd, c, a, image)
      // Refused, or nothing to open: no descriptor, and nothing changes.
      ensures !version || c == Null || c == Unknown || (c != Read && a.Some?) ==> r == None && elfs == old(elfs)
      ensures a.Some? && (old(elfs)[a.value].fd != fd || old(elfs)[a.value].cmd != c) ==> r == None && elfs == old(elfs)
      ensures image.None? && (a.None? || old(elfs)[a.value].kind == Archive) ==> r == None && elfs == old(elfs)
      // A member of an archive: new, activated once, of the kind found, and counted in the archive alone.
      ensures version && c == Read && a.Some? && old(elfs)[a.value].fd == fd && old(elfs)[a.value].cmd == c
              && old(elfs)[a.value].kind == Archive && image.Some? ==>
                && r == Some(|old(elfs)|) && |elfs| == |old(elfs)| + 1
                && elfs[|old(elfs)|] == Elf(1, image.value, c, fd, a, 0, false)
                && elfs[a.value] == old(elfs)[a.value].(nchildren := old(elfs)[a.value].nchildren + 1)
                && (forall i :: 0 <= i < |old(elfs)| && i != a.value ==> elfs[i] == old(elfs)[i])
      // Any other descriptor: activated once more, and nothing else.
      ensures version && c == Read && a.Some? && old(elfs)[a.value].fd == fd && old(elfs)[a.value].cmd == c
              && old(elfs)[a.value].kind != Archive ==>
                && r == a
                && elfs == old(elfs)[a.value := old(elfs)[a.value].(activations := old(elfs)[a.value].activations + 1)]
      // A file: a new descriptor without archive.  An archive for update is freed at once.
      ensures version && a.None? && image.Some? && (c == Read || (c == ReadWrite && image.value != Archive)) ==>
                r == Some(|old(elfs)|) && elfs == old(elfs) + [Elf(1, image.value, c, fd, None, 0, false)]
      ensures version && a.None? && image.Some? && c == Write ==>
                r == Some(|old(elfs)|) && elfs == old(elfs) + [Elf(1, Object, c, fd, None, 0, false)]
      ensures version && a.None? && image == Some(Archive) && c == ReadWrite ==>
                && r == None && |elfs| == |old(elfs)| + 1 && elfs[..|old(elfs)|] == old(elfs)
                && elfs[|old(elfs)|].released
    {
      EndsAtOnce(elfs, NewElf(Archive, c, fd, None));
      hide InvBut, EndSpec;
      BeginOk(elfs, version, fd, c, a, image);
      if !version { return None; }
      match c {
        case Null => return None;
        case Write =>
          if a.Some? || image.None? { return None; }
          r := Some(|elfs|);
          elfs := elfs + [NewElf(Object, c, fd, None)];
          return;
        case ReadWrite => if a.Some? { return None; }
        case Read => if a.Some? && (elfs[a.value].fd != fd || c != elfs[a.value].cmd) { return None; }
        case Unknown => return None;
      }
      if a.None? {
        r := OpenObject(fd, c, image);
      } else if elfs[a.value].kind == Archive {
        r := OpenMember(fd, c, a.value, image);
      } else {
        elfs := elfs[a.value := elfs[a.value].(activations := elfs[a.value].activations + 1)];
        r := a;
      }
    }

    method OpenObject(fd: int, c: Cmd, image: Option<Kind>) returns (r: Option<nat>)
      requires Inv(elfs)
      modifies this`elfs
      ensures image.None? ==> elfs == old(elfs) && r == None
      ensures image.Some? && c == ReadWrite && image.value == Archive ==>
                r == None && elfs == EndSpec(old(elfs) + [NewElf(Archive, c, fd, None)], |old(elfs)|)
      ensures image.Some? && !(c == ReadWrite && image.value == Archive) ==>
                r == Some(|old(elfs)|) && elfs == old(elfs) + [NewElf(image.value, c, fd, None)]
    {
      hide InvBut, EndSpec;
      if image.None? { return None; }
      var e := |elfs|;
      AddOk(elfs, NewElf(image.value, c, fd, None));
      elfs := elfs + [NewElf(image.value, c, fd, None)];
      if c == ReadWrite && elfs[e].kind == Archive {
        var _ := ElfEnd(Some(e));
        return None;
      }
      r := Some(e);
    }

    method OpenMember(fd: int, c: Cmd, a: nat, image: Option<Kind>) returns (r: Option<nat>)
      requires a < |elfs|
      modifies this`elfs
      ensures image.None? ==> elfs == old(elfs) && r == None
      ensures image.Some? ==>
                r == Some(|old(elfs)|) && elfs == Counted(old(elfs), Some(a)) + [NewElf(image.value, c, fd, Some(a))]
    {
      if image.None? { return None; }
      r := Some(|elfs|);
      elfs := elfs[a := elfs[a].(nchildren := elfs[a].nchildren + 1)];
      elfs := elfs + [NewElf(image.value, c, fd, Some(a))];
    }
  }
}
