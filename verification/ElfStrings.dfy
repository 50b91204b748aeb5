/**
 * Looking up a string in a string table section by its offset: once with the offsets stored in the
 * data descriptors, once by adding up the descriptors again.
 */
module ElfStrings {
  import opened ElfArith
  import opened ElfLayout

  datatype StrError = ArgumentError | BadData

  /** The byte at position pos of the buffer of descriptor index, or a null pointer. */
  datatype Lookup = Found(index: nat, pos: nat) | Fails(err: StrError)

  predicate Real(d: Data) { d.buf && d.size > 0 }

  /** Where descriptor d starts if the ones before it end at count. */
  function OwnStart(count: nat, d: Data): (r: nat)
    ensures count <= r
  {
    if d.align > 1 then Roundup(count, d.align) else count
  }

  /** The lookup by stored offsets, from descriptor i on. */
  function ByOffset(ds: seq<Data>, i: nat, offset: nat): Lookup
    requires i <= |ds|
    decreases |ds| - i
  {
    if i == |ds| then Fails(ArgumentError)
    else if !Real(ds[i]) then ByOffset(ds, i + 1, offset)
    else if ds[i].dtype != Byte then Fails(BadData)
    else if ds[i].off <= offset < ds[i].off + ds[i].size then Found(i, offset - ds[i].off)
    else ByOffset(ds, i + 1, offset)
  }

  /** The lookup by adding up, from descriptor i on with count bytes seen. */
  function ByCount(ds: seq<Data>, i: nat, count: nat, offset: nat): Lookup
    requires i <= |ds|
    decreases |ds| - i
  {
    if i == |ds| || offset < count then Fails(ArgumentError)
    else if !Real(ds[i]) then ByCount(ds, i + 1, count, offset)
    else if ds[i].dtype != Byte || (ds[i].align > 1 && !PowerOfTwo(ds[i].align)) then Fails(BadData)
    else
      var start := OwnStart(count, ds[i]);
      if offset < start then Fails(ArgumentError)
      else if offset < start + ds[i].size then Found(i, offset - start)
      else ByCount(ds, i + 1, start + ds[i].size, offset)
  }

  /** `elf_strptr`; known says whether the descriptor is one for an ELF object. */
  method Strptr(known: bool, scns: seq<Section>, appLayout: bool, scndx: nat, offset: nat) returns (r: Lookup)
    ensures !known || scndx >= |scns| ==> r == Fails(ArgumentError)
    ensures known && scndx < |scns| ==> var s := scns[scndx];
      r == if s.shType != SHT_STRTAB || offset >= s.shSize then Fails(ArgumentError)
           else if appLayout then ByOffset(s.data, 0, offset)
           else ByCount(s.data, 0, 0, offset)
    // What is found is a byte of a real buffer.
    ensures r.Found? ==>
      && known && scndx < |scns| && scns[scndx].shType == SHT_STRTAB && offset < scns[scndx].shSize
      && r.index < |scns[scndx].data| && var d := scns[scndx].data[r.index]; d.buf && d.dtype == Byte && r.pos < d.size
    // With the application's layout it is the byte at that offset, of the first buffer that covers it.
    ensures r.Found? && appLayout ==> scns[scndx].data[r.index].off + r.pos == offset
    ensures r.Found? && appLayout ==> forall j :: 0 <= j < r.index ==> !Covers(scns[scndx].data[j], offset)
    ensures known && scndx < |scns| && appLayout && scns[scndx].shType == SHT_STRTAB && offset < scns[scndx].shSize
            && AllBytes(scns[scndx].data) ==>
              (r.Found? <==> exists j :: 0 <= j < |scns[scndx].data| && Covers(scns[scndx].data[j], offset))
    // With the library's layout it is that byte too, if the gaps are those the alignments make.
    ensures r.Found? && !appLayout && InPlace(scns[scndx].data) ==> scns[scndx].data[r.index].off + r.pos == offset
    ensures known && scndx < |scns| && !appLayout && scns[scndx].shType == SHT_STRTAB && offset < scns[scndx].shSize
            && InPlace(scns[scndx].data) ==>
              (r.Found? <==> exists j :: 0 <= j < |scns[scndx].data| && Covers(scns[scndx].data[j], offset))
  {
    r := Search(known, scns, appLayout, scndx, offset);
    if known && scndx < |scns| {
      ghost var ds := scns[scndx].data;
      OffsetFinds(ds, 0, offset);
      CountFinds(ds, 0, 0, offset);
      if InPlace(ds) { PlacedAgree(ds, offset); }
    }
  }

  /** The byte at the offset lies in the buffer of d. */
  predicate Covers(d: Data, offset: nat) {
    d.buf && d.off <= offset < d.off + d.size
  }

  predicate AllBytes(ds: seq<Data>) {
    forall i :: 0 <= i < |ds| && ds[i].buf && ds[i].size > 0 ==> ds[i].dtype == Byte
  }

  /** Laid out as the library lays a string section out, with the gaps its own alignments make. */
  ghost predicate InPlace(ds: seq<Data>) {
    ds != [] ==> StringData(ds, MaxAlign(ds)) && SameStarts(ds, MaxAlign(ds), 0, 0)
  }

  lemma {:induction false} OffsetFinds(ds: seq<Data>, i: nat, offset: nat)
    requires i <= |ds|
    ensures var r := ByOffset(ds, i, offset);
      && (r.Found? ==> i <= r.index < |ds| && Covers(ds[r.index], offset) && ds[r.index].dtype == Byte
                       && ds[r.index].off + r.pos == offset
                       && forall j :: i <= j < r.index ==> !Covers(ds[j], offset))
      && (AllBytes(ds) && r.Fails? ==> forall j :: i <= j < |ds| ==> !Covers(ds[j], offset))
    decreases |ds| - i
  {
    if i < |ds| { OffsetFinds(ds, i + 1, offset); }
  }

  lemma {:induction false} CountFinds(ds: seq<Data>, i: nat, count: nat, offset: nat)
    requires i <= |ds|
    ensures var r := ByCount(ds, i, count, offset);
      r.Found? ==> i <= r.index < |ds| && ds[r.index].buf && ds[r.index].dtype == Byte && r.pos < ds[r.index].size
                   && count <= offset - r.pos
                   && (ds[r.index].align > 1 ==> Divides(ds[r.index].align, offset - r.pos))
    decreases |ds| - i
  {
    hide Roundup, PowerOfTwo;
    if i < |ds| {
      CountFinds(ds, i + 1, count, offset);
      CountFinds(ds, i + 1, OwnStart(count, ds[i]) + ds[i].size, offset);
    }
  }

  lemma PlacedAgree(ds: seq<Data>, offset: nat)
    requires InPlace(ds)
    ensures ByOffset(ds, 0, offset) == ByCount(ds, 0, 0, offset) && AllBytes(ds)
  {
    if ds != [] {
      var m := MaxAlign(ds);
      assert m > 0;
      assert InStep(ds, m, 0, 0);
      LookupsAgree(ds, m, 0, 0, offset);
    }
  }

  method Search(known: bool, scns: seq<Section>, appLayout: bool, scndx: nat, offset: nat) returns (r: Lookup)
    ensures !known || scndx >= |scns| ==> r == Fails(ArgumentError)
    ensures known && scndx < |scns| ==> var s := scns[scndx];
      r == if s.shType != SHT_STRTAB || offset >= s.shSize then Fails(ArgumentError)
           else if appLayout then ByOffset(s.data, 0, offset)
           else ByCount(s.data, 0, 0, offset)
  {
    if !known || scndx >= |scns| { return Fails(ArgumentError); }
    var s := scns[scndx];
    if s.shType != SHT_STRTAB || offset >= s.shSize { return Fails(ArgumentError); }
    var i: nat := 0;
    if appLayout {
      while i < |s.data|
        invariant i <= |s.data| && ByOffset(s.data, i, offset) == ByOffset(s.data, 0, offset)
      {
        var d := s.data[i];
        i := i + 1;
        if !d.buf || d.size == 0 { continue; }
        if d.dtype != Byte { return Fails(BadData); }
        if offset >= d.off && offset < d.off + d.size { return Found(i - 1, offset - d.off); }
      }
    } else {
      var count: nat := 0;
      while i < |s.data| && count <= offset
        invariant i <= |s.data| && ByCount(s.data, i, count, offset) == ByCount(s.data, 0, 0, offset)
      {
        hide Roundup;
        var d := s.data[i];
        i := i + 1;
        if !d.buf || d.size == 0 { continue; }
        if d.dtype != Byte { return Fails(BadData); }
        if d.align > 1 {
          BitTest(d.align);
          if BitAnd(d.align, d.align - 1) != 0 { return Fails(BadData); }
          count := Roundup(count, d.align);
        }
        if offset < count { return Fails(ArgumentError); }
        if offset < count + d.size { return Found(i - 1, offset - count); }
        count := count + d.size;
      }
    }
    r := Fails(ArgumentError);
  }

  // ----- When the two lookups agree -----

  /** What laying out a string section leaves: packed byte descriptors on powers of two. */
  predicate StringData(ds: seq<Data>, m: nat) {
    && Packed(ds, m) && PowerOfTwo(m)
    && forall i :: 0 <= i < |ds| ==> ds[i].dtype == Byte && PowerOfTwo(ds[i].align) && ds[i].align <= m
  }

  /**
   * From descriptor i on, with the buffers so far ending at count: every real buffer that follows
   * has, at the next multiple of its own alignment, also a multiple of the section's alignment m;
   * and room that has no buffer is followed by no further buffer.
   */
  predicate SameStarts(ds: seq<Data>, m: nat, i: nat, count: nat)
    requires i <= |ds|
    decreases |ds| - i
  {
    if i == |ds| then true
    else if ds[i].size == 0 then SameStarts(ds, m, i + 1, count)
    else if !ds[i].buf then forall j :: i < j < |ds| ==> !Real(ds[j])
    else Divides(m, OwnStart(count, ds[i])) && SameStarts(ds, m, i + 1, OwnStart(count, ds[i]) + ds[i].size)
  }

  /** Since the last real buffer only empty descriptors may have moved the end, and not past the next multiple. */
  predicate InStep(ds: seq<Data>, m: nat, i: nat, count: nat)
    requires i <= |ds|
  {
    m > 0 && count <= DataEnd(ds, i) <= Roundup(count, m)
  }

  lemma SameNext(count: nat, end: nat, m: nat)
    requires m > 0 && count <= end <= Roundup(count, m)
    ensures Roundup(end, m) == Roundup(count, m)
  {
    var r := Roundup(count, m);
    RoundupUnique(end, m, r);
  }

  /** The layout offset of descriptor i against the one the lookup computes. */
  lemma StartsCompared(ds: seq<Data>, m: nat, i: nat, count: nat)
    requires StringData(ds, m) && i < |ds| && InStep(ds, m, i, count)
    ensures ds[i].off == Roundup(count, m) && OwnStart(count, ds[i]) <= ds[i].off
    ensures Divides(m, OwnStart(count, ds[i])) <==> OwnStart(count, ds[i]) == ds[i].off
  {
    assert PackedAt(ds, m, i);
    SameNext(count, DataEnd(ds, i), m);
    var a := ds[i].align;
    PowersDivide(a, m);
    hide Roundup, Divides, PowerOfTwo;
    MultipleOfMultiple(ds[i].off, a, m);
    if a > 1 { LeastMultiple(count, a, ds[i].off); }
    if Divides(m, OwnStart(count, ds[i])) { LeastMultiple(count, m, OwnStart(count, ds[i])); }
  }

  lemma EmptyKeepsStep(ds: seq<Data>, m: nat, i: nat, count: nat)
    requires StringData(ds, m) && i < |ds| && InStep(ds, m, i, count) && ds[i].size == 0
    ensures InStep(ds, m, i + 1, count)
  {
    StartsCompared(ds, m, i, count);
  }

  lemma {:induction false} NoneContains(ds: seq<Data>, i: nat, offset: nat)
    requires i <= |ds|
    requires forall j :: i <= j < |ds| && Real(ds[j]) ==> ds[j].dtype == Byte && offset < ds[j].off
    ensures ByOffset(ds, i, offset) == Fails(ArgumentError)
    decreases |ds| - i
  {
    if i < |ds| { NoneContains(ds, i + 1, offset); }
  }

  lemma {:induction false} NothingCounted(ds: seq<Data>, i: nat, count: nat, offset: nat)
    requires i <= |ds| && forall j :: i <= j < |ds| ==> !Real(ds[j])
    ensures ByCount(ds, i, count, offset) == Fails(ArgumentError)
    decreases |ds| - i
  {
    if i < |ds| { NothingCounted(ds, i + 1, count, offset); }
  }

  /** Everything from descriptor i on lies behind an offset before its start. */
  lemma BehindStart(ds: seq<Data>, m: nat, i: nat, offset: nat)
    requires StringData(ds, m) && i < |ds| && offset < ds[i].off
    ensures ByOffset(ds, i, offset) == Fails(ArgumentError)
  {
    forall j | i <= j < |ds| ensures offset < ds[j].off {
      if i < j { PackedInOrder(ds, m, i, j); }
    }
    NoneContains(ds, i, offset);
  }

  lemma {:induction false} LookupsAgree(ds: seq<Data>, m: nat, i: nat, count: nat, offset: nat)
    requires StringData(ds, m) && i <= |ds| && InStep(ds, m, i, count) && SameStarts(ds, m, i, count)
    ensures ByOffset(ds, i, offset) == ByCount(ds, i, count, offset)
    decreases |ds| - i
  {
    if i < |ds| {
      StartsCompared(ds, m, i, count);
      hide Roundup, Divides, PowerOfTwo, Packed;
      if offset < count {
        BehindStart(ds, m, i, offset);
      } else if ds[i].size == 0 {
        EmptyKeepsStep(ds, m, i, count);
        LookupsAgree(ds, m, i + 1, count, offset);
      } else if !ds[i].buf {
        NoneContains(ds, i + 1, offset);
        NothingCounted(ds, i + 1, count, offset);
      } else if offset < ds[i].off {
        BehindStart(ds, m, i, offset);
      } else {
        LookupsAgree(ds, m, i + 1, ds[i].off + ds[i].size, offset);
      }
    }
  }

  /** Descriptors without a real buffer do not change what is counted. */
  lemma {:induction false} SkipUnreal(ds: seq<Data>, i: nat, j: nat, count: nat, offset: nat)
    requires i <= j <= |ds| && count <= offset && forall k :: i <= k < j ==> !Real(ds[k])
    ensures ByCount(ds, i, count, offset) == ByCount(ds, j, count, offset)
    ensures ByOffset(ds, i, offset) == ByOffset(ds, j, offset)
    decreases j - i
  {
    if i < j { SkipUnreal(ds, i + 1, j, count, offset); }
  }

  /** A buffer the lookup finds before where it was laid out. */
  lemma FoundTooEarly(ds: seq<Data>, m: nat, i: nat, count: nat)
    requires StringData(ds, m) && i < |ds| && Real(ds[i]) && OwnStart(count, ds[i]) < ds[i].off
    ensures ByCount(ds, i, count, OwnStart(count, ds[i])) == Found(i, 0)
    ensures ByOffset(ds, i, OwnStart(count, ds[i])) == Fails(ArgumentError)
    ensures OwnStart(count, ds[i]) < DataEnd(ds, |ds|)
  {
    BehindStart(ds, m, i, OwnStart(count, ds[i]));
    PackedInOrder(ds, m, i, |ds|);
  }

  lemma FirstReal(ds: seq<Data>, i: nat, j: nat) returns (k: nat)
    requires i <= j < |ds| && Real(ds[j])
    ensures i <= k < |ds| && Real(ds[k]) && forall l :: i <= l < k ==> !Real(ds[l])
    decreases |ds| - i
  {
    if Real(ds[i]) { k := i; } else { k := FirstReal(ds, i + 1, j); }
  }

  /** Room without a buffer at i, and a buffer further on: that buffer is found too early. */
  lemma GapMissed(ds: seq<Data>, m: nat, i: nat, count: nat, j: nat) returns (offset: nat)
    requires StringData(ds, m) && i < j < |ds| && InStep(ds, m, i, count)
    requires ds[i].size > 0 && !ds[i].buf && Real(ds[j])
    ensures count <= offset < DataEnd(ds, |ds|)
    ensures ByOffset(ds, i, offset) != ByCount(ds, i, count, offset)
  {
    var k := FirstReal(ds, i + 1, j);
    StartsCompared(ds, m, i, count);
    PackedInOrder(ds, m, i, k);
    PowersDivide(ds[k].align, m);
    offset := OwnStart(count, ds[k]);
    hide Roundup, Divides, PowerOfTwo, Packed;
    MultipleOfMultiple(ds[i].off, ds[k].align, m);
    if ds[k].align > 1 { LeastMultiple(count, ds[k].align, ds[i].off); }
    FoundTooEarly(ds, m, k, count);
    SkipUnreal(ds, i, k, count, offset);
  }

  lemma {:induction false} LookupsDiffer(ds: seq<Data>, m: nat, i: nat, count: nat) returns (offset: nat)
    requires StringData(ds, m) && i <= |ds| && InStep(ds, m, i, count) && !SameStarts(ds, m, i, count)
    ensures count <= offset < DataEnd(ds, |ds|)
    ensures ByOffset(ds, i, offset) != ByCount(ds, i, count, offset)
    decreases |ds| - i
  {
    StartsCompared(ds, m, i, count);
    hide Roundup, Divides, PowerOfTwo, Packed;
    if ds[i].size == 0 {
      EmptyKeepsStep(ds, m, i, count);
      offset := LookupsDiffer(ds, m, i + 1, count);
    } else if !ds[i].buf {
      var j :| i < j < |ds| && Real(ds[j]);
      offset := GapMissed(ds, m, i, count, j);
    } else if OwnStart(count, ds[i]) == ds[i].off {
      offset := LookupsDiffer(ds, m, i + 1, ds[i].off + ds[i].size);
    } else {
      FoundTooEarly(ds, m, i, count);
      offset := OwnStart(count, ds[i]);
    }
  }

  lemma LaidOutStrings(ec: Class, s: Section, rc: nat, t: Section)
    requires s.shType == SHT_STRTAB && SectionOk(ec, EV_CURRENT, s) && LaidOut(ec, s, rc, t)
    ensures t.data != [] ==> StringData(t.data, MaxAlign(t.data)) && InStep(t.data, MaxAlign(t.data), 0, 0)
  {
    if t.data != [] {
      SameMaxAlign(s.data, t.data);
      SomeAlign(Byte, EV_CURRENT, AskedAlign(ec, s), s.data);
      forall i | 0 <= i < |t.data|
        ensures t.data[i].dtype == Byte && PowerOfTwo(t.data[i].align) && t.data[i].align <= MaxAlign(t.data)
      {
        MaxAlignBounds(t.data, i);
        assert DataFault(Byte, EV_CURRENT, AskedAlign(ec, s), s.data[i]) == NoError;
      }
    }
  }

  /**
   * After the library has laid a string section out, the two lookups give the same answer at every
   * offset of the section exactly when the gaps between its buffers are those their own alignments make.
   */
  lemma LookupsAgreeIff(ec: Class, s: Section, rc: nat, t: Section)
    requires s.shType == SHT_STRTAB && SectionOk(ec, EV_CURRENT, s) && LaidOut(ec, s, rc, t)
    ensures (forall offset: nat :: offset < t.sSize ==> ByOffset(t.data, 0, offset) == ByCount(t.data, 0, 0, offset))
            <==> SameStarts(t.data, MaxAlign(s.data), 0, 0)
  {
    LaidOutStrings(ec, s, rc, t);
    SameMaxAlign(s.data, t.data);
    var m := MaxAlign(t.data);
    if t.data != [] {
      if SameStarts(t.data, m, 0, 0) {
        forall offset: nat ensures ByOffset(t.data, 0, offset) == ByCount(t.data, 0, 0, offset) {
          LookupsAgree(t.data, m, 0, 0, offset);
        }
      } else {
        var offset := LookupsDiffer(t.data, m, 0, 0);
      }
    }
  }

  lemma {:induction false} UniformStarts(ds: seq<Data>, m: nat, i: nat, count: nat)
    requires i <= |ds| && m > 0 && forall j :: 0 <= j < |ds| ==> ds[j].align == m && (ds[j].size > 0 ==> ds[j].buf)
    ensures SameStarts(ds, m, i, count)
    decreases |ds| - i
  {
    hide Roundup;
    if i < |ds| {
      UniformStarts(ds, m, i + 1, if ds[i].size == 0 then count else OwnStart(count, ds[i]) + ds[i].size);
    }
  }

  /** In particular they agree when all descriptors share one alignment and have buffers. */
  lemma UniformLookupsAgree(ec: Class, s: Section, rc: nat, t: Section, offset: nat)
    requires s.shType == SHT_STRTAB && SectionOk(ec, EV_CURRENT, s) && LaidOut(ec, s, rc, t) && offset < t.sSize
    requires forall i :: 0 <= i < |s.data| ==> s.data[i].align == s.data[0].align && s.data[i].buf
    ensures ByOffset(t.data, 0, offset) == ByCount(t.data, 0, 0, offset)
  {
    if t.data != [] {
      var k := MaxAlignIsSome(s.data);
      SomeAlign(Byte, EV_CURRENT, AskedAlign(ec, s), s.data);
      UniformStarts(t.data, MaxAlign(s.data), 0, 0);
      LookupsAgreeIff(ec, s, rc, t);
    }
  }

  /** A byte aligned to four followed by an unaligned one, before and after laying out. */
  function Mixed(off: nat): seq<Data> {
    [Data(Byte, EV_CURRENT, 4, 1, 0, true), Data(Byte, EV_CURRENT, 1, 1, off, true)]
  }

  lemma MixedLookups()
    ensures ByOffset(Mixed(4), 0, 1) == Fails(ArgumentError) && ByCount(Mixed(4), 0, 0, 1) == Found(1, 0)
    ensures ByOffset(Mixed(4), 0, 4) == Found(1, 0) && ByCount(Mixed(4), 0, 0, 4) == Fails(ArgumentError)
  {
    var ds := Mixed(4);
    RoundupUnique(0, 4, 0);
    hide Roundup;
    assert PowerOfTwo(2) && PowerOfTwo(4);
    assert ByOffset(ds, 2, 1) == Fails(ArgumentError) && ByOffset(ds, 1, 1) == Fails(ArgumentError);
    assert ByCount(ds, 1, 1, 1) == Found(1, 0);
    assert ByCount(ds, 2, 2, 4) == Fails(ArgumentError) && ByCount(ds, 1, 1, 4) == Fails(ArgumentError);
  }

  lemma MixedChecks(s: Section)
    requires s.shType == SHT_STRTAB && s.shAlign == 1 && s.data == Mixed(0)
    ensures MaxAlign(s.data) == 4 && SectionOk(Class32, EV_CURRENT, s)
  {
    assert s.data[..1] == [s.data[0]] && MaxAlign([s.data[0]]) == 4;
    hide MaxAlign;
    assert PowerOfTwo(2) && PowerOfTwo(4);
  }

  lemma MixedPacked()
    ensures Packed(Mixed(4), 4) && Roundup(52, 4) == 52
  {
    RoundupUnique(0, 4, 0);
    RoundupUnique(1, 4, 4);
    RoundupUnique(52, 4, 52);
    hide Roundup;
    assert PackedAt(Mixed(4), 4, 0) && PackedAt(Mixed(4), 4, 1);
  }

  /** Its second byte is laid out at 4 and looked up at 1. */
  lemma MixedAlignmentsDisagree() returns (s: Section, t: Section)
    ensures s.shType == SHT_STRTAB && SectionOk(Class32, EV_CURRENT, s) && LaidOut(Class32, s, 52, t) && t.sSize == 5
    ensures ByOffset(t.data, 0, 1) == Fails(ArgumentError) && ByCount(t.data, 0, 0, 1) == Found(1, 0)
    ensures ByOffset(t.data, 0, 4) == Found(1, 0) && ByCount(t.data, 0, 0, 4) == Fails(ArgumentError)
  {
    hide ByOffset, ByCount, MaxAlign, Packed, SectionOk, Roundup;
    s := Section(SHT_STRTAB, 1, 0, 0, 0, 0, Mixed(0));
    t := Section(SHT_STRTAB, 4, 52, 5, 52, 5, Mixed(4));
    MixedLookups();
    MixedChecks(s);
    MixedPacked();
  }
}
