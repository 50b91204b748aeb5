/**
 * How libelf lays out the file of a new object when the library chooses the layout: the data
 * descriptors inside each section, the sections behind the headers, and the section header table
 * at the end.  Offsets are unbounded here; the 32-bit header fields of a class-32 object are cut
 * to their width explicitly.
 */
module ElfArith {

  predicate Divides(a: nat, x: nat) { a > 0 && x % a == 0 }

  /** The roundup macro: the least multiple of y that is not below x. */
  function Roundup(x: nat, y: nat): (r: nat)
    requires y > 0
    ensures Divides(y, r) && x <= r < x + y
  {
    RoundupBounds(x, y);
    ((x + (y - 1)) / y) * y
  }

  lemma AtLeastOnce(k: int, y: nat)
    requires k >= 1
    ensures k * y >= y
  {
  }

  lemma Product(p: int, q: int, y: nat)
    ensures p * y - q * y == (p - q) * y
  {
  }

  /** Division with remainder has one answer. */
  lemma SameQuotient(p: int, r: int, q: int, s: int, y: nat)
    requires 0 <= r < y && 0 <= s < y && p * y + r == q * y + s
    ensures p == q && r == s
  {
    Product(p, q, y);
    Product(q, p, y);
    if p > q { AtLeastOnce(p - q, y); }
    if q > p { AtLeastOnce(q - p, y); }
  }

  lemma DivisionIs(x: nat, y: nat)
    requires y > 0
    ensures x == x / y * y + x % y
  {
  }

  lemma MultipleOf(q: nat, y: nat)
    requires y > 0
    ensures (q * y) % y == 0 && (q * y) / y == q
  {
    DivisionIs(q * y, y);
    SameQuotient((q * y) / y, (q * y) % y, q, 0, y);
  }

  lemma RoundupBounds(x: nat, y: nat)
    requires y > 0
    ensures x <= ((x + (y - 1)) / y) * y < x + y && (((x + (y - 1)) / y) * y) % y == 0
  {
    DivisionIs(x + (y - 1), y);
    MultipleOf((x + (y - 1)) / y, y);
  }

  /** Two multiples of y less than y apart are the same. */
  lemma NearMultiples(m: nat, n: nat, y: nat)
    requires Divides(y, m) && Divides(y, n) && m <= n < m + y
    ensures m == n
  {
    DivisionIs(m, y);
    DivisionIs(n, y);
    Product(n / y, m / y, y);
    if n / y - m / y >= 1 { AtLeastOnce(n / y - m / y, y); }
    if m / y - n / y >= 1 { AtLeastOnce(m / y - n / y, y); Product(m / y, n / y, y); }
  }

  lemma RoundupUnique(x: nat, y: nat, m: nat)
    requires Divides(y, m) && x <= m < x + y
    ensures Roundup(x, y) == m
  {
    hide Divides, Roundup;
    var r := Roundup(x, y);
    if r <= m { NearMultiples(r, m, y); } else { NearMultiples(m, r, y); }
  }

  lemma LeastMultiple(x: nat, y: nat, m: nat)
    requires Divides(y, m) && x <= m
    ensures Roundup(x, y) <= m
  {
    if m < x + y { RoundupUnique(x, y, m); }
  }

  lemma SumOfMultiples(a: nat, b: nat, y: nat)
    requires Divides(y, a) && Divides(y, b)
    ensures Divides(y, a + b)
  {
    DivisionIs(a, y);
    DivisionIs(b, y);
    assert a + b == (a / y + b / y) * y;
    MultipleOf(a / y + b / y, y);
  }

  lemma MultipleOfMultiple(x: nat, a: nat, b: nat)
    requires Divides(a, b) && Divides(b, x)
    ensures Divides(a, x)
  {
    DivisionIs(x, b);
    DivisionIs(b, a);
    assert x == (x / b * (b / a)) * a;
    MultipleOf(x / b * (b / a), a);
  }

  predicate PowerOfTwo(n: nat) {
    n == 1 || (n > 0 && n % 2 == 0 && PowerOfTwo(n / 2))
  }

  /** The bitwise and of two numbers. */
  function BitAnd(a: nat, b: nat): nat {
    if a == 0 || b == 0 then 0 else 2 * BitAnd(a / 2, b / 2) + (if a % 2 == 1 && b % 2 == 1 then 1 else 0)
  }

  lemma {:induction false} BitAndSelf(n: nat)
    ensures BitAnd(n, n) == n
  {
    if n > 0 { BitAndSelf(n / 2); }
  }

  /** `n & (n - 1)` is zero exactly for the powers of two. */
  lemma {:induction false} BitTest(n: nat)
    requires n > 0
    ensures BitAnd(n, n - 1) == 0 <==> PowerOfTwo(n)
  {
    if n == 1 {
    } else if n % 2 == 0 {
      assert (n - 1) / 2 == n / 2 - 1;
      BitTest(n / 2);
    } else {
      assert (n - 1) / 2 == n / 2;
      BitAndSelf(n / 2);
    }
  }

  lemma NotZero()
    ensures !PowerOfTwo(0)
  {
  }

  /** The smaller of two powers of two divides the larger. */
  lemma {:induction false} PowersDivide(a: nat, b: nat)
    requires PowerOfTwo(a) && PowerOfTwo(b) && a <= b
    ensures Divides(a, b)
  {
    if a > 1 {
      PowersDivide(a / 2, b / 2);
      var q := b / 2 / (a / 2);
      assert b / 2 == q * (a / 2);
      assert b == q * a;
      MultipleOf(q, a);
    }
  }
}

module ElfLayout {
  import opened ElfArith

  datatype Class = Class32 | Class64

  /** The representations a section type translates to, and anything else a descriptor may claim. */
  datatype ElfType = Addr | Byte | Dyn | Move | Note | Rel | Rela | Sym | Syminfo | Vdef | Vneed | Word | Other

  datatype Error = NoError | SectionError | DataError | VersionError | LayoutError | ClassError | HeaderError

  /** A data descriptor (Elf_Data); buf says whether d_buf points anywhere. */
  datatype Data = Data(dtype: ElfType, version: nat, align: nat, size: nat, off: nat, buf: bool)

  /** A section (Elf_Scn): its header fields, the library's own extents, and its descriptors. */
  datatype Section = Section(shType: nat, shAlign: nat, shOffset: nat, shSize: nat,
                             sOffset: nat, sSize: nat, data: seq<Data>)

  datatype Ehdr = Ehdr(ehClass: nat, version: nat, byteorder: nat, phoff: nat, shoff: nat)

  const SHT_NULL := 0
  const SHT_STRTAB := 3
  const SHT_NOBITS := 8
  const EV_NONE := 0
  const EV_CURRENT := 1

  function ClassNumber(ec: Class): nat { if ec == Class32 then 1 else 2 }

  function XlateShtype(sht: nat): (t: ElfType) {
    if sht == 1 || sht == SHT_STRTAB || sht == SHT_NOBITS then Byte
    else if sht == 2 || sht == 11 then Sym
    else if sht == 4 then Rela
    else if sht == 5 || sht == 17 || sht == 18 then Word
    else if sht == 6 then Dyn
    else if sht == 7 then Note
    else if sht == 9 then Rel
    else if 14 <= sht <= 16 then Addr
    else if sht == 0x6ffffffa then Move
    else if sht == 0x6ffffffc then Syminfo
    else if sht == 0x6ffffffd then Vdef
    else if sht == 0x6ffffffe then Vneed
    else Other
  }

  /** File alignment of a representation. */
  function Falign(t: ElfType, ec: Class): (a: nat)
    requires t != Other
    ensures a > 0
  {
    match t
    case Byte => 1
    case Syminfo => 2
    case Note | Vdef | Vneed | Word => 4
    case Move => 8
    case Addr | Dyn | Rel | Rela | Sym => HeaderAlign(ec)
  }

  /** File alignment of both header tables. */
  function HeaderAlign(ec: Class): (a: nat)
    ensures a > 0
  {
    if ec == Class32 then 4 else 8
  }

  /** The size of a header table of n entries. */
  function TableSize(entry: nat, n: nat): nat { entry * n }

  function EhdrSize(ec: Class): nat { if ec == Class32 then 52 else 64 }
  function PhdrSize(ec: Class): nat { if ec == Class32 then 32 else 56 }
  function ShdrSize(ec: Class): nat { if ec == Class32 then 40 else 64 }

  /** What a header field of the class holds of v. */
  function Field(ec: Class, v: nat): (r: nat)
    ensures r <= v
    ensures ec == Class64 || v < 0x1_0000_0000 ==> r == v
  {
    if ec == Class32 then v % 0x1_0000_0000 else v
  }

  function Max(a: nat, b: nat): (r: nat)
    ensures r >= a && r >= b && (r == a || r == b)
  {
    if a < b then b else a
  }

  // ----- What a layout is -----

  /** The section takes up room in the file. */
  predicate InFile(s: Section) { s.shType != SHT_NULL && s.shType != SHT_NOBITS }

  /** The alignment the section header asks for. */
  function AskedAlign(ec: Class, s: Section): (a: nat)
    requires XlateShtype(s.shType) != Other
    ensures a > 0
  {
    if s.shAlign == 0 then Falign(XlateShtype(s.shType), ec) else s.shAlign
  }

  function MaxAlign(ds: seq<Data>): nat {
    if ds == [] then 0 else Max(MaxAlign(ds[..|ds| - 1]), ds[|ds| - 1].align)
  }

  /** The first rule descriptor d breaks in a section of this type and alignment. */
  function DataFault(t: ElfType, version: nat, shAlign: nat, d: Data): Error
    requires shAlign > 0
  {
    if d.dtype != t then DataError
    else if d.version != version then VersionError
    else if !Divides(shAlign, d.align) then LayoutError
    else if !PowerOfTwo(d.align) then DataError
    else NoError
  }

  /** The rules in their order: type, version, a multiple of the section's alignment, a power of two. */
  predicate Checked(t: ElfType, shAlign: nat, d: Data, err: Error)
    requires shAlign > 0
  {
    && (err == NoError <==> d.dtype == t && d.version == 1 && d.align % shAlign == 0 && PowerOfTwo(d.align))
    && (d.dtype != t ==> err == DataError)
    && (d.dtype == t && d.version != 1 ==> err == VersionError)
    && (d.dtype == t && d.version == 1 && d.align % shAlign != 0 ==> err == LayoutError)
    && (d.dtype == t && d.version == 1 && d.align % shAlign == 0 && !PowerOfTwo(d.align) ==> err == DataError)
  }

  predicate DataOk(t: ElfType, version: nat, shAlign: nat, ds: seq<Data>)
    requires shAlign > 0
  {
    forall i :: 0 <= i < |ds| ==> DataFault(t, version, shAlign, ds[i]) == NoError
  }

  /** The section can be laid out. */
  predicate SectionOk(ec: Class, version: nat, s: Section) {
    InFile(s) ==>
      XlateShtype(s.shType) != Other && DataOk(XlateShtype(s.shType), version, AskedAlign(ec, s), s.data)
  }

  /** Err is what laying out section s reports: that of the first descriptor at fault. */
  predicate Reports(ec: Class, version: nat, s: Section, err: Error) {
    if SectionOk(ec, version, s) then err == NoError
    else if XlateShtype(s.shType) == Other then err == SectionError
    else exists k :: 0 <= k < |s.data| && FirstAt(XlateShtype(s.shType), version, AskedAlign(ec, s), s.data, k, err)
  }

  predicate FirstAt(t: ElfType, version: nat, shAlign: nat, ds: seq<Data>, k: nat, err: Error)
    requires k < |ds| && shAlign > 0
  {
    DataOk(t, version, shAlign, ds[..k]) && err == DataFault(t, version, shAlign, ds[k]) && err != NoError
  }

  /** Section k is the first that cannot be laid out, and err says why. */
  predicate FirstBad(ec: Class, scns: seq<Section>, k: nat, err: Error)
    requires k < |scns|
  {
    err != NoError && Reports(ec, EV_CURRENT, scns[k], err)
    && forall i :: 0 <= i < k ==> SectionOk(ec, EV_CURRENT, scns[i])
  }

  /** Where the descriptors before number i end. */
  function DataEnd(ds: seq<Data>, i: nat): nat
    requires i <= |ds|
  {
    if i == 0 then 0 else ds[i - 1].off + ds[i - 1].size
  }

  predicate PackedAt(ds: seq<Data>, a: nat, i: nat)
    requires i < |ds|
  {
    a > 0 && ds[i].off == Roundup(DataEnd(ds, i), a)
  }

  /** Each descriptor starts at the first multiple of a where the one before has ended. */
  predicate Packed(ds: seq<Data>, a: nat) {
    forall i :: 0 <= i < |ds| ==> PackedAt(ds, a, i)
  }

  predicate SameButOff(ds: seq<Data>, es: seq<Data>) {
    |ds| == |es| && forall i :: 0 <= i < |ds| ==> es[i] == ds[i].(off := es[i].off)
  }

  /** The alignment section s ends up with. */
  function FinalAlign(ec: Class, s: Section): (a: nat)
    requires XlateShtype(s.shType) != Other
    ensures a > 0
  {
    Max(AskedAlign(ec, s), MaxAlign(s.data))
  }

  /** Section t is s laid out behind offset rc. */
  predicate LaidOut(ec: Class, s: Section, rc: nat, t: Section) {
    if !InFile(s) then t == s
    else
      && XlateShtype(s.shType) != Other
      && t.shType == s.shType
      && SameButOff(s.data, t.data) && Packed(t.data, MaxAlign(s.data))
      && t.sSize == DataEnd(t.data, |t.data|)
      && t.sOffset == Roundup(rc, FinalAlign(ec, s))
      && t.shAlign == Field(ec, FinalAlign(ec, s))
      && t.shOffset == Field(ec, t.sOffset)
      && t.shSize == Field(ec, t.sSize)
  }

  /** Laying out moves a section and its descriptors, if it has room in the file, and changes nothing else. */
  predicate SameContents(s: Section, t: Section) {
    && (s.shType == 0 || s.shType == 8 ==> t == s)
    && t.shType == s.shType && SameButOff(s.data, t.data)
  }

  /** Where the headers and the first n sections end. */
  function FileEnd(scns: seq<Section>, rc: nat, n: nat): nat
    requires n <= |scns|
  {
    if n == 0 then rc
    else if InFile(scns[n - 1]) then scns[n - 1].sOffset + scns[n - 1].sSize
    else FileEnd(scns, rc, n - 1)
  }

  predicate StackedAt(ec: Class, before: seq<Section>, rc: nat, after: seq<Section>, i: nat)
    requires i < |before| == |after|
  {
    LaidOut(ec, before[i], FileEnd(after, rc, i), after[i])
  }

  /** The first n sections are laid out one behind the other from rc on. */
  predicate Stacked(ec: Class, before: seq<Section>, rc: nat, after: seq<Section>, n: nat)
    requires n <= |before| == |after|
  {
    forall i :: 0 <= i < n ==> StackedAt(ec, before, rc, after, i)
  }

  predicate HeaderReports(ec: Class, byteorder: nat, writing: bool, eh: Ehdr, err: Error) {
    err == if eh.version != EV_NONE && eh.version != EV_CURRENT then VersionError
           else if eh.ehClass != ClassNumber(ec) then ClassError
           else if !writing && eh.byteorder != byteorder then HeaderError
           else NoError
  }

  /** The offset behind the ELF header and, if there is one, the program header table. */
  function HeadersEnd(ec: Class, phnum: nat): nat {
    if phnum == 0 then EhdrSize(ec) else Roundup(EhdrSize(ec), HeaderAlign(ec)) + TableSize(PhdrSize(ec), phnum)
  }

  /** A stretch of the file and the alignment it is given. */
  datatype Region = Region(start: nat, size: nat, align: nat)

  function RegionEnd(rs: seq<Region>, i: nat): nat
    requires i <= |rs|
  {
    if i == 0 then 0 else rs[i - 1].start + rs[i - 1].size
  }

  predicate ChainAt(rs: seq<Region>, i: nat)
    requires i < |rs|
  {
    rs[i].align > 0 && rs[i].start == Roundup(RegionEnd(rs, i), rs[i].align)
  }

  /** Each region starts at the first multiple of its alignment where the one before has ended. */
  predicate Chain(rs: seq<Region>) {
    forall i :: 0 <= i < |rs| ==> ChainAt(rs, i)
  }

  /** The bodies of the first n sections, in list order. */
  function Bodies(ec: Class, before: seq<Section>, after: seq<Section>, n: nat): seq<Region>
    requires n <= |before| == |after|
    requires forall i :: 0 <= i < |before| ==> SectionOk(ec, EV_CURRENT, before[i])
    requires forall i :: 0 <= i < n ==> before[i].shType == after[i].shType
  {
    if n == 0 then []
    else if !InFile(before[n - 1]) then Bodies(ec, before, after, n - 1)
    else
      assert SectionOk(ec, EV_CURRENT, before[n - 1]);
      var last := Region(after[n - 1].sOffset, after[n - 1].sSize, FinalAlign(ec, before[n - 1]));
      Bodies(ec, before, after, n - 1) + [last]
  }

  function Headers(ec: Class, phnum: nat): seq<Region> {
    [Region(0, EhdrSize(ec), 1)]
    + if phnum == 0 then []
      else [Region(Roundup(EhdrSize(ec), HeaderAlign(ec)), TableSize(PhdrSize(ec), phnum), HeaderAlign(ec))]
  }

  /** Everything in the file: ELF header, program headers, section bodies, section headers. */
  function Regions(ec: Class, phnum: nat, before: seq<Section>, after: seq<Section>, shoff: nat): seq<Region>
    requires |before| == |after|
    requires forall i :: 0 <= i < |before| ==> SectionOk(ec, EV_CURRENT, before[i])
    requires forall i :: 0 <= i < |before| ==> before[i].shType == after[i].shType
  {
    Headers(ec, phnum) + Bodies(ec, before, after, |after|)
    + if |after| == 0 then [] else [Region(shoff, TableSize(ShdrSize(ec), |after|), HeaderAlign(ec))]
  }

  /** What a successful run of `_libelf_resync_elf` leaves behind. */
  predicate FileOk(ec: Class, phnum: nat, before: seq<Section>, after: seq<Section>, ehdr: Ehdr, total: nat) {
    && |before| == |after|
    && (forall i :: 0 <= i < |before| ==> SectionOk(ec, EV_CURRENT, before[i]))
    && Stacked(ec, before, HeadersEnd(ec, phnum), after, |after|)
    && var end := FileEnd(after, HeadersEnd(ec, phnum), |after|);
    && var shoff := if |after| == 0 then 0 else Roundup(end, HeaderAlign(ec));
    && ehdr.phoff == (if phnum == 0 then 0 else Roundup(EhdrSize(ec), HeaderAlign(ec)))
    && ehdr.shoff == Field(ec, shoff)
    && total == (if |after| == 0 then end else shoff + TableSize(ShdrSize(ec), |after|))
  }

  // ----- Laying out keeps the regions apart and aligned -----

  lemma {:induction false} MaxAlignBounds(ds: seq<Data>, i: nat)
    requires i < |ds|
    ensures ds[i].align <= MaxAlign(ds)
  {
    if i < |ds| - 1 { MaxAlignBounds(ds[..|ds| - 1], i); }
  }

  lemma {:induction false} MaxAlignIsSome(ds: seq<Data>) returns (i: nat)
    requires ds != []
    ensures i < |ds| && MaxAlign(ds) == ds[i].align
  {
    i := |ds| - 1;
    if |ds| > 1 && MaxAlign(ds) != ds[i].align { i := MaxAlignIsSome(ds[..|ds| - 1]); }
  }

  lemma SomeAlign(t: ElfType, version: nat, shAlign: nat, ds: seq<Data>)
    requires shAlign > 0 && DataOk(t, version, shAlign, ds)
    ensures ds != [] ==> MaxAlign(ds) > 0 && PowerOfTwo(MaxAlign(ds)) && shAlign <= MaxAlign(ds)
  {
    if ds != [] {
      var i := MaxAlignIsSome(ds);
      assert DataFault(t, version, shAlign, ds[i]) == NoError;
    }
  }

  lemma {:induction false} SameEnd(was: seq<Section>, scns: seq<Section>, rc: nat, n: nat)
    requires n <= |was| == |scns| && forall i :: 0 <= i < n ==> scns[i] == was[i]
    ensures FileEnd(scns, rc, n) == FileEnd(was, rc, n)
  {
    if n > 0 { SameEnd(was, scns, rc, n - 1); }
  }

  lemma StackOneMore(ec: Class, before: seq<Section>, rc: nat, was: seq<Section>, scns: seq<Section>, i: nat)
    requires i < |before| == |was| == |scns| && Stacked(ec, before, rc, was, i)
    requires scns == was[i := scns[i]] && LaidOut(ec, before[i], FileEnd(was, rc, i), scns[i])
    ensures Stacked(ec, before, rc, scns, i + 1)
    ensures FileEnd(scns, rc, i) == FileEnd(was, rc, i)
  {
    hide LaidOut;
    SameEnd(was, scns, rc, i);
    forall j | 0 <= j < i + 1 ensures StackedAt(ec, before, rc, scns, j) {
      SameEnd(was, scns, rc, j);
      if j < i { assert StackedAt(ec, before, rc, was, j); }
    }
  }

  lemma {:induction false} ChainInOrder(rs: seq<Region>, i: nat, j: nat)
    requires Chain(rs) && i < j <= |rs|
    ensures rs[i].start + rs[i].size <= RegionEnd(rs, j)
    ensures j < |rs| ==> rs[i].start + rs[i].size <= rs[j].start
  {
    hide Roundup, Divides;
    if j < |rs| { assert ChainAt(rs, j); }
    if i < j - 1 { ChainInOrder(rs, i, j - 1); }
  }

  lemma ChainOneMore(rs: seq<Region>, r: Region)
    requires Chain(rs) && r.align > 0 && r.start == Roundup(RegionEnd(rs, |rs|), r.align)
    ensures Chain(rs + [r]) && RegionEnd(rs + [r], |rs| + 1) == r.start + r.size
  {
    hide Roundup, Divides, TableSize;
    var all := rs + [r];
    forall i | 0 <= i < |all| ensures ChainAt(all, i) {
      assert RegionEnd(all, i) == RegionEnd(rs, i);
      if i < |rs| { assert ChainAt(rs, i); }
    }
  }

  lemma HeadersChain(ec: Class, phnum: nat)
    ensures Chain(Headers(ec, phnum)) && RegionEnd(Headers(ec, phnum), |Headers(ec, phnum)|) == HeadersEnd(ec, phnum)
  {
    var ehdr := Region(0, EhdrSize(ec), 1);
    RoundupUnique(0, 1, 0);
    assert Chain([ehdr]);
    if phnum > 0 {
      var start := Roundup(EhdrSize(ec), HeaderAlign(ec));
      ChainOneMore([ehdr], Region(start, TableSize(PhdrSize(ec), phnum), HeaderAlign(ec)));
    }
  }

  lemma {:induction false} BodiesChain(ec: Class, phnum: nat, before: seq<Section>, after: seq<Section>, n: nat)
    requires n <= |before| == |after|
    requires forall i :: 0 <= i < |before| ==> SectionOk(ec, EV_CURRENT, before[i])
    requires forall i :: 0 <= i < n ==> before[i].shType == after[i].shType
    requires Stacked(ec, before, HeadersEnd(ec, phnum), after, n)
    ensures var rs := Headers(ec, phnum) + Bodies(ec, before, after, n);
            Chain(rs) && RegionEnd(rs, |rs|) == FileEnd(after, HeadersEnd(ec, phnum), n)
  {
    var head := Headers(ec, phnum);
    HeadersChain(ec, phnum);
    hide Chain, Headers, HeadersEnd, Roundup, Divides, TableSize;
    if n == 0 {
      assert head + [] == head;
    } else {
      BodiesChain(ec, phnum, before, after, n - 1);
      assert StackedAt(ec, before, HeadersEnd(ec, phnum), after, n - 1);
      if InFile(before[n - 1]) {
        var last := Region(after[n - 1].sOffset, after[n - 1].sSize, FinalAlign(ec, before[n - 1]));
        ChainOneMore(head + Bodies(ec, before, after, n - 1), last);
        assert head + Bodies(ec, before, after, n) == head + Bodies(ec, before, after, n - 1) + [last];
      }
    }
  }

  lemma SameTypes(ec: Class, phnum: nat, before: seq<Section>, after: seq<Section>, ehdr: Ehdr, total: nat)
    requires FileOk(ec, phnum, before, after, ehdr, total)
    ensures forall i :: 0 <= i < |before| ==> before[i].shType == after[i].shType
  {
    forall i | 0 <= i < |before| ensures before[i].shType == after[i].shType {
      assert StackedAt(ec, before, HeadersEnd(ec, phnum), after, i);
    }
  }

  /** The true file offset of the section header table. */
  function TableAt(ec: Class, phnum: nat, after: seq<Section>): nat {
    Roundup(FileEnd(after, HeadersEnd(ec, phnum), |after|), HeaderAlign(ec))
  }

  /**
   * The headers, the section bodies in list order and the section header table lie one behind the
   * other, each on its own alignment with less than one alignment unit before it, up to the end.
   */
  lemma RegionsInOrder(ec: Class, phnum: nat, before: seq<Section>, after: seq<Section>, ehdr: Ehdr, total: nat)
    requires FileOk(ec, phnum, before, after, ehdr, total)
    ensures forall i :: 0 <= i < |before| ==> before[i].shType == after[i].shType
    ensures var rs := Regions(ec, phnum, before, after, TableAt(ec, phnum, after));
      && RegionEnd(rs, |rs|) == total
      && (forall i :: 0 <= i < |rs| ==>
            Divides(rs[i].align, rs[i].start)
            && RegionEnd(rs, i) <= rs[i].start < RegionEnd(rs, i) + rs[i].align)
      && (forall i, j :: 0 <= i < j < |rs| ==> rs[i].start + rs[i].size <= rs[j].start)
  {
    SameTypes(ec, phnum, before, after, ehdr, total);
    BodiesChain(ec, phnum, before, after, |after|);
    var front := Headers(ec, phnum) + Bodies(ec, before, after, |after|);
    var rs := Regions(ec, phnum, before, after, TableAt(ec, phnum, after));
    hide Stacked, Headers, HeadersEnd, Bodies, Roundup, Divides, TableSize, SectionOk;
    if |after| > 0 {
      ChainOneMore(front, Region(TableAt(ec, phnum, after), TableSize(ShdrSize(ec), |after|), HeaderAlign(ec)));
    } else {
      assert front == rs;
    }
    forall i, j | 0 <= i < j < |rs| ensures rs[i].start + rs[i].size <= rs[j].start {
      ChainInOrder(rs, i, j);
    }
    forall i | 0 <= i < |rs|
      ensures Divides(rs[i].align, rs[i].start) && RegionEnd(rs, i) <= rs[i].start < RegionEnd(rs, i) + rs[i].align
    {
      assert ChainAt(rs, i);
    }
  }

  lemma {:induction false} PackedInOrder(ds: seq<Data>, a: nat, i: nat, j: nat)
    requires Packed(ds, a) && i < j <= |ds|
    ensures ds[i].off + ds[i].size <= DataEnd(ds, j)
    ensures j < |ds| ==> ds[i].off + ds[i].size <= ds[j].off
  {
    hide Roundup, Divides, TableSize;
    if j < |ds| { assert PackedAt(ds, a, j); }
    if i < j - 1 { PackedInOrder(ds, a, i, j - 1); }
  }

  lemma SameMaxAlign(ds: seq<Data>, es: seq<Data>)
    requires SameButOff(ds, es)
    ensures MaxAlign(ds) == MaxAlign(es)
  {
    if ds != [] { SameMaxAlign(ds[..|ds| - 1], es[..|es| - 1]); }
  }

  /**
   * Inside a section laid out anywhere, the descriptors follow each other without overlap, stay
   * within the section, and each sits in the file on a multiple of its own alignment.
   */
  lemma DescriptorsPlaced(ec: Class, s: Section, rc: nat, t: Section, k: nat)
    requires InFile(s) && SectionOk(ec, EV_CURRENT, s) && LaidOut(ec, s, rc, t) && k < |t.data|
    ensures t.data[k].align == s.data[k].align
    ensures Divides(t.data[k].align, t.sOffset + t.data[k].off)
    ensures t.data[k].off + t.data[k].size <= t.sSize
    ensures forall j :: k < j < |t.data| ==> t.data[k].off + t.data[k].size <= t.data[j].off
  {
    var a := MaxAlign(s.data);
    SomeAlign(XlateShtype(s.shType), EV_CURRENT, AskedAlign(ec, s), s.data);
    MaxAlignBounds(s.data, k);
    assert DataFault(XlateShtype(s.shType), EV_CURRENT, AskedAlign(ec, s), s.data[k]) == NoError;
    hide Roundup, Divides, TableSize, MaxAlign, AskedAlign, XlateShtype;
    assert PackedAt(t.data, a, k);
    PowersDivide(s.data[k].align, a);
    SumOfMultiples(t.sOffset, t.data[k].off, a);
    MultipleOfMultiple(t.sOffset + t.data[k].off, s.data[k].align, a);
    PackedInOrder(t.data, a, k, |t.data|);
    forall j | k < j < |t.data| ensures t.data[k].off + t.data[k].size <= t.data[j].off {
      PackedInOrder(t.data, a, k, j);
    }
  }

  /** The section starts on a multiple of the alignment asked for, or of its type's own if none is. */
  lemma SectionAligned(ec: Class, s: Section, rc: nat, t: Section)
    requires InFile(s) && SectionOk(ec, EV_CURRENT, s) && LaidOut(ec, s, rc, t)
    ensures s.shAlign != 0 ==> Divides(s.shAlign, t.sOffset)
    ensures s.shAlign == 0 ==> Divides(Falign(XlateShtype(s.shType), ec), t.sOffset)
    ensures rc <= t.sOffset
  {
    var a := AskedAlign(ec, s);
    SomeAlign(XlateShtype(s.shType), EV_CURRENT, a, s.data);
    if s.data != [] {
      var k := MaxAlignIsSome(s.data);
      assert DataFault(XlateShtype(s.shType), EV_CURRENT, a, s.data[k]) == NoError;
      hide Roundup, PowerOfTwo, MaxAlign, AskedAlign, XlateShtype;
      MultipleOfMultiple(t.sOffset, a, MaxAlign(s.data));
    }
  }

  /** The headers in bytes: 52 and 32 per program header, or 64 and 56. */
  lemma HeadersAre(ec: Class, phnum: nat)
    ensures HeadersEnd(ec, phnum) == if ec == Class32 then 52 + 32 * phnum else 64 + 56 * phnum
    ensures Roundup(EhdrSize(ec), HeaderAlign(ec)) == EhdrSize(ec)
  {
    RoundupUnique(EhdrSize(ec), HeaderAlign(ec), EhdrSize(ec));
  }

  /** The offsets and sizes of the headers, in numbers. */
  predicate Numbers(ec: Class, phnum: nat, scns: seq<Section>, ehdr: Ehdr, total: nat) {
    && ehdr.phoff == (if phnum == 0 then 0 else if ec == Class32 then 52 else 64)
    && (|scns| == 0 ==>
          ehdr.shoff == 0 && total == if ec == Class32 then 52 + 32 * phnum else 64 + 56 * phnum)
    && (|scns| > 0 ==>
          && total == TableAt(ec, phnum, scns) + (if ec == Class32 then 40 else 64) * |scns|
          && (ec == Class64 || total < 0x1_0000_0000 ==> ehdr.shoff == TableAt(ec, phnum, scns)))
  }

  lemma FileNumbers(ec: Class, phnum: nat, before: seq<Section>, after: seq<Section>, ehdr: Ehdr, total: nat)
    requires FileOk(ec, phnum, before, after, ehdr, total)
    ensures Numbers(ec, phnum, after, ehdr, total)
  {
    HeadersAre(ec, phnum);
    hide Stacked, Roundup, Divides, SectionOk, HeadersEnd;
  }

  /** Each section with room in the file lies behind the headers. */
  lemma BehindHeaders(ec: Class, phnum: nat, before: seq<Section>, after: seq<Section>, ehdr: Ehdr, total: nat, i: nat)
    requires FileOk(ec, phnum, before, after, ehdr, total) && i < |after| && InFile(after[i])
    ensures (if ec == Class32 then 52 + 32 * phnum else 64 + 56 * phnum) <= after[i].sOffset
    ensures after[i].sOffset + after[i].sSize <= TableAt(ec, phnum, after)
    ensures total == TableAt(ec, phnum, after) + (if ec == Class32 then 40 else 64) * |after|
  {
    HeadersAre(ec, phnum);
    var rc := HeadersEnd(ec, phnum);
    assert StackedAt(ec, before, rc, after, i);
    EndsGrow(ec, before, rc, after, 0, i);
    EndsGrow(ec, before, rc, after, i + 1, |after|);
    hide FinalAlign, Stacked, Roundup, Divides, SectionOk, HeadersEnd;
  }

  lemma {:induction false} EndsGrow(ec: Class, before: seq<Section>, rc: nat, after: seq<Section>, i: nat, n: nat)
    requires i <= n <= |before| == |after| && Stacked(ec, before, rc, after, n)
    ensures FileEnd(after, rc, i) <= FileEnd(after, rc, n)
  {
    hide Roundup, Divides, TableSize, FinalAlign;
    if i < n {
      EndsGrow(ec, before, rc, after, i, n - 1);
      assert StackedAt(ec, before, rc, after, n - 1);
    }
  }

  /** In a file the class can address, the header fields are exact and honour `sh_addralign`. */
  lemma HeaderFieldsExact(ec: Class, phnum: nat, before: seq<Section>, after: seq<Section>, ehdr: Ehdr, total: nat,
                          i: nat)
    requires FileOk(ec, phnum, before, after, ehdr, total) && i < |after| && InFile(after[i])
    requires ec == Class64 || total < 0x1_0000_0000
    ensures after[i].shOffset == after[i].sOffset && after[i].shSize == after[i].sSize
    ensures Divides(after[i].shAlign, after[i].shOffset)
    ensures ehdr.shoff == TableAt(ec, phnum, after)
  {
    var rc := HeadersEnd(ec, phnum);
    assert StackedAt(ec, before, rc, after, i);
    EndsGrow(ec, before, rc, after, 0, i);
    EndsGrow(ec, before, rc, after, i + 1, |after|);
    assert SectionOk(ec, EV_CURRENT, before[i]);
    var a := FinalAlign(ec, before[i]);
    hide FinalAlign, Stacked, Roundup, Divides, TableSize, SectionOk;
    if after[i].sOffset < a { NearMultiples(0, after[i].sOffset, a); }
  }

  // ----- The code -----

  class Elf {
    const ec: Class
    const writing: bool
    const phnum: nat
    var byteorder: nat
    var ehdr: Ehdr
    var scns: seq<Section>

    constructor (ec: Class, writing: bool, phnum: nat, byteorder: nat, ehdr: Ehdr, scns: seq<Section>)
      ensures this.ec == ec && this.writing == writing && this.phnum == phnum
      ensures this.byteorder == byteorder && this.ehdr == ehdr && this.scns == scns
    {
      this.ec, this.writing, this.phnum := ec, writing, phnum;
      this.byteorder, this.ehdr, this.scns := byteorder, ehdr, scns;
    }

    /** The checks of one descriptor, in the order the library makes them. */
    method CheckDescriptor(t: ElfType, shAlign: nat, d: Data) returns (err: Error)
      requires shAlign > 0
      ensures err == DataFault(t, EV_CURRENT, shAlign, d)
      ensures Checked(t, shAlign, d, err)
    {
      hide BitAnd, PowerOfTwo;
      if d.dtype != t { return DataError; }
      if d.version != EV_CURRENT { return VersionError; }
      if d.align % shAlign != 0 { return LayoutError; }
      if d.align > 0 { BitTest(d.align); } else { NotZero(); }
      if d.align == 0 || BitAnd(d.align, d.align - 1) != 0 { return DataError; }
      err := NoError;
    }

    /** First loop of `_libelf_compute_section_extents`: check the descriptors, find the largest alignment. */
    method CheckData(t: ElfType, shAlign: nat, ds: seq<Data>) returns (err: Error, a: nat)
      requires shAlign > 0
      ensures err == NoError <==> DataOk(t, EV_CURRENT, shAlign, ds)
      ensures err == NoError ==> a == MaxAlign(ds)
      ensures err != NoError ==> exists k :: 0 <= k < |ds| && FirstAt(t, EV_CURRENT, shAlign, ds, k, err)
    {
      hide DataFault, Checked;
      a := 0;
      for i := 0 to |ds|
        invariant DataOk(t, EV_CURRENT, shAlign, ds[..i]) && a == MaxAlign(ds[..i])
      {
        var d := ds[i];
        err := CheckDescriptor(t, shAlign, d);
        if err != NoError {
          assert FirstAt(t, EV_CURRENT, shAlign, ds, i, err);
          return;
        }
        if d.align > a { a := d.align; }
        assert ds[..i + 1][..i] == ds[..i];
      }
      err := NoError;
      assert ds[..|ds|] == ds;
    }

    /** Second loop: give each descriptor its offset inside the section. */
    method PlaceData(a: nat, ds: seq<Data>) returns (es: seq<Data>, size: nat)
      requires ds != [] ==> a > 0
      ensures SameButOff(ds, es) && Packed(es, a) && size == DataEnd(es, |es|)
    {
      hide Roundup, Divides, TableSize;
      es, size := ds, 0;
      for i := 0 to |ds|
        invariant SameButOff(ds, es)
        invariant forall j :: 0 <= j < i ==> PackedAt(es, a, j)
        invariant size == DataEnd(es, i)
      {
        ghost var was := es;
        size := Roundup(size, a);
        es := es[i := es[i].(off := size)];
        size := size + es[i].size;
        forall j | 0 <= j < i ensures PackedAt(es, a, j) { assert PackedAt(was, a, j); }
      }
    }

    /** `_libelf_compute_section_extents` for one dirty section. */
    method ComputeSectionExtents(i: nat, rc: nat) returns (err: Error, end: nat)
      requires i < |scns|
      modifies `scns
      ensures Reports(ec, EV_CURRENT, old(scns)[i], err)
      ensures err != NoError ==> scns == old(scns)
      ensures err == NoError ==>
        |scns| == |old(scns)| && scns == old(scns)[i := scns[i]]
        && LaidOut(ec, old(scns)[i], rc, scns[i])
        && end == if InFile(scns[i]) then scns[i].sOffset + scns[i].sSize else rc
    {
      var s := scns[i];
      err, end := NoError, rc;
      if s.shType == SHT_NULL || s.shType == SHT_NOBITS { return; }
      var t := XlateShtype(s.shType);
      if t == Other { err := SectionError; return; }
      var shAlign := s.shAlign;
      if shAlign == 0 { shAlign := Falign(t, ec); }
      var a;
      err, a := CheckData(t, shAlign, s.data);
      if err != NoError { return; }
      SomeAlign(t, EV_CURRENT, shAlign, s.data);
      var es, size := PlaceData(a, s.data);
      if a > shAlign { shAlign := a; }
      var offset := Roundup(rc, shAlign);
      if end < offset + size { end := offset + size; }
      scns := scns[i := Section(s.shType, Field(ec, shAlign), Field(ec, offset), Field(ec, size), offset, size, es)];
    }

    /** `_libelf_resync_sections`: lay out every section, then walk them again checking the order. */
    method ResyncSections(rc0: nat) returns (err: Error, rc: nat)
      modifies `scns
      ensures |scns| == |old(scns)|
      ensures err == NoError <==> forall i :: 0 <= i < |old(scns)| ==> SectionOk(ec, EV_CURRENT, old(scns)[i])
      ensures err == NoError ==> Stacked(ec, old(scns), rc0, scns, |scns|) && rc == FileEnd(scns, rc0, |scns|)
      ensures err != NoError ==> exists k :: 0 <= k < |old(scns)| && FirstBad(ec, old(scns), k, err)
      // Null sections and sections without bits in the file (types 0 and 8) are left alone, others keep their contents.
      ensures err == NoError ==> forall i :: 0 <= i < |scns| ==> SameContents(old(scns)[i], scns[i])
    {
      rc := rc0;
      var nrc := rc0;
      for i := 0 to |scns|
        invariant |scns| == |old(scns)| && scns[i..] == old(scns)[i..]
        invariant forall j :: 0 <= j < i ==> SectionOk(ec, EV_CURRENT, old(scns)[j])
        invariant Stacked(ec, old(scns), rc0, scns, i) && nrc == FileEnd(scns, rc0, i)
      {
        ghost var was := scns;
        assert scns[i] == scns[i..][0] == old(scns)[i];
        err, nrc := ComputeSectionExtents(i, nrc);
        if err != NoError {
          assert FirstBad(ec, old(scns), i, err);
          return;
        }
        StackOneMore(ec, old(scns), rc0, was, scns, i);
      }
      for i := 0 to |scns|
        invariant rc == FileEnd(scns, rc0, i)
      {
        var s := scns[i];
        if s.shType == SHT_NOBITS || s.shType == SHT_NULL { continue; }
        assert StackedAt(ec, old(scns), rc0, scns, i);
        // A section before rc would have to be moved forward in the list.
        if s.sOffset < rc { assert false; }
        rc := s.sOffset + s.sSize;
      }
      assert nrc == rc;
      err := NoError;
      forall i | 0 <= i < |scns| ensures SameContents(old(scns)[i], scns[i]) {
        assert StackedAt(ec, old(scns), rc0, scns, i);
      }
    }

    /** `_libelf_resync_elf`; the result is the size of the file. */
    method ResyncElf() returns (err: Error, rc: nat)
      modifies `scns, `ehdr, `byteorder
      ensures |scns| == |old(scns)|
      ensures err == NoError <==>
        HeaderReports(ec, old(byteorder), writing, old(ehdr), NoError)
        && forall i :: 0 <= i < |old(scns)| ==> SectionOk(ec, EV_CURRENT, old(scns)[i])
      ensures err != NoError ==>
        ehdr.phoff == old(ehdr).phoff && ehdr.shoff == old(ehdr).shoff
        && (HeaderReports(ec, old(byteorder), writing, old(ehdr), err)
            || exists k :: 0 <= k < |old(scns)| && FirstBad(ec, old(scns), k, err))
      ensures err == NoError ==>
        ehdr.byteorder == byteorder == old(ehdr).byteorder
        && FileOk(ec, phnum, old(scns), scns, ehdr, rc)
      ensures var known := old(ehdr).version == 0 || old(ehdr).version == 1;
        var fits := old(ehdr).ehClass == if ec == Class32 then 1 else 2;
        && (!known ==> err == VersionError)
        && (known && !fits ==> err == ClassError)
        && (known && fits && !writing && old(ehdr).byteorder != old(byteorder) ==> err == HeaderError)
      ensures err == NoError ==>
        && Numbers(ec, phnum, scns, ehdr, rc)
        && (forall i :: 0 <= i < |scns| ==> SameContents(old(scns)[i], scns[i]))
    {
      hide FileOk, Numbers, SameContents, FirstBad, SectionOk;
      err, rc := LayOut();
      if err == NoError { FileNumbers(ec, phnum, old(scns), scns, ehdr, rc); }
    }

    method LayOut() returns (err: Error, rc: nat)
      modifies `scns, `ehdr, `byteorder
      ensures |scns| == |old(scns)|
      ensures HeaderReports(ec, old(byteorder), writing, old(ehdr), NoError) ==>
        (err == NoError <==> forall i :: 0 <= i < |old(scns)| ==> SectionOk(ec, EV_CURRENT, old(scns)[i]))
      ensures !HeaderReports(ec, old(byteorder), writing, old(ehdr), NoError) ==>
        HeaderReports(ec, old(byteorder), writing, old(ehdr), err)
      ensures err != NoError ==>
        ehdr.phoff == old(ehdr).phoff && ehdr.shoff == old(ehdr).shoff
        && (HeaderReports(ec, old(byteorder), writing, old(ehdr), err)
            || exists k :: 0 <= k < |old(scns)| && FirstBad(ec, old(scns), k, err))
      ensures err == NoError ==>
        ehdr.byteorder == byteorder == old(ehdr).byteorder
        && FileOk(ec, phnum, old(scns), scns, ehdr, rc)
        && (forall i :: 0 <= i < |scns| ==> SameContents(old(scns)[i], scns[i]))
    {
      rc := 0;
      var version := ehdr.version;
      if version == EV_NONE { version := EV_CURRENT; }
      if version != EV_CURRENT { err := VersionError; return; }
      if ehdr.ehClass != ClassNumber(ec) { err := ClassError; return; }
      if !writing && ehdr.byteorder != byteorder { err := HeaderError; return; }
      byteorder := ehdr.byteorder;
      rc := rc + EhdrSize(ec);
      var phoff := 0;
      if phnum > 0 {
        phoff := Roundup(rc, HeaderAlign(ec));
        rc := phoff + TableSize(PhdrSize(ec), phnum);
      }
      err, rc := ResyncSections(rc);
      if err != NoError { return; }
      var shoff := 0;
      if |scns| > 0 {
        shoff := Roundup(rc, HeaderAlign(ec));
        rc := shoff + TableSize(ShdrSize(ec), |scns|);
      }
      ehdr := ehdr.(phoff := Field(ec, phoff), shoff := Field(ec, shoff));
    }
  }
}
