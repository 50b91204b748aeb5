/**
 * The Internet checksum of libdnet: 16-bit words added up in an unrolled loop that is entered in
 * the middle, the carries folded back in, and the complement taken.
 */
module InternetChecksum {

  type Byte = x: int | 0 <= x < 256
  type Word = x: int | 0 <= x < 0x1_0000
  type Int = x: int | -0x8000_0000 <= x < 0x8000_0000

  /** Two bytes as a word of the host: high byte first on a big-endian one. */
  function MakeWord(big: bool, b0: Byte, b1: Byte): Word {
    if big then b0 * 256 + b1 else b1 * 256 + b0
  }

  function WordAt(big: bool, mem: seq<Byte>, i: nat): Word
    requires 2 * i + 1 < |mem|
  {
    MakeWord(big, mem[2 * i], mem[2 * i + 1])
  }

  /** A 32-bit int after overflow. */
  function Int32(x: int): (r: Int)
    ensures -0x8000_0000 <= x < 0x8000_0000 ==> r == x
  {
    (x + 0x8000_0000) % 0x1_0000_0000 - 0x8000_0000
  }

  lemma Int32Add(x: int, d: int)
    ensures Int32(Int32(x) + d) == Int32(x + d)
  {
    var q := (x + 0x8000_0000) / 0x1_0000_0000;
    assert Int32(x) == x - q * 0x1_0000_0000;
    assert (Int32(x) + d + 0x8000_0000) % 0x1_0000_0000 == (x + d + 0x8000_0000 - q * 0x1_0000_0000) % 0x1_0000_0000;
    ModMinus(x + d + 0x8000_0000, q);
  }

  lemma ModMinus(a: int, q: int)
    ensures (a - q * 0x1_0000_0000) % 0x1_0000_0000 == a % 0x1_0000_0000
  {
  }

  /** The sum of the first n words. */
  function WordSum(big: bool, mem: seq<Byte>, n: nat): (s: nat)
    requires 2 * n <= |mem|
    ensures s <= 0xffff * n
  {
    if n == 0 then 0 else WordSum(big, mem, n - 1) + WordAt(big, mem, n - 1)
  }

  /** How many words the loop reads for a buffer of len bytes. */
  function WordsRead(len: nat): nat { if len < 2 then 16 else len / 2 }

  /** What a buffer of len bytes adds: its words, and a last odd byte padded with zero. */
  function BufferSum(big: bool, mem: seq<Byte>, len: nat): nat
    requires 2 * WordsRead(len) + len % 2 <= |mem|
  {
    WordSum(big, mem, WordsRead(len))
    + if len % 2 == 1 then MakeWord(big, mem[2 * WordsRead(len)], 0) else 0
  }

  /** The bytes with their weights: of each pair of bytes one counts 256-fold, the first on a big-endian host. */
  function ByteSum(big: bool, mem: seq<Byte>, n: nat): nat
    requires n <= |mem|
  {
    if n == 0 then 0
    else ByteSum(big, mem, n - 1) + Weight(big, n - 1) * mem[n - 1]
  }

  function Weight(big: bool, k: nat): nat { if (k % 2 == 0) == big then 256 else 1 }

  lemma Weights(big: bool, k: nat)
    ensures Weight(big, 2 * k) == (if big then 256 else 1) && Weight(big, 2 * k + 1) == if big then 1 else 256
  {
  }

  lemma {:induction false} WordsAddUp(big: bool, mem: seq<Byte>, n: nat)
    requires 2 * n <= |mem|
    ensures WordSum(big, mem, n) == ByteSum(big, mem, 2 * n)
  {
    if n > 0 {
      WordsAddUp(big, mem, n - 1);
      TwoMore(big, mem, n - 1);
    }
  }

  lemma TwoMore(big: bool, mem: seq<Byte>, k: nat)
    requires 2 * k + 1 < |mem|
    ensures ByteSum(big, mem, 2 * k + 2) == ByteSum(big, mem, 2 * k) + WordAt(big, mem, k)
  {
    hide Weight;
    Weights(big, k);
    assert ByteSum(big, mem, 2 * k + 2) == ByteSum(big, mem, 2 * k + 1) + Weight(big, 2 * k + 1) * mem[2 * k + 1];
    assert ByteSum(big, mem, 2 * k + 1) == ByteSum(big, mem, 2 * k) + Weight(big, 2 * k) * mem[2 * k];
    hide ByteSum;
  }

  /** The words of a buffer and its padded odd byte are its bytes with their weights. */
  lemma BytesAddUp(big: bool, mem: seq<Byte>, len: nat)
    requires 2 <= len <= |mem|
    ensures BufferSum(big, mem, len) == ByteSum(big, mem, len)
  {
    WordsAddUp(big, mem, len / 2);
  }

  /** `ip_cksum_add`; mem is the memory from buf on, and `words` of its words are read: the buffer's if it has any. */
  method CksumAdd(big: bool, mem: seq<Byte>, len: nat, cksum0: Int) returns (cksum: Int, ghost words: nat)
    requires 2 * WordsRead(len) + len % 2 <= |mem|
    ensures words == WordsRead(len) && (words == len / 2 <==> len >= 2)
    ensures cksum == Int32(cksum0 + BufferSum(big, mem, len))
    ensures 2 <= len <= |mem| ==> cksum == Int32(cksum0 + ByteSum(big, mem, len))
  {
    hide Int32;
    cksum, words := AddWords(big, mem, len, cksum0);
    if 2 <= len <= |mem| { BytesAddUp(big, mem, len); }
  }

  method AddWords(big: bool, mem: seq<Byte>, len: nat, cksum0: Int) returns (cksum: Int, ghost words: nat)
    requires 2 * WordsRead(len) + len % 2 <= |mem|
    ensures words == WordsRead(len)
    ensures cksum == Int32(cksum0 + BufferSum(big, mem, len))
  {
    hide Int32, WordAt, MakeWord;
    var sn := len / 2;
    var n := (sn + 15) / 16;
    var sp := 0;
    cksum := cksum0;
    // A case label j enters the loop body with j additions left; case 0 runs all sixteen.
    var left := if sn % 16 == 0 then 16 else sn % 16;
    while true
      invariant 0 <= sp && 1 <= left <= 16 && 0 <= n
      invariant sp + left + 16 * (if n > 0 then n - 1 else 0) == WordsRead(len)
      invariant cksum == Int32(cksum0 + WordSum(big, mem, sp))
      decreases n
    {
      var j := left;
      while j > 0
        invariant 0 <= j <= left && 0 <= sp
        invariant sp + j + 16 * (if n > 0 then n - 1 else 0) == WordsRead(len)
        invariant cksum == Int32(cksum0 + WordSum(big, mem, sp))
      {
        Int32Add(cksum0 + WordSum(big, mem, sp), WordAt(big, mem, sp));
        cksum := Int32(cksum + WordAt(big, mem, sp));
        sp := sp + 1;
        j := j - 1;
      }
      n := n - 1;
      if n <= 0 { break; }
      left := 16;
    }
    words := sp;
    if len % 2 == 1 {
      Int32Add(cksum0 + WordSum(big, mem, sp), MakeWord(big, mem[2 * sp], 0));
      cksum := Int32(cksum + MakeWord(big, mem[2 * sp], 0));
    }
  }

  /** From zero, no buffer up to 65535 bytes can overflow, neither at the end nor on the way. */
  lemma NeverOverflows(big: bool, mem: seq<Byte>, len: nat, n: nat)
    requires 2 <= len <= 65535 && len <= |mem| && n <= WordsRead(len)
    ensures WordSum(big, mem, n) <= BufferSum(big, mem, len) < 0x8000_0000
  {
    hide WordAt, MakeWord;
    SumGrows(big, mem, n, WordsRead(len));
  }

  lemma {:induction false} SumGrows(big: bool, mem: seq<Byte>, m: nat, n: nat)
    requires m <= n && 2 * n <= |mem|
    ensures WordSum(big, mem, m) <= WordSum(big, mem, n)
    decreases n - m
  {
    if m < n { SumGrows(big, mem, m, n - 1); }
  }

  /** One's-complement arithmetic counts modulo 65535. */
  function Residue(x: int): nat { x % 0xffff }

  lemma AddMultiple(x: int, q: int)
    ensures Residue(0xffff * q + x) == Residue(x)
  {
  }

  lemma Quotient(x: int) returns (q: int)
    ensures x == 0xffff * q + Residue(x)
  {
    q := x / 0xffff;
  }

  lemma SameResidueAdd(a: int, b: int, c: int, d: int)
    requires Residue(a) == Residue(b) && Residue(c) == Residue(d)
    ensures Residue(a + c) == Residue(b + d)
  {
    hide Residue;
    var p := Quotient(a);
    var q := Quotient(b);
    var r := Quotient(c);
    var t := Quotient(d);
    AddMultiple(Residue(a) + Residue(c), p + r);
    AddMultiple(Residue(b) + Residue(d), q + t);
  }

  /** Adding the complement of something of the same residue gives a multiple of 65535. */
  lemma ComplementCancels(s: nat, f: Word)
    requires Residue(f) == Residue(s)
    ensures Residue(s + 0xffff - f) == 0
  {
  }

  lemma ShiftedResidue(x: int, v: int, w: int)
    requires Residue(x) == 0
    ensures Residue(x + w - v) == 0 <==> Residue(w) == Residue(v)
  {
  }

  lemma ResidueTimes(a: int, b: int)
    requires Residue(a) == Residue(b)
    ensures Residue(256 * a) == Residue(256 * b)
  {
    hide Residue;
    var p := Quotient(a);
    var q := Quotient(b);
    AddMultiple(256 * Residue(a), 256 * p);
    AddMultiple(256 * Residue(b), 256 * q);
  }

  lemma ResidueUnique(a: Word, b: Word)
    requires Residue(a) == Residue(b) && (a == 0 <==> b == 0)
    ensures a == b
  {
  }

  /** The fold of `ip_cksum_carry` before the complement; `>>` and `&` on an int round down. */
  function Fold(x: int): Word {
    var y := x / 0x1_0000 + x % 0x1_0000;
    (y + y / 0x1_0000) % 0x1_0000
  }

  /** `ip_cksum_carry` */
  function CksumCarry(x: Int): (r: Word)
    ensures x >= 0 ==> (r == 0 <==> x > 0 && Residue(x) == 0)
  {
    if x >= 0 then FoldIs(x); 0xffff - Fold(x) else 0xffff - Fold(x)
  }

  /** Folding keeps the value modulo 65535, and only zero folds to zero. */
  lemma FoldIs(x: Int)
    requires x >= 0
    ensures Residue(Fold(x)) == Residue(x) && (Fold(x) == 0 <==> x == 0)
  {
    var h, l := x / 0x1_0000, x % 0x1_0000;
    assert x == 0xffff * h + (h + l);
    var y := h + l;
    if y >= 0x1_0000 {
      assert Fold(x) == y + 1 - 0x1_0000;
    } else {
      assert Fold(x) == y;
    }
  }

  // ----- Replacing a word -----

  /** The memory with word i set to w. */
  function PutWord(big: bool, mem: seq<Byte>, i: nat, w: Word): (r: seq<Byte>)
    requires 2 * i + 1 < |mem|
    ensures |r| == |mem|
  {
    if big then mem[2 * i := w / 256][2 * i + 1 := w % 256] else mem[2 * i := w % 256][2 * i + 1 := w / 256]
  }

  lemma PutGet(big: bool, mem: seq<Byte>, i: nat, w: Word, j: nat)
    requires 2 * i + 1 < |mem| && 2 * j + 1 < |mem|
    ensures WordAt(big, PutWord(big, mem, i, w), j) == if i == j then w else WordAt(big, mem, j)
  {
  }

  lemma {:induction false} PutSum(big: bool, mem: seq<Byte>, i: nat, w: Word, n: nat)
    requires 2 * i + 1 < |mem| && 2 * n <= |mem|
    ensures WordSum(big, PutWord(big, mem, i, w), n)
            == WordSum(big, mem, n) + if i < n then w - WordAt(big, mem, i) else 0
  {
    hide WordAt, PutWord;
    if n > 0 {
      PutSum(big, mem, i, w, n - 1);
      PutGet(big, mem, i, w, n - 1);
    }
  }

  /** Changing one word changes what the buffer adds by the difference. */
  lemma PutBufferSum(big: bool, mem: seq<Byte>, len: nat, i: nat, w: Word)
    requires 2 <= len <= |mem| && i < len / 2
    ensures BufferSum(big, PutWord(big, mem, i, w), len) == BufferSum(big, mem, len) + w - WordAt(big, mem, i)
  {
    PutSum(big, mem, i, w, len / 2);
  }

  /** The checksum of a buffer. */
  function Checksum(big: bool, mem: seq<Byte>, len: nat): Word
    requires 2 <= len <= 65535 && len <= |mem|
  {
    NeverOverflows(big, mem, len, 0);
    CksumCarry(BufferSum(big, mem, len))
  }

  /**
   * A sender that zeroes the checksum word, computes the checksum and stores it there gets a
   * buffer whose checksum is zero, whatever the buffer and wherever the word.
   */
  lemma StoredChecksumVerifies(big: bool, mem: seq<Byte>, len: nat, i: nat)
    requires 2 <= len <= 65535 && len <= |mem| && i < len / 2
    ensures var zeroed := PutWord(big, mem, i, 0);
      Checksum(big, PutWord(big, zeroed, i, Checksum(big, zeroed, len)), len) == 0
  {
    var zeroed := PutWord(big, mem, i, 0);
    var c := Checksum(big, zeroed, len);
    PutGet(big, mem, i, 0, i);
    PutBufferSum(big, zeroed, len, i, c);
    var sent := PutWord(big, zeroed, i, c);
    var s := BufferSum(big, zeroed, len);
    NeverOverflows(big, zeroed, len, 0);
    NeverOverflows(big, sent, len, 0);
    hide BufferSum, PutWord, WordAt, Fold, Residue;
    FoldIs(s);
    ComplementCancels(s, Fold(s));
  }

  /** A receiver notices any change of one word, other than between the two zeros 0 and 0xffff. */
  lemma OneWordDamageDetected(big: bool, mem: seq<Byte>, len: nat, i: nat, w: Word)
    requires 2 <= len <= 65535 && len <= |mem| && i < len / 2 && Checksum(big, mem, len) == 0
    ensures Checksum(big, PutWord(big, mem, i, w), len) == 0 <==>
      Residue(w) == Residue(WordAt(big, mem, i)) && BufferSum(big, PutWord(big, mem, i, w), len) > 0
  {
    PutBufferSum(big, mem, len, i, w);
    NeverOverflows(big, mem, len, 0);
    NeverOverflows(big, PutWord(big, mem, i, w), len, 0);
    hide BufferSum, PutWord, WordAt, Fold, Residue;
    ShiftedResidue(BufferSum(big, mem, len), WordAt(big, mem, i), w);
  }

  // ----- Buffers in pieces -----

  lemma {:induction false} SumOfPieces(big: bool, a: seq<Byte>, b: seq<Byte>, n: nat)
    requires |a| % 2 == 0 && 2 * n <= |b|
    ensures WordSum(big, a + b, |a| / 2 + n) == WordSum(big, a, |a| / 2) + WordSum(big, b, n)
  {
    hide WordAt;
    if n > 0 {
      SumOfPieces(big, a, b, n - 1);
      assert WordAt(big, a + b, |a| / 2 + n - 1) == WordAt(big, b, n - 1) by { WordOfPiece(big, a, b, n - 1); }
    } else {
      SumOfFront(big, a, b, |a| / 2);
    }
  }

  lemma WordOfPiece(big: bool, a: seq<Byte>, b: seq<Byte>, k: nat)
    requires |a| % 2 == 0 && 2 * k + 1 < |b|
    ensures WordAt(big, a + b, |a| / 2 + k) == WordAt(big, b, k)
  {
  }

  lemma {:induction false} SumOfFront(big: bool, a: seq<Byte>, b: seq<Byte>, n: nat)
    requires 2 * n <= |a|
    ensures WordSum(big, a + b, n) == WordSum(big, a, n)
  {
    if n > 0 { SumOfFront(big, a, b, n - 1); }
  }

  /** Adding an even piece and then another is adding them joined together. */
  lemma PiecesAddUp(big: bool, a: seq<Byte>, b: seq<Byte>)
    requires |a| % 2 == 0 && |a| >= 2 && |b| >= 2
    ensures BufferSum(big, a + b, |a| + |b|) == BufferSum(big, a, |a|) + BufferSum(big, b, |b|)
  {
    SumOfPieces(big, a, b, |b| / 2);
    hide WordSum, WordAt;
    assert (|a| + |b|) / 2 == |a| / 2 + |b| / 2;
  }

  // ----- Byte order -----

  function Swap(w: Word): Word { (w % 256) * 256 + w / 256 }

  lemma SwapIs(w: Word)
    ensures Residue(Swap(w)) == Residue(256 * w) && (Swap(w) == 0 <==> w == 0)
  {
    var h, l := w / 256, w % 256;
    assert 256 * w == 0xffff * h + Swap(w);
    AddMultiple(Swap(w), h);
  }

  lemma OtherOrder(b0: Byte, b1: Byte)
    ensures MakeWord(false, b0, b1) == Swap(MakeWord(true, b0, b1))
  {
  }

  /** Little-endian sums are 256 times the big-endian ones, modulo 65535; and zero together. */
  predicate Swapped(little: nat, big: nat) {
    Residue(little) == Residue(256 * big) && (little == 0 <==> big == 0)
  }

  lemma SwappedAdd(a: nat, b: nat, c: nat, d: nat)
    requires Swapped(a, b) && Swapped(c, d)
    ensures Swapped(a + c, b + d)
  {
    hide Residue;
    SameResidueAdd(a, 256 * b, c, 256 * d);
    assert 256 * (b + d) == 256 * b + 256 * d;
  }

  lemma SwappedWord(b0: Byte, b1: Byte)
    ensures Swapped(MakeWord(false, b0, b1), MakeWord(true, b0, b1))
  {
    OtherOrder(b0, b1);
    SwapIs(MakeWord(true, b0, b1));
  }

  lemma NothingSwapped()
    ensures Swapped(0, 0)
  {
  }

  lemma {:induction false} SwappedSum(mem: seq<Byte>, n: nat)
    requires 2 * n <= |mem|
    ensures Swapped(WordSum(false, mem, n), WordSum(true, mem, n))
  {
    hide Swapped, MakeWord;
    if n > 0 {
      SwappedSum(mem, n - 1);
      SwappedWord(mem[2 * n - 2], mem[2 * n - 1]);
      SwappedAdd(WordSum(false, mem, n - 1), WordSum(true, mem, n - 1),
                 WordAt(false, mem, n - 1), WordAt(true, mem, n - 1));
    } else {
      NothingSwapped();
    }
  }

  lemma SwappedFold(little: Int, big: Int)
    requires little >= 0 && big >= 0 && Swapped(little, big)
    ensures Fold(little) == Swap(Fold(big))
  {
    hide Fold, Residue, Swap;
    FoldIs(little);
    FoldIs(big);
    SwapIs(Fold(big));
    ResidueTimes(Fold(big), big);
    ResidueUnique(Fold(little), Swap(Fold(big)));
  }

  lemma SwappedBuffer(mem: seq<Byte>, len: nat)
    requires 2 <= len <= |mem|
    ensures Swapped(BufferSum(false, mem, len), BufferSum(true, mem, len))
  {
    hide Swapped, MakeWord, WordSum;
    SwappedSum(mem, len / 2);
    if len % 2 == 1 {
      SwappedWord(mem[len - 1], 0);
      SwappedAdd(WordSum(false, mem, len / 2), WordSum(true, mem, len / 2),
                 MakeWord(false, mem[len - 1], 0), MakeWord(true, mem[len - 1], 0));
    }
  }

  /** The bytes of a word stored on one kind of host are those of the swapped word on the other. */
  lemma SwappedBytes(mem: seq<Byte>, i: nat, f: Word)
    requires 2 * i + 1 < |mem|
    ensures PutWord(false, mem, i, 0xffff - Swap(f)) == PutWord(true, mem, i, 0xffff - f)
  {
    var h, l := f / 256, f % 256;
    Halves(0xffff - f, 255 - h, 255 - l);
    Halves(0xffff - Swap(f), 255 - l, 255 - h);
  }

  lemma Halves(w: int, h: int, l: int)
    requires 0 <= l < 256 && w == h * 256 + l
    ensures w / 256 == h && w % 256 == l
  {
  }

  /** Both kinds of host store the same two bytes as the checksum of the same buffer. */
  lemma SameBytesOnEveryHost(mem: seq<Byte>, len: nat, i: nat)
    requires 2 <= len <= 65535 && len <= |mem| && i < len / 2
    ensures PutWord(false, mem, i, Checksum(false, mem, len)) == PutWord(true, mem, i, Checksum(true, mem, len))
  {
    hide BufferSum, Fold, Swap, PutWord, Residue, Swapped;
    NeverOverflows(false, mem, len, 0);
    NeverOverflows(true, mem, len, 0);
    SwappedBuffer(mem, len);
    SwappedFold(BufferSum(false, mem, len), BufferSum(true, mem, len));
    SwappedBytes(mem, i, Fold(BufferSum(true, mem, len)));
  }
}
