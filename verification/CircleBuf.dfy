/**
 * A ring buffer for console output.  The specification is the plain history of the bytes written
 * since the last flush: `readall` must show its end, as much as fits the buffer.
 */
module CircleBuf {

  /** The last n bytes of the history, or all of them if there are fewer. */
  function Lasts(history: seq<char>, n: nat): seq<char> {
    if |history| <= n then history else history[|history| - n..]
  }

  /** What the ring holds, oldest byte first. */
  function Ring(buf: seq<char>, stop: nat, rollover: bool): (r: seq<char>)
    requires stop <= |buf|
    ensures |r| == if rollover then |buf| else stop
  {
    if rollover then buf[stop..] + buf[..stop] else buf[..stop]
  }

  /** The ring shows the end of the history, and has rolled over only once it was full. */
  predicate Shows(buf: seq<char>, stop: nat, rollover: bool, history: seq<char>) {
    && stop <= |buf| && Ring(buf, stop, rollover) == Lasts(history, |buf|)
    && (!rollover ==> |history| <= |buf|) && (rollover ==> |history| >= |buf|)
  }

  /** The buffer with s stored from offset at on. */
  function Stored(buf: seq<char>, at: nat, s: seq<char>): (r: seq<char>)
    requires at + |s| <= |buf|
    ensures |r| == |buf|
  {
    buf[..at] + s + buf[at + |s|..]
  }

  lemma LastsAppend(h: seq<char>, s: seq<char>, n: nat)
    requires |s| <= n
    ensures Lasts(h + s, n) == Lasts(h, n - |s|) + s
  {
  }

  lemma LastsOfLasts(h: seq<char>, n: nat, k: nat)
    requires k <= n
    ensures Lasts(Lasts(h, n), k) == Lasts(h, k)
  {
  }

  lemma LastsIs(x: seq<char>, y: seq<char>)
    ensures Lasts(x + y, |y|) == y
  {
  }

  /** A write of at least the whole buffer leaves its last bytes. */
  lemma LongWrite(buf: seq<char>, s: seq<char>, history: seq<char>)
    requires |s| >= |buf|
    ensures Shows(s[|s| - |buf|..], |buf|, true, history + s)
  {
    var front, back := s[..|s| - |buf|], s[|s| - |buf|..];
    LastsIs(history + front, back);
    assert history + s == history + front + back;
  }

  /** A ring b c a whose oldest part b gives way to s. */
  lemma Replaces(a: seq<char>, b: seq<char>, c: seq<char>, s: seq<char>, history: seq<char>, n: nat)
    requires |b| == |s| && n == |a| + |b| + |c| && Lasts(history, n) == b + c + a
    ensures Lasts(history + s, n) == c + (a + s)
  {
    hide Lasts;
    var ca := c + a;
    Associates(b, c, a);
    Associates(c, a, s);
    LastsAppend(history, s, n);
    LastsOfLasts(history, n, |ca|);
    LastsIs(b, ca);
  }

  lemma Associates(a: seq<char>, b: seq<char>, c: seq<char>)
    ensures a + b + c == a + (b + c)
  {
  }

  lemma InLineRings(buf: seq<char>, stop: nat, s: seq<char>)
    requires stop + |s| <= |buf|
    ensures var a, b, c := buf[..stop], buf[stop..stop + |s|], buf[stop + |s|..];
      && Ring(buf, stop, true) == b + c + a
      && Ring(Stored(buf, stop, s), stop + |s|, true) == c + (a + s)
      && Ring(Stored(buf, stop, s), stop + |s|, false) == a + s
  {
  }

  /** A write that fits behind stop. */
  lemma WriteInLine(buf: seq<char>, stop: nat, rollover: bool, s: seq<char>, history: seq<char>)
    requires Shows(buf, stop, rollover, history) && stop + |s| <= |buf|
    ensures Shows(Stored(buf, stop, s), stop + |s|, rollover, history + s)
  {
    InLineRings(buf, stop, s);
    if rollover {
      hide Ring, Stored, Lasts;
      Replaces(buf[..stop], buf[stop..stop + |s|], buf[stop + |s|..], s, history, |buf|);
      RolledLength(buf, stop, history);
    } else {
      hide Stored;
    }
  }

  lemma RolledLength(buf: seq<char>, stop: nat, history: seq<char>)
    requires Shows(buf, stop, true, history)
    ensures |history| >= |buf|
  {
  }

  /** A ring that ends in m, of which only m is left when s is written behind it. */
  lemma Overwrites(ring: seq<char>, x: seq<char>, m: seq<char>, s: seq<char>, history: seq<char>, n: nat)
    requires n == |m| + |s| && ring == x + m && Lasts(history, n) == ring
    ensures Lasts(history + s, n) == m + s
  {
    LastsAppend(history, s, n);
    LastsOfLasts(history, n, |m|);
    LastsIs(x, m);
  }

  lemma AroundRings(buf: seq<char>, stop: nat, rollover: bool, s: seq<char>) returns (x: seq<char>, m: seq<char>)
    requires stop <= |buf| && |s| < |buf| < stop + |s|
    ensures Ring(buf, stop, rollover) == x + m && |m| + |s| == |buf|
    ensures var fits := |buf| - stop;
      Ring(Stored(Stored(buf, stop, s[..fits]), 0, s[fits..]), |s| - fits, true) == m + s
  {
    var fits := |buf| - stop;
    var rest := |s| - fits;
    m := buf[rest..stop];
    x := (if rollover then buf[stop..] else []) + buf[..rest];
    StoresAround(buf, stop, s);
    hide Stored;
    assert m + s[..fits] + s[fits..] == m + s;
    assert buf[..stop] == buf[..rest] + m;
  }

  /** A write that wraps around the end. */
  lemma WriteAround(buf: seq<char>, stop: nat, rollover: bool, s: seq<char>, history: seq<char>)
    requires Shows(buf, stop, rollover, history) && |s| < |buf| < stop + |s|
    ensures var fits := |buf| - stop;
      Shows(Stored(Stored(buf, stop, s[..fits]), 0, s[fits..]), |s| - fits, true, history + s)
  {
    hide Ring, Stored;
    var x, m := AroundRings(buf, stop, rollover, s);
    Overwrites(Ring(buf, stop, rollover), x, m, s, history, |buf|);
    assert |history| >= |m|;
  }

  lemma StoresAround(buf: seq<char>, stop: nat, s: seq<char>)
    requires stop <= |buf| && |s| < |buf| < stop + |s|
    ensures var fits := |buf| - stop; var rest := |s| - fits;
      var now := Stored(Stored(buf, stop, s[..fits]), 0, s[fits..]);
      now[rest..] == buf[rest..stop] + s[..fits] && now[..rest] == s[fits..]
  {
  }

  /** Where `write` leaves start; nothing that `readall` shows depends on it. */
  function MovedStart(start: int, oldStop: int, stop: int): int {
    if (oldStop < start && start < stop) || (start < oldStop && stop < oldStop) then stop + 1 else start
  }

  /** Where `read` leaves start. */
  function ReadTo(start: int, stop: int, buflen: int, len: int): int {
    if start < stop then start + Min(len, stop - start)
    else if len < buflen - start then start + len
    else Min(len - (buflen - start), stop)
  }

  function Min(a: int, b: int): int { if a < b then a else b }

  // ----- What the reads copy -----

  datatype Option<T> = None | Some(value: T)

  /** A copy of len bytes out of the buffer, from offset at on. */
  datatype Piece = Piece(at: int, len: int)

  predicate Inside(p: Piece, buflen: int) { 0 <= p.at && 0 <= p.len && p.at + p.len <= buflen }

  predicate AllInside(ps: seq<Piece>, buflen: int) {
    forall i :: 0 <= i < |ps| ==> Inside(ps[i], buflen)
  }

  /** The copies of a `read` of len bytes. */
  function ReadPieces(start: int, stop: int, buflen: int, len: int): seq<Piece> {
    if start < stop then [Piece(start, Min(len, stop - start))]
    else if len < buflen - start then [Piece(start, len)]
    else [Piece(start, buflen - start), Piece(0, Min(len - (buflen - start), stop))]
  }

  /** The copies of a read of everything unread. */
  function RestPieces(start: int, stop: int, buflen: int): seq<Piece> {
    if start < stop then [Piece(start, stop - start)] else [Piece(start, buflen - start), Piece(0, stop)]
  }

  function Bytes(buf: seq<char>, p: Piece): (r: seq<char>)
    requires Inside(p, |buf|)
    ensures |r| == p.len
  {
    buf[p.at..p.at + p.len]
  }

  function Delivered(buf: seq<char>, ps: seq<Piece>): seq<char>
    requires AllInside(ps, |buf|)
  {
    if ps == [] then []
    else
      assert Inside(ps[|ps| - 1], |buf|);
      Delivered(buf, ps[..|ps| - 1]) + Bytes(buf, ps[|ps| - 1])
  }

  predicate DeliveredAs(buf: seq<char>, ps: seq<Piece>, out: seq<char>) {
    AllInside(ps, |buf|) && out == Delivered(buf, ps)
  }

  /** The bytes between start and stop, around the end of the buffer unless start comes before stop. */
  function Unread(buf: seq<char>, start: int, stop: int): seq<char> {
    if !(0 <= start <= |buf| && 0 <= stop <= |buf|) then []
    else if start < stop then buf[start..stop] else buf[start..] + buf[..stop]
  }

  function Firsts(s: seq<char>, len: int): seq<char> {
    if len < 0 then [] else if len < |s| then s[..len] else s
  }

  /** The start is n bytes further on; reaching the end of the buffer while wrapping it is back at the beginning. */
  predicate Advanced(start: int, stop: int, buflen: int, n: int, next: int) {
    next == if start < stop || start + n < buflen then start + n else start + n - buflen
  }

  /** A `read` delivers the first unread bytes, as many as asked for and there, and steps over them. */
  lemma ReadIsFirsts(buf: seq<char>, start: int, stop: int, len: int)
    requires 0 <= start <= |buf| && 0 <= stop <= |buf| && 0 <= len
    ensures DeliveredAs(buf, ReadPieces(start, stop, |buf|, len), Firsts(Unread(buf, start, stop), len))
    ensures Advanced(start, stop, |buf|, |Firsts(Unread(buf, start, stop), len)|, ReadTo(start, stop, |buf|, len))
  {
    ReadInsideIff(start, stop, |buf|, len);
    var out := Firsts(Unread(buf, start, stop), len);
    if start < stop {
      OnePiece(buf, Piece(start, Min(len, stop - start)));
    } else if len < |buf| - start {
      OnePiece(buf, Piece(start, len));
      assert out == buf[start..start + len];
    } else {
      var rest := Min(len - (|buf| - start), stop);
      TwoPieces(buf, Piece(start, |buf| - start), Piece(0, rest));
      assert out == buf[start..] + buf[..rest];
    }
  }

  lemma RestIsUnread(buf: seq<char>, start: int, stop: int)
    requires 0 <= start <= |buf| && 0 <= stop <= |buf|
    ensures DeliveredAs(buf, RestPieces(start, stop, |buf|), Unread(buf, start, stop))
  {
    RestInsideIff(start, stop, |buf|);
    if start < stop {
      OnePiece(buf, Piece(start, stop - start));
    } else {
      TwoPieces(buf, Piece(start, |buf| - start), Piece(0, stop));
      assert buf[start..start + (|buf| - start)] == buf[start..];
    }
  }

  /** A `read` stays inside the buffer exactly for a length that is not negative and a start within it. */
  lemma ReadInsideIff(start: int, stop: int, buflen: int, len: int)
    requires 0 <= start && 0 <= stop <= buflen
    ensures AllInside(ReadPieces(start, stop, buflen, len), buflen) <==> 0 <= len && start <= buflen
  {
    var ps := ReadPieces(start, stop, buflen, len);
    assert AllInside(ps, buflen) ==> Inside(ps[0], buflen);
  }

  /** So does a read of the rest, for a start within the buffer. */
  lemma RestInsideIff(start: int, stop: int, buflen: int)
    requires 0 <= start && 0 <= stop <= buflen
    ensures AllInside(RestPieces(start, stop, buflen), buflen) <==> start <= buflen
  {
    var ps := RestPieces(start, stop, buflen);
    assert AllInside(ps, buflen) ==> Inside(ps[0], buflen);
  }

  /** Where a write of len bytes leaves stop. */
  function MovedStop(stop: int, buflen: int, len: int): int {
    if len >= buflen then buflen else if stop + len <= buflen then stop + len else len - (buflen - stop)
  }

  /**
   * A short write leaves start outside the buffer exactly when it was there already, or when the
   * write ends at the very end of the buffer and start lay between the old stop and that end.
   */
  lemma StartLeavesIff(start: int, stop: int, buflen: int, len: int)
    requires 0 <= start <= buflen + 1 && 0 <= stop <= buflen && 0 < len < buflen
    ensures MovedStart(start, stop, MovedStop(stop, buflen, len)) > buflen <==>
      start > buflen || (stop + len == buflen && stop < start < buflen)
  {
  }

  /** Where in the ring a read from start begins. */
  function RingOffset(start: nat, stop: nat, n: nat, rollover: bool): int {
    if !rollover then start else if start < stop then n - stop + start else start - stop
  }

  /** The bytes are the stretch of the ring that begins at k. */
  predicate StretchAt(ring: seq<char>, k: int, out: seq<char>) {
    0 <= k && k + |out| <= |ring| && forall i :: 0 <= i < |out| ==> out[i] == ring[k + i]
  }

  /** A read inside the buffer, once something unread or rolled over is there, delivers one stretch of the ring. */
  lemma DeliversRing(buf: seq<char>, start: nat, stop: nat, rollover: bool, len: nat)
    requires start <= |buf| && stop <= |buf| && (start < stop || rollover)
    ensures AllInside(ReadPieces(start, stop, |buf|, len), |buf|)
    ensures StretchAt(Ring(buf, stop, rollover), RingOffset(start, stop, |buf|, rollover),
                      Delivered(buf, ReadPieces(start, stop, |buf|, len)))
  {
    hide Delivered, AllInside, Ring, StretchAt, RingOffset, Bytes;
    ReadInsideIff(start, stop, |buf|, len);
    if start < stop {
      OnePiece(buf, Piece(start, Min(len, stop - start)));
      UpToStop(buf, start, stop, rollover, Min(len, stop - start));
    } else if len < |buf| - start {
      OnePiece(buf, Piece(start, len));
      BehindStop(buf, start, stop, len);
    } else {
      TwoPieces(buf, Piece(start, |buf| - start), Piece(0, Min(len - (|buf| - start), stop)));
      Stretch(buf, start, stop, Min(len - (|buf| - start), stop));
    }
  }

  lemma UpToStop(buf: seq<char>, start: nat, stop: nat, rollover: bool, l: nat)
    requires start + l <= stop <= |buf| && start < stop
    ensures StretchAt(Ring(buf, stop, rollover), RingOffset(start, stop, |buf|, rollover), Bytes(buf, Piece(start, l)))
  {
  }

  lemma BehindStop(buf: seq<char>, start: nat, stop: nat, l: nat)
    requires stop <= start && start + l <= |buf|
    ensures StretchAt(Ring(buf, stop, true), RingOffset(start, stop, |buf|, true), Bytes(buf, Piece(start, l)))
  {
  }

  lemma Stretch(buf: seq<char>, start: nat, stop: nat, end: nat)
    requires end <= stop <= start <= |buf|
    ensures StretchAt(Ring(buf, stop, true), RingOffset(start, stop, |buf|, true),
                      Bytes(buf, Piece(start, |buf| - start)) + Bytes(buf, Piece(0, end)))
  {
  }

  class CircleBuf {
    const buf: array<char>
    const buflen: int
    var rollover: bool
    var size: int
    var start: int
    var stop: int
    ghost var history: seq<char>

    ghost predicate Valid()
      reads this, buf
    {
      && buf.Length == buflen && 0 <= start <= buflen + 1
      && 0 <= stop && Shows(buf[..], stop, rollover, history)
    }

    constructor (l: nat)
      ensures Valid() && fresh(buf) && buflen == l && history == [] && size == 0 && start == 0 && stop == 0
    {
      rollover, buflen, size, start, stop := false, l, 0, 0, 0;
      buf := new char[l];
      history := [];
    }

    method Flush()
      requires Valid()
      modifies this
      ensures Valid() && history == [] && size == old(size) && start == 0 && stop == 0
    {
      start := 0;
      stop := 0;
      rollover := false;
      history := [];
    }

    /** memcpy into the buffer. */
    method Copy(at: nat, s: seq<char>)
      requires at + |s| <= buf.Length
      modifies buf
      ensures buf[..] == Stored(old(buf[..]), at, s)
    {
      ghost var was := buf[..];
      StoredNothing(was, at, s);
      hide Stored;
      for i := 0 to |s|
        invariant buf[..] == Stored(was, at, s[..i])
      {
        StoredStep(was, at, s, i);
        ghost var before := buf[..];
        buf[at + i] := s[i];
        assert buf[..] == before[at + i := s[i]];
      }
      assert s[..|s|] == s;
    }


    method Write(b: seq<char>, len: int)
      requires Valid() && len <= |b|
      modifies this, buf
      ensures Valid() && history == old(history) + (if len <= 0 then [] else b[..len])
      ensures len > 0 ==> size == if old(size) + len > buflen then buflen else old(size) + len
      ensures len <= 0 ==> size == old(size) && start == old(start) && stop == old(stop)
      ensures len > 0 ==> stop == MovedStop(old(stop), buflen, len)
      ensures len > 0 ==> start == if len >= buflen then 0 else MovedStart(old(start), old(stop), stop)
      ensures 0 < len && buflen <= len ==> start == 0 && stop == buflen
      ensures 0 < len < buflen ==>
        && stop == (if old(stop) + len <= buflen then old(stop) + len else old(stop) + len - buflen)
        && start == if (old(start) > old(stop) && old(start) < stop) || (old(start) < old(stop) && stop < old(stop))
                    then stop + 1 else old(start)
    {
      if len <= 0 { return; }
      hide Shows;
      size := size + len;
      if size > buflen { size := buflen; }
      if len >= buflen {
        WriteLong(b[..len]);
        return;
      }
      var oldStart, oldStop := start, stop;
      InBounds(buf[..], stop, rollover, history);
      if stop + len <= buflen {
        WriteBehind(b[..len]);
      } else {
        WriteWrapped(b[..len]);
      }
      if (oldStart > oldStop && oldStart < stop) || (oldStart < oldStop && stop < oldStop) {
        start := stop + 1;
      }
    }

    method WriteLong(s: seq<char>)
      requires Valid() && |s| >= buflen
      modifies this, buf
      ensures Valid() && history == old(history) + s && size == old(size) && start == 0 && stop == buflen
    {
      hide Shows, Stored;
      LongWrite(buf[..], s, history);
      CopyAll(buf[..], s[|s| - buflen..]);
      history := history + s;
      start := 0;
      stop := buflen;
      rollover := true;
      Copy(0, s[|s| - buflen..]);
    }

    method WriteBehind(s: seq<char>)
      requires Valid() && stop + |s| <= buflen
      modifies `stop, `history, buf
      ensures Valid() && history == old(history) + s && stop == old(stop) + |s|
    {
      hide Shows, Stored;
      WriteInLine(buf[..], stop, rollover, s, history);
      history := history + s;
      Copy(stop, s);
      stop := stop + |s|;
    }

    method WriteWrapped(s: seq<char>)
      requires Valid() && |s| < buflen < stop + |s|
      modifies `stop, `history, `rollover, buf
      ensures Valid() && history == old(history) + s && stop == |s| - (buflen - old(stop))
    {
      hide Shows, Stored;
      InBounds(buf[..], stop, rollover, history);
      WriteAround(buf[..], stop, rollover, s, history);
      history := history + s;
      var oldStop := stop;
      var endLen := buflen - oldStop;
      stop := |s| - endLen;
      Copy(oldStop, s[..endLen]);
      Copy(0, s[endLen..]);
      rollover := true;
    }

    /** A copy out of the buffer, or nothing if it would leave the buffer. */
    method CopyOne(p: Piece) returns (out: Option<seq<char>>)
      ensures out.Some? <==> AllInside([p], buf.Length)
      ensures out.Some? ==> out.value == Delivered(buf[..], [p])
    {
      OnePiece(buf[..], p);
      if p.at < 0 || p.len < 0 || p.at + p.len > buf.Length { return None; }
      out := Some(buf[p.at..p.at + p.len]);
    }

    /** Two copies, one after the other. */
    method CopyTwo(p: Piece, q: Piece) returns (out: Option<seq<char>>)
      ensures out.Some? <==> AllInside([p, q], buf.Length)
      ensures out.Some? ==> out.value == Delivered(buf[..], [p, q])
    {
      OnePiece(buf[..], p);
      OnePiece(buf[..], q);
      TwoPieces(buf[..], p, q);
      hide Delivered, AllInside;
      var first := CopyOne(p);
      if first.None? { return None; }
      var second := CopyOne(q);
      if second.None? { return None; }
      out := Some(first.value + second.value);
    }

    /** `read` of len bytes; without a result when a copy would leave the buffer. */
    method Read(len: int) returns (out: Option<seq<char>>)
      requires Valid()
      modifies `size, `start
      ensures out.Some? <==> 0 <= len && old(start) <= buflen
      ensures out.Some? ==> Valid() && size == (if old(size) < len then 0 else old(size) - len)
      ensures out.Some? ==> start == ReadTo(old(start), stop, buflen, len)
      ensures out.Some? ==> DeliveredAs(buf[..], ReadPieces(old(start), stop, buflen, len), out.value)
      ensures out.Some? ==> out.value == Firsts(Unread(buf[..], old(start), stop), len)
      ensures out.Some? ==> Advanced(old(start), stop, buflen, |out.value|, start)
    {
      InBounds(buf[..], stop, rollover, history);
      if 0 <= len && start <= buflen { ReadIsFirsts(buf[..], start, stop, len); }
      hide Shows, DeliveredAs, ReadPieces, AllInside, ReadTo, Firsts, Unread, Advanced;
      ReadInsideIff(start, stop, buflen, len);
      size := size - len;
      if size < 0 { size := 0; }
      var next;
      out, next := ReadCopies(len);
      start := next;
    }

    /** The copies of `read` and the start it will leave. */
    method ReadCopies(len: int) returns (out: Option<seq<char>>, next: int)
      ensures out.Some? <==> AllInside(ReadPieces(start, stop, buflen, len), buf.Length)
      ensures out.Some? ==> DeliveredAs(buf[..], ReadPieces(start, stop, buflen, len), out.value)
      ensures next == ReadTo(start, stop, buflen, len)
    {
      hide Delivered, AllInside;
      if stop > start {
        var most := if len < stop - start then len else stop - start;
        out := CopyOne(Piece(start, most));
        next := start + most;
      } else {
        var endlen := buflen - start;
        if endlen > len {
          out := CopyOne(Piece(start, len));
          next := start + len;
        } else {
          next := if len - endlen < stop then len - endlen else stop;
          out := CopyTwo(Piece(start, endlen), Piece(0, next));
        }
      }
    }

    /** `read` of everything unread. */
    method ReadRest() returns (out: Option<seq<char>>)
      requires Valid()
      modifies `size, `start
      ensures out.Some? <==> old(start) <= buflen
      ensures out.Some? ==> Valid() && size == 0 && start == stop
      ensures out.Some? ==> DeliveredAs(buf[..], RestPieces(old(start), stop, buflen), out.value)
      ensures out.Some? ==> out.value == Unread(buf[..], old(start), stop)
    {
      InBounds(buf[..], stop, rollover, history);
      if start <= buflen { RestIsUnread(buf[..], start, stop); }
      hide Shows, Delivered, AllInside;
      RestInsideIff(start, stop, buflen);
      size := 0;
      if stop > start {
        out := CopyOne(Piece(start, stop - start));
      } else {
        out := CopyTwo(Piece(start, buflen - start), Piece(0, stop));
      }
      start := stop;
    }

    /** What `readall` writes to the file. */
    method ReadAll() returns (out: seq<char>)
      requires Valid()
      modifies `start
      ensures Valid() && out == Lasts(history, buflen) && start == stop
    {
      out := [];
      if rollover { out := buf[stop..]; }
      out := out + buf[..stop];
      start := stop;
      assert out == Ring(buf[..], stop, rollover);
    }
  }

  // ----- Any use of the buffer -----

  datatype Op = Writes(b: seq<char>) | Reads(len: int) | ReadsRest | Flushes | ReadsAll

  /** The bytes written since the last flush. */
  function History(ops: seq<Op>): seq<char> {
    if ops == [] then []
    else
      var h := History(ops[..|ops| - 1]);
      match ops[|ops| - 1]
      case Writes(b) => h + b
      case Flushes => []
      case _ => h
  }

  /** What the calls of `readall` among the operations must show. */
  function Shown(ops: seq<Op>, buflen: nat): seq<seq<char>> {
    if ops == [] then []
    else
      Shown(ops[..|ops| - 1], buflen)
      + if ops[|ops| - 1].ReadsAll? then [Lasts(History(ops), buflen)] else []
  }

  /** Where start and stop are. */
  datatype Cursor = Cursor(start: int, stop: int)

  function Moved(c: Cursor, op: Op, buflen: nat): Cursor {
    match op
    case Writes(b) =>
      if b == [] then c
      else
        var stop := MovedStop(c.stop, buflen, |b|);
        Cursor(if |b| >= buflen then 0 else MovedStart(c.start, c.stop, stop), stop)
    case Reads(len) => Cursor(ReadTo(c.start, c.stop, buflen, len), c.stop)
    case ReadsRest => Cursor(c.stop, c.stop)
    case Flushes => Cursor(0, 0)
    case ReadsAll => Cursor(c.stop, c.stop)
  }

  function CursorAfter(ops: seq<Op>, buflen: nat): Cursor {
    if ops == [] then Cursor(0, 0) else Moved(CursorAfter(ops[..|ops| - 1], buflen), ops[|ops| - 1], buflen)
  }

  /** Operation i does not read outside the buffer. */
  predicate SafeAt(ops: seq<Op>, i: nat, buflen: nat)
    requires i < |ops|
  {
    var start := CursorAfter(ops[..i], buflen).start;
    (ops[i].Reads? ==> 0 <= ops[i].len && start <= buflen) && (ops[i].ReadsRest? ==> start <= buflen)
  }

  predicate Safe(ops: seq<Op>, buflen: nat) {
    forall i :: 0 <= i < |ops| ==> SafeAt(ops, i, buflen)
  }

  /** Three writes that leave start behind the end of a buffer of ten, so that the next read copies from outside it. */
  lemma ReadLeavesBuffer(a: seq<char>, b: seq<char>, c: seq<char>)
    requires |a| == |c| == 6 && |b| == 8
    ensures CursorAfter([Writes(a), Writes(b), Writes(c)], 10) == Cursor(11, 10)
    ensures !SafeAt([Writes(a), Writes(b), Writes(c), Reads(3)], 3, 10)
    ensures ReadPieces(11, 10, 10, 3)[0] == Piece(11, -1)
  {
    var w := [Writes(a), Writes(b), Writes(c)];
    assert w[..2] == [Writes(a), Writes(b)] && w[..2][..1] == [Writes(a)] && w[..2][..1][..0] == [];
    assert CursorAfter([Writes(a)], 10) == Cursor(0, 6);
    assert CursorAfter(w[..2], 10) == Cursor(5, 4);
    assert (w + [Reads(3)])[..3] == w && w + [Reads(3)] == [Writes(a), Writes(b), Writes(c), Reads(3)];
  }

  /**
   * Any operations, up to the first read that would leave the buffer: every `readall` shows the end
   * of the history, and the operations run to the end exactly when they are safe.
   */
  method Play(buflen: nat, ops: seq<Op>) returns (shown: seq<seq<char>>, n: nat)
    ensures n <= |ops| && (n == |ops| <==> Safe(ops, buflen))
    ensures forall i :: 0 <= i < n ==> SafeAt(ops, i, buflen)
    ensures n < |ops| ==> !SafeAt(ops, n, buflen)
    ensures shown == Shown(ops[..n], buflen)
  {
    hide Lasts, Shows, DeliveredAs, Moved;
    var c := new CircleBuf(buflen);
    shown, n := [], 0;
    while n < |ops|
      invariant n <= |ops| && fresh(c) && fresh(c.buf) && c.buflen == buflen && c.Valid()
      invariant c.history == History(ops[..n]) && shown == Shown(ops[..n], buflen)
      invariant Cursor(c.start, c.stop) == CursorAfter(ops[..n], buflen)
      invariant forall i :: 0 <= i < n ==> SafeAt(ops, i, buflen)
    {
      var done, out := PlayOne(c, ops[n], ops[..n]);
      if !done {
        assert !SafeAt(ops, n, buflen);
        return;
      }
      assert ops[..n + 1] == ops[..n] + [ops[n]];
      OneMore(ops[..n], ops[n], buflen);
      shown := shown + out;
      n := n + 1;
    }
    assert ops[..|ops|] == ops;
  }

  lemma OneMore(ops: seq<Op>, op: Op, buflen: nat)
    ensures CursorAfter(ops + [op], buflen) == Moved(CursorAfter(ops, buflen), op, buflen)
    ensures Shown(ops + [op], buflen)
            == Shown(ops, buflen) + if op.ReadsAll? then [Lasts(History(ops), buflen)] else []
    ensures History(ops + [op]) == if op.Writes? then History(ops) + op.b else if op.Flushes? then [] else History(ops)
  {
    assert (ops + [op])[..|ops|] == ops;
  }

  /** One operation; not done when it would read outside the buffer. */
  method PlayOne(c: CircleBuf, op: Op, ghost before: seq<Op>) returns (done: bool, out: seq<seq<char>>)
    requires c.Valid() && c.history == History(before) && c.buflen >= 0
    modifies c, c.buf
    ensures done <==>
      (op.Reads? ==> 0 <= op.len && old(c.start) <= c.buflen) && (op.ReadsRest? ==> old(c.start) <= c.buflen)
    ensures done ==> c.Valid() && c.history == History(before + [op])
    ensures done ==> Cursor(c.start, c.stop) == Moved(Cursor(old(c.start), old(c.stop)), op, c.buflen)
    ensures done ==> out == if op.ReadsAll? then [Lasts(History(before), c.buflen)] else []
  {
    hide Lasts, Shows, DeliveredAs, MovedStart, MovedStop, ReadTo;
    OneMore(before, op, c.buflen);
    done, out := true, [];
    match op {
      case Writes(b) =>
        c.Write(b, |b|);
        assert b[..|b|] == b;
      case Reads(len) =>
        var bytes := c.Read(len);
        done := bytes.Some?;
      case ReadsRest =>
        var bytes := c.ReadRest();
        done := bytes.Some?;
      case Flushes => c.Flush();
      case ReadsAll =>
        var all := c.ReadAll();
        out := [all];
    }
  }

  lemma OnePiece(buf: seq<char>, p: Piece)
    ensures AllInside([p], |buf|) <==> Inside(p, |buf|)
    ensures Inside(p, |buf|) ==> Delivered(buf, [p]) == Bytes(buf, p)
  {
    assert [p][0] == p && [p][..0] == [];
    if Inside(p, |buf|) { assert Delivered(buf, [p][..0]) == []; }
  }

  lemma TwoPieces(buf: seq<char>, p: Piece, q: Piece)
    ensures AllInside([p, q], |buf|) <==> Inside(p, |buf|) && Inside(q, |buf|)
    ensures Inside(p, |buf|) && Inside(q, |buf|) ==>
      Delivered(buf, [p, q]) == Bytes(buf, p) + Bytes(buf, q)
  {
    var both := [p, q];
    assert both[0] == p && both[1] == q && both[..1] == [p];
    OnePiece(buf, p);
  }

  lemma StoredNothing(buf: seq<char>, at: nat, s: seq<char>)
    requires at <= |buf|
    ensures Stored(buf, at, s[..0]) == buf
  {
  }

  lemma StoredStep(buf: seq<char>, at: nat, s: seq<char>, i: nat)
    requires at + |s| <= |buf| && i < |s|
    ensures Stored(buf, at, s[..i])[at + i := s[i]] == Stored(buf, at, s[..i + 1])
  {
  }

  lemma InBounds(buf: seq<char>, stop: nat, rollover: bool, history: seq<char>)
    requires Shows(buf, stop, rollover, history)
    ensures stop <= |buf|
  {
  }

  lemma CopyAll(buf: seq<char>, s: seq<char>)
    requires |s| == |buf|
    ensures Stored(buf, 0, s) == s
  {
  }
}
