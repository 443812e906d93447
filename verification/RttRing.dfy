/** SEGGER_RTT.c: the bytes of a ring between its two offsets. */
module RttRing {

  type Byte = b: int | 0 <= b < 256 witness 0

  /** SizeOfBuffer is at least 2, or nothing would ever fit. */
  predicate Offsets(buffer: seq<Byte>, rd: int, wr: int) {
    2 <= |buffer| && 0 <= rd < |buffer| && 0 <= wr < |buffer|
  }

  function Pending(buffer: seq<Byte>, rd: int, wr: int): (r: seq<Byte>)
    requires Offsets(buffer, rd, wr)
    ensures |r| < |buffer| && |r| == if rd <= wr then wr - rd else |buffer| - rd + wr
  {
    if rd <= wr then buffer[rd..wr] else buffer[rd..] + buffer[..wr]
  }

  /** The space the writer computes: one byte always stays unused. */
  function Free(size: int, rd: int, wr: int): int {
    if rd - wr - 1 < 0 then rd - wr - 1 + size else rd - wr - 1
  }

  lemma FreeIsRest(buffer: seq<Byte>, rd: int, wr: int)
    requires Offsets(buffer, rd, wr)
    ensures Free(|buffer|, rd, wr) == |buffer| - 1 - |Pending(buffer, rd, wr)| >= 0
  {
  }

  function Advanced(size: int, offset: int, n: int): int {
    if offset + n >= size then offset + n - size else offset + n
  }

  /** n bytes from rd on, around the end of the buffer. */
  function Around(buffer: seq<Byte>, rd: int, n: nat): (r: seq<Byte>)
    requires 0 <= rd < |buffer| && n <= |buffer|
    ensures |r| == n
  {
    if rd + n <= |buffer| then buffer[rd..rd + n] else buffer[rd..] + buffer[..rd + n - |buffer|]
  }

  /** What is read is the front of what is pending. */
  lemma ReadFront(buffer: seq<Byte>, rd: int, wr: int, n: nat)
    requires Offsets(buffer, rd, wr) && n <= |Pending(buffer, rd, wr)|
    ensures Around(buffer, rd, n) == Pending(buffer, rd, wr)[..n]
    ensures var rd' := Advanced(|buffer|, rd, n);
      Offsets(buffer, rd', wr) && Pending(buffer, rd', wr) == Pending(buffer, rd, wr)[n..]
  {
    var p := Pending(buffer, rd, wr);
    if rd <= wr {
      assert p[..n] == buffer[rd..rd + n] && p[n..] == buffer[rd + n..wr];
    } else {
      ReadAround(buffer[rd..], buffer[..wr], n);
      if rd + n < |buffer| {
        assert buffer[rd..][..n] == buffer[rd..rd + n] && buffer[rd..][n..] == buffer[rd + n..];
      } else {
        var m := rd + n - |buffer|;
        assert buffer[..wr][..m] == buffer[..m] && buffer[..wr][m..] == buffer[m..wr] &&
          buffer[rd..] + buffer[..0] == buffer[rd..];
      }
    }
  }

  lemma ReadAround(a: seq<Byte>, b: seq<Byte>, n: nat)
    requires n <= |a| + |b|
    ensures n < |a| ==> (a + b)[..n] == a[..n] && (a + b)[n..] == a[n..] + b
    ensures n >= |a| ==> (a + b)[..n] == a + b[..n - |a|] && (a + b)[n..] == b[n - |a|..]
  {
  }

  function Stored(buffer: seq<Byte>, at: int, chunk: seq<Byte>): (r: seq<Byte>)
    requires 0 <= at && at + |chunk| <= |buffer|
    ensures |r| == |buffer|
  {
    buffer[..at] + chunk + buffer[at + |chunk|..]
  }

  lemma StoredParts(buffer: seq<Byte>, at: int, chunk: seq<Byte>)
    requires 0 <= at && at + |chunk| <= |buffer|
    ensures var b := Stored(buffer, at, chunk);
      b[at..at + |chunk|] == chunk && b[..at] == buffer[..at] && b[at + |chunk|..] == buffer[at + |chunk|..]
  {
  }

  /** Copying into free space disturbs nothing that is pending. */
  lemma StoreDisturbsNothing(buffer: seq<Byte>, rd: int, wr: int, chunk: seq<Byte>)
    requires Offsets(buffer, rd, wr) && |chunk| <= Free(|buffer|, rd, wr) && wr + |chunk| <= |buffer|
    ensures Pending(Stored(buffer, wr, chunk), rd, wr) == Pending(buffer, rd, wr)
  {
    StoredParts(buffer, wr, chunk);
    var b, n := Stored(buffer, wr, chunk), |chunk|;
    hide Stored;
    if rd <= wr {
      assert b[rd..wr] == b[..wr][rd..];
      assert buffer[rd..wr] == buffer[..wr][rd..];
    } else {
      assert b[rd..] == b[wr + n..][rd - wr - n..];
      assert buffer[rd..] == buffer[wr + n..][rd - wr - n..];
    }
  }

  /** Moving the write offset over the bytes copied appends them. */
  lemma PublishAppends(buffer: seq<Byte>, rd: int, wr: int, n: nat)
    requires Offsets(buffer, rd, wr) && n <= Free(|buffer|, rd, wr) && wr + n <= |buffer|
    ensures Offsets(buffer, rd, Advanced(|buffer|, wr, n))
    ensures Pending(buffer, rd, Advanced(|buffer|, wr, n)) == Pending(buffer, rd, wr) + buffer[wr..wr + n]
  {
    if rd <= wr {
      assert buffer[rd..wr + n] == buffer[rd..wr] + buffer[wr..wr + n];
      assert wr + n == |buffer| ==> buffer[rd..] == buffer[rd..wr + n];
    } else {
      assert buffer[..wr + n] == buffer[..wr] + buffer[wr..wr + n];
      assert buffer[rd..] + buffer[..wr + n] == (buffer[rd..] + buffer[..wr]) + buffer[wr..wr + n];
    }
  }
}
