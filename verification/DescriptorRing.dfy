/** The DMA descriptor rings of the Ethernet driver: buffers of equal size, visited in a circle. */
module DescriptorRing {
  import opened Arithmetic

  type Byte = b: int | 0 <= b < 256 witness 0

  function Flatten(chunks: seq<seq<Byte>>): seq<Byte> {
    if chunks == [] then [] else Flatten(chunks[..|chunks| - 1]) + chunks[|chunks| - 1]
  }

  /** Buffer2NextDescAddr. */
  function Next(count: nat, d: nat): (r: nat)
    requires d < count
    ensures r < count
  {
    if d + 1 == count then 0 else d + 1
  }

  /** The descriptor k steps after d. */
  function Walk(count: nat, d: nat, k: nat): (r: nat)
    requires d < count && k < count
    ensures r < count
    ensures k + 1 < count ==> Next(count, r) == if d + (k + 1) < count then d + (k + 1) else d + (k + 1) - count
    ensures r == d ==> k == 0
    ensures k > 0 ==> r == (var e := Next(count, d); if e + (k - 1) < count then e + (k - 1) else e + (k - 1) - count)
    ensures k + 1 == count ==> Next(count, r) == d
  {
    if d + k < count then d + k else d + k - count
  }

  predicate Buffers(buffers: seq<seq<Byte>>, size: nat) {
    0 < size && 0 < |buffers| && forall d :: 0 <= d < |buffers| ==> |buffers[d]| == size
  }

  /** The bytes of full buffers from d on, and the first off bytes of the one after them. */
  function BytesFrom(buffers: seq<seq<Byte>>, d: nat, full: nat, off: nat): (r: seq<Byte>)
    requires d < |buffers| && forall e :: 0 <= e < |buffers| ==> off <= |buffers[e]|
    decreases full
  {
    if full == 0 then buffers[d][..off] else buffers[d] + BytesFrom(buffers, Next(|buffers|, d), full - 1, off)
  }

  lemma {:induction false} BytesFromLength(buffers: seq<seq<Byte>>, size: nat, d: nat, full: nat, off: nat)
    requires Buffers(buffers, size) && d < |buffers| && off <= size
    ensures |BytesFrom(buffers, d, full, off)| == full * size + off
    decreases full
  {
    if full > 0 {
      BytesFromLength(buffers, size, Next(|buffers|, d), full - 1, off);
      assert full * size == (full - 1) * size + size;
    }
  }

  /** memcpy into one buffer. */
  function Put(buffers: seq<seq<Byte>>, d: nat, off: nat, chunk: seq<Byte>): (r: seq<seq<Byte>>)
    requires d < |buffers| && off + |chunk| <= |buffers[d]|
    ensures |r| == |buffers| && |r[d]| == |buffers[d]| && forall e :: 0 <= e < |r| && e != d ==> r[e] == buffers[e]
  {
    buffers[d := buffers[d][..off] + chunk + buffers[d][off + |chunk|..]]
  }

  /** Writing on in the buffer after full others, which are less than the whole ring. */
  lemma {:induction false} PutAppends(buffers: seq<seq<Byte>>, size: nat, d: nat, full: nat, off: nat, chunk: seq<Byte>)
    requires Buffers(buffers, size) && d < |buffers| && full < |buffers| && off + |chunk| <= size
    ensures var r := Put(buffers, Walk(|buffers|, d, full), off, chunk);
      Buffers(r, size) && BytesFrom(r, d, full, off + |chunk|) == BytesFrom(buffers, d, full, off) + chunk
    decreases full
  {
    var r := Put(buffers, Walk(|buffers|, d, full), off, chunk);
    if full == 0 {
      assert r[d][..off + |chunk|] == buffers[d][..off] + chunk;
    } else {
      PutAppends(buffers, size, Next(|buffers|, d), full - 1, off, chunk);
      assert r[d] == buffers[d];
    }
  }

  /** A buffer filled to the end is one more full buffer. */
  lemma {:induction false} FullOneMore(buffers: seq<seq<Byte>>, size: nat, d: nat, full: nat)
    requires Buffers(buffers, size) && d < |buffers|
    ensures BytesFrom(buffers, d, full, size) == BytesFrom(buffers, d, full + 1, 0)
    decreases full
  {
    var next := Next(|buffers|, d);
    if full == 0 {
      assert buffers[d][..size] == buffers[d] && BytesFrom(buffers, next, 0, 0) == [];
    } else {
      FullOneMore(buffers, size, next, full - 1);
    }
  }

  // ----- sending

  /** Where the copying loops are: from descriptor start, full buffers and off bytes hold the end
      of data; what came before is lost, because the ring was full. */
  ghost predicate Filling(buffers: seq<seq<Byte>>, size: nat, first: nat, start: nat, full: nat, off: nat,
                          lost: seq<Byte>, data: seq<Byte>) {
    && Buffers(buffers, size) && first < |buffers| && start < |buffers| && full < |buffers| && off <= size
    && data == lost + BytesFrom(buffers, start, full, off)
    && (if lost == [] then start == first else full + 1 == |buffers| && |lost| >= size)
  }

  lemma FillingChunk(buffers: seq<seq<Byte>>, size: nat, first: nat, start: nat, full: nat, off: nat, lost: seq<Byte>,
                     data: seq<Byte>,
                     chunk: seq<Byte>)
    requires Filling(buffers, size, first, start, full, off, lost, data) && off + |chunk| <= size
    ensures Filling(Put(buffers, Walk(|buffers|, start, full), off, chunk), size, first, start, full, off + |chunk|,
      lost, data + chunk)
  {
    PutAppends(buffers, size, start, full, off, chunk);
    var r := Put(buffers, Walk(|buffers|, start, full), off, chunk);
    hide BytesFrom, Put, Walk;
    assert (lost + BytesFrom(buffers, start, full, off)) + chunk ==
      lost + (BytesFrom(buffers, start, full, off) + chunk);
  }

  /** Going on to the next descriptor from a buffer that is full. */
  lemma FillingNext(buffers: seq<seq<Byte>>, size: nat, first: nat, start: nat, full: nat, lost: seq<Byte>,
                    data: seq<Byte>)
    requires Filling(buffers, size, first, start, full, size, lost, data)
    ensures full + 1 < |buffers| ==> Filling(buffers, size, first, start, full + 1, 0, lost, data)
    ensures full + 1 == |buffers| ==> Filling(buffers, size, first, Next(|buffers|, start), full, 0,
      lost + buffers[start], data)
  {
    FullOneMore(buffers, size, start, full);
    hide Next;
    var rest := BytesFrom(buffers, Next(|buffers|, start), full, 0);
    assert lost + (buffers[start] + rest) == (lost + buffers[start]) + rest;
  }

  /** Nothing is lost exactly when the ring is big enough for the data. */
  lemma LostIff(buffers: seq<seq<Byte>>, size: nat, first: nat, start: nat, full: nat, off: nat, lost: seq<Byte>,
                data: seq<Byte>)
    requires Filling(buffers, size, first, start, full, off, lost, data) && (lost != [] ==> off > 0)
    ensures lost == [] <==> |data| <= |buffers| * size
  {
    BytesFromLength(buffers, size, start, full, off);
    MulOrder(full + 1, |buffers|, size);
    assert (full + 1) * size == full * size + size;
    hide BytesFrom;
  }
}
