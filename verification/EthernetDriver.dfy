/** NETIF_lowLevelOutput (netif_ex.c) and ETH_lowLevelInput (ethernetif.c) on a ring of DescriptorRing.

    Output gathers the payloads of a pbuf chain into the buffers; Progress says how far it has
    come and how much of the frame's start a ring that is too small has lost. Input scatters
    what the buffers hold into a new chain; Taking says how far that has come. The loops are
    proved by moving these descriptions on by one chunk or one buffer, and DescriptorRing says
    what the buffers hold as bytes. */
module EthernetDriver {
  import opened Arithmetic
  import opened DescriptorRing

  datatype Err = ErrOk | ErrUse

  lemma FlattenStep(chunks: seq<seq<Byte>>, n: nat)
    requires n < |chunks|
    ensures Flatten(chunks[..n + 1]) == Flatten(chunks[..n]) + chunks[n]
  {
    assert chunks[..n + 1][..n] == chunks[..n];
  }

  lemma {:induction false} FlattenPrefix(chunks: seq<seq<Byte>>, n: nat)
    requires n <= |chunks|
    ensures Flatten(chunks[..n]) <= Flatten(chunks)
    decreases |chunks| - n
  {
    if n == |chunks| {
      assert chunks[..n] == chunks;
    } else {
      FlattenStep(chunks, n);
      FlattenPrefix(chunks, n + 1);
    }
  }

  /** Descriptor j of those a frame of this length wants: the first one always, another when the
      buffers before it cannot hold the frame. */
  predicate Wanted(j: nat, length: nat, size: nat) {
    j == 0 || length > j * size
  }

  class Ring {
    const size: nat
    var buffers: seq<seq<Byte>>
    var own: seq<bool>

    ghost predicate Valid()
      reads this
    {
      Buffers(buffers, size) && |own| == |buffers|
    }

    function Count(): nat
      reads this
    {
      |buffers|
    }

    constructor (count: nat, bufferSize: nat)
      requires count > 0 && bufferSize > 0
      ensures Valid() && Count() == count && size == bufferSize && own == seq(count, _ => false)
    {
      size := bufferSize;
      buffers := seq(count, _ => seq(bufferSize, _ => 0));
      own := seq(count, _ => false);
    }
  }

  /** Some descriptor the frame wants still belongs to the DMA. */
  ghost predicate Blocked(own: seq<bool>, first: nat, length: nat, size: nat)
    requires first < |own|
  {
    exists j: nat :: j < |own| && Wanted(j, length, size) && own[Walk(|own|, first, j)]
  }

  /** In ring terms: a frame that is not free to go meets a descriptor of the DMA at the first one, or
      at one that the buffers before it are too small to spare. */
  lemma BlockedIff(own: seq<bool>, first: nat, length: nat, size: nat)
    requires first < |own|
    ensures Blocked(own, first, length, size) <==>
      exists j: nat :: j < |own| && (j == 0 || j * size < length) && own[Walk(|own|, first, j)]
    ensures forall j: nat :: j < |own| ==>
      Walk(|own|, first, j) == if first + j < |own| then first + j else first + j - |own|
  {
  }

  /** The buffers of the descriptors that belong to the DMA are as they were. */
  ghost predicate DmaLeftAlone(own: seq<bool>, before: seq<seq<Byte>>, after: seq<seq<Byte>>) {
    |before| == |after| == |own| && forall e :: 0 <= e < |own| && own[e] ==> after[e] == before[e]
  }

  lemma PutLeavesDma(own: seq<bool>, before: seq<seq<Byte>>, after: seq<seq<Byte>>, d: nat, off: nat, chunk: seq<Byte>)
    requires DmaLeftAlone(own, before, after) && d < |own| && !own[d] && off + |chunk| <= |after[d]|
    ensures DmaLeftAlone(own, before, Put(after, d, off, chunk))
  {
    hide Put;
  }

  /** The descriptors looked at so far are free, and d is the last of them. */
  ghost predicate Looked(own: seq<bool>, first: nat, start: nat, full: nat, wrapped: bool)
    requires first < |own|
  {
    if wrapped then forall j: nat :: j < |own| ==> !own[Walk(|own|, first, j)]
    else start == first && full < |own| && forall j: nat :: j <= full ==> !own[Walk(|own|, first, j)]
  }

  lemma WrappedIsFree(own: seq<bool>, first: nat, d: nat)
    requires first < |own| && d < |own| && Looked(own, first, 0, 0, true)
    ensures !own[d]
  {
    assert Walk(|own|, first, if d >= first then d - first else d + |own| - first) == d;
  }

  /** The outcome of looking at the next descriptor. */
  lemma LookNext(own: seq<bool>, first: nat, start: nat, full: nat, wrapped: bool, length: nat, size: nat)
    requires first < |own| && start < |own| && full < |own| && Looked(own, first, start, full, wrapped) &&
      length > (full + 1) * size
    requires wrapped ==> full + 1 == |own|
    ensures var d := Next(|own|, Walk(|own|, start, full));
      if own[d] then Blocked(own, first, length, size)
      else if full + 1 < |own| then Looked(own, first, start, full + 1, wrapped)
      else Looked(own, first, Next(|own|, start), full, true)
  {
    var d := Next(|own|, Walk(|own|, start, full));
    if wrapped { WrappedIsFree(own, first, d); }
    else if full + 1 < |own| {
      assert Walk(|own|, first, full + 1) == d && Wanted(full + 1, length, size);
    } else {
      assert Walk(|own|, first, 0) == d;
    }
  }

  /** All that the whole frame wants has been looked at. */
  lemma LookedAtAll(own: seq<bool>, first: nat, start: nat, full: nat, wrapped: bool, length: nat, size: nat)
    requires first < |own| && Looked(own, first, start, full, wrapped) && length <= (full + 1) * size
    ensures !Blocked(own, first, length, size)
  {
    forall j: nat | j < |own| && Wanted(j, length, size) ensures !own[Walk(|own|, first, j)] {
      if !wrapped && j > full { MulOrder(full + 1, j, size); }
    }
  }

  /** How far a frame has been copied: data so far; its end is in full buffers from start on and the
      current one, what was before that is lost. */
  datatype Progress = Progress(start: nat, full: nat, lost: seq<Byte>, data: seq<Byte>)

  ghost predicate At(buffers: seq<seq<Byte>>, own: seq<bool>, size: nat, first: nat, d: nat, off: nat, g: Progress) {
    && |own| == |buffers| && Filling(buffers, size, first, g.start, g.full, off, g.lost, g.data)
    && d == Walk(|buffers|, g.start, g.full) && Looked(own, first, g.start, g.full, g.lost != [])
  }

  lemma AtBounds(buffers: seq<seq<Byte>>, own: seq<bool>, size: nat, first: nat, d: nat, off: nat, g: Progress)
    requires At(buffers, own, size, first, d, off, g)
    ensures |own| == |buffers| && first < |buffers| && d < |buffers| && off <= size && Buffers(buffers, size)
  {
  }

  lemma AtStart(buffers: seq<seq<Byte>>, own: seq<bool>, size: nat, first: nat)
    requires Buffers(buffers, size) && |own| == |buffers| && first < |buffers| && !own[first]
    ensures At(buffers, own, size, first, first, 0, Progress(first, 0, [], []))
  {
  }

  lemma FirstBlocks(own: seq<bool>, first: nat, length: nat, size: nat)
    requires first < |own| && own[first]
    ensures Blocked(own, first, length, size)
  {
    assert Walk(|own|, first, 0) == first && Wanted(0, length, size);
  }

  lemma AtChunk(buffers: seq<seq<Byte>>, own: seq<bool>, size: nat, first: nat, d: nat, off: nat, g: Progress,
                chunk: seq<Byte>)
    requires At(buffers, own, size, first, d, off, g) && off + |chunk| <= size && d < |buffers| && |buffers[d]| == size
    ensures At(Put(buffers, d, off, chunk), own, size, first, d, off + |chunk|, g.(data := g.data + chunk))
  {
    hide Filling, Looked;
    FillingBounds(buffers, size, first, g.start, g.full, off, g.lost, g.data);
    FillingChunk(buffers, size, first, g.start, g.full, off, g.lost, g.data, chunk);
    hide Put, Walk;
  }

  lemma FillingBounds(buffers: seq<seq<Byte>>, size: nat, first: nat, start: nat, full: nat, off: nat, lost: seq<Byte>,
                      data: seq<Byte>)
    requires Filling(buffers, size, first, start, full, off, lost, data)
    ensures Buffers(buffers, size) && first < |buffers| && start < |buffers| && full < |buffers| && off <= size
    ensures |data| == |lost| + full * size + off && (lost != [] ==> full + 1 == |buffers| && |lost| >= size) &&
      (lost == [] ==> start == first)
    ensures (full + 1) * size == full * size + size
  {
    BytesFromLength(buffers, size, start, full, off);
  }

  function Moved(buffers: seq<seq<Byte>>, g: Progress): Progress
    requires g.start < |buffers|
  {
    if g.full + 1 < |buffers| then g.(full := g.full + 1)
    else g.(start := Next(|buffers|, g.start), lost := g.lost + buffers[g.start])
  }

  /** The next descriptor: not free, and then the frame wants it, or the copying goes on there. */
  lemma AtNext(buffers: seq<seq<Byte>>, own: seq<bool>, size: nat, first: nat, d: nat, g: Progress, length: nat)
    requires At(buffers, own, size, first, d, size, g) && d < |buffers| && |own| == |buffers| && length > |g.data| &&
      first < |own|
    ensures own[Next(|buffers|, d)] ==> Blocked(own, first, length, size)
    ensures g.start < |buffers| && (!own[Next(|buffers|, d)] ==>
      At(buffers, own, size, first, Next(|buffers|, d), 0, Moved(buffers, g)))
  {
    hide Filling, Looked, Blocked, Wanted;
    FillingBounds(buffers, size, first, g.start, g.full, size, g.lost, g.data);
    FillingNext(buffers, size, first, g.start, g.full, g.lost, g.data);
    LookNext(own, first, g.start, g.full, g.lost != [], length, size);
  }

  lemma AtEnd(buffers: seq<seq<Byte>>, own: seq<bool>, size: nat, first: nat, d: nat, off: nat, g: Progress)
    requires At(buffers, own, size, first, d, off, g) && (g.lost != [] ==> off > 0)
    ensures first < |own| && !Blocked(own, first, |g.data|, size)
    ensures g.lost == [] <==> |g.data| <= |buffers| * size
  {
    hide Filling, Looked, Blocked, Wanted;
    FillingBounds(buffers, size, first, g.start, g.full, off, g.lost, g.data);
    LostIff(buffers, size, first, g.start, g.full, off, g.lost, g.data);
    if g.lost == [] {
      LookedAtAll(own, first, g.start, g.full, false, |g.data|, size);
    } else {
      AllFree(own, first, g.start, g.full, |g.data|, size);
    }
  }

  lemma AllFree(own: seq<bool>, first: nat, start: nat, full: nat, length: nat, size: nat)
    requires first < |own| && Looked(own, first, start, full, true)
    ensures !Blocked(own, first, length, size)
  {
  }

  /** The copying of one pbuf. */
  method CopyPbuf(ring: Ring, d0: nat, off0: nat, payload: seq<Byte>, ghost first: nat, ghost g0: Progress,
                  ghost length: nat)
    returns (err: Err, d: nat, bufferOffset: nat, ghost g: Progress)
    requires At(ring.buffers, ring.own, ring.size, first, d0, off0, g0) && |g0.data| + |payload| <= length &&
      (g0.lost != [] ==> off0 > 0)
    modifies ring`buffers
    ensures |ring.buffers| == |old(ring.buffers)| && first < |ring.own|
    ensures err == ErrUse ==> ring.Valid() && Blocked(ring.own, first, length, ring.size)
    ensures err == ErrOk ==>
      At(ring.buffers, ring.own, ring.size, first, d, bufferOffset, g) && g.data == g0.data + payload
    ensures err == ErrOk && g.lost != [] ==> bufferOffset > 0
    ensures DmaLeftAlone(ring.own, old(ring.buffers), ring.buffers)
  {
    hide At, Blocked, Walk, Next, Put, Moved, DmaLeftAlone;
    d, bufferOffset, g, err := d0, off0, g0, ErrOk;
    AtFree(ring.buffers, ring.own, ring.size, first, d, bufferOffset, g);
    var bytesLeft: nat, payloadOffset: nat := |payload|, 0;
    AtBounds(ring.buffers, ring.own, ring.size, first, d, bufferOffset, g);
    NothingPut(ring.own, ring.buffers);
    assert g0.data + payload[..0] == g0.data;
    while bytesLeft + bufferOffset > ring.size
      invariant At(ring.buffers, ring.own, ring.size, first, d, bufferOffset, g)
      invariant |ring.buffers| == |old(ring.buffers)| && d < |ring.buffers| && bufferOffset <= ring.size &&
        ring.size > 0 && d < |ring.own|
      invariant DmaLeftAlone(ring.own, old(ring.buffers), ring.buffers) && !ring.own[d]
      invariant payloadOffset + bytesLeft == |payload| && g.data == g0.data + payload[..payloadOffset]
      invariant g.lost != [] ==> bufferOffset > 0 || bytesLeft > 0
      decreases bytesLeft + bufferOffset
    {
      AtBounds(ring.buffers, ring.own, ring.size, first, d, bufferOffset, g);
      var n := ring.size - bufferOffset;
      ghost var chunk := payload[payloadOffset..payloadOffset + n];
      AtChunk(ring.buffers, ring.own, ring.size, first, d, bufferOffset, g, chunk);
      PutLeavesDma(ring.own, old(ring.buffers), ring.buffers, d, bufferOffset, chunk);
      ring.buffers := Put(ring.buffers, d, bufferOffset, payload[payloadOffset..payloadOffset + n]);
      assert (g0.data + payload[..payloadOffset]) + chunk == g0.data + payload[..payloadOffset + n];
      g := g.(data := g.data + chunk);
      AtNext(ring.buffers, ring.own, ring.size, first, d, g, length);
      d := Next(|ring.buffers|, d);
      if ring.own[d] { return ErrUse, d, bufferOffset, g; }
      bytesLeft := bytesLeft - n;
      payloadOffset := payloadOffset + n;
      bufferOffset := 0;
      MovedData(ring.buffers, g);
      g := Moved(ring.buffers, g);
    }
    AtBounds(ring.buffers, ring.own, ring.size, first, d, bufferOffset, g);
    ghost var rest := payload[payloadOffset..];
    AtChunk(ring.buffers, ring.own, ring.size, first, d, bufferOffset, g, rest);
    PutLeavesDma(ring.own, old(ring.buffers), ring.buffers, d, bufferOffset, rest);
    ring.buffers := Put(ring.buffers, d, bufferOffset, payload[payloadOffset..]);
    assert (g0.data + payload[..payloadOffset]) + rest == g0.data + payload;
    bufferOffset := bufferOffset + bytesLeft;
    g := g.(data := g.data + rest);
  }

  lemma NothingPut(own: seq<bool>, buffers: seq<seq<Byte>>)
    requires |own| == |buffers|
    ensures DmaLeftAlone(own, buffers, buffers)
  {
  }

  lemma LeftAloneTrans(own: seq<bool>, a: seq<seq<Byte>>, b: seq<seq<Byte>>, c: seq<seq<Byte>>)
    requires DmaLeftAlone(own, a, b) && DmaLeftAlone(own, b, c)
    ensures DmaLeftAlone(own, a, c)
  {
  }

  lemma MovedData(buffers: seq<seq<Byte>>, g: Progress)
    requires g.start < |buffers|
    ensures Moved(buffers, g).data == g.data
  {
  }

  /** NETIF_lowLevelOutput: gathers a pbuf chain into the buffers from the current transmit descriptor
      on. It fails exactly when a descriptor the frame wants is not free; otherwise the length it
      hands to ETH_TransmitFrame is the frame's, and the ring holds the end of the frame: all
      of it exactly when the ring is big enough. */
  method LowLevelOutput(ring: Ring, first: nat, pbufs: seq<seq<Byte>>) returns (err: Err, frameLength: nat,
                        ghost g: Progress, ghost off: nat)
    requires ring.Valid() && first < ring.Count()
    modifies ring`buffers
    ensures ring.Valid() && ring.Count() == old(ring.Count())
    ensures err == ErrUse <==> pbufs != [] && Blocked(ring.own, first, |Flatten(pbufs)|, ring.size)
    ensures err == ErrOk ==> frameLength == |Flatten(pbufs)| && g.data == Flatten(pbufs)
    ensures err == ErrOk ==> Filling(ring.buffers, ring.size, first, g.start, g.full, off, g.lost, g.data)
    ensures err == ErrOk ==> (g.lost == [] <==> |Flatten(pbufs)| <= ring.Count() * ring.size)
    ensures forall e :: 0 <= e < |ring.own| && ring.own[e] ==> ring.buffers[e] == old(ring.buffers)[e]
  {
    hide At, Blocked, Walk, Next, Filling;
    g, off, frameLength := Progress(first, 0, [], []), 0, 0;
    EmptyFrame(ring.buffers, ring.size, first);
    var d: nat, bufferOffset: nat, q := first, 0, 0;
    while q < |pbufs|
      invariant q <= |pbufs| && ring.Valid() && |ring.buffers| == old(|ring.buffers|) && d < |ring.buffers|
      invariant if q == 0 then ring.buffers == old(ring.buffers) && d == first && bufferOffset == 0 &&
        g == Progress(first, 0, [], [])
                else At(ring.buffers, ring.own, ring.size, first, d, bufferOffset, g)
      invariant g.data == Flatten(pbufs[..q]) && frameLength == |g.data| && (g.lost != [] ==> bufferOffset > 0)
      invariant DmaLeftAlone(ring.own, old(ring.buffers), ring.buffers)
    {
      if q > 0 { AtFree(ring.buffers, ring.own, ring.size, first, d, bufferOffset, g); }
      if ring.own[d] {
        FirstBlocks(ring.own, first, |Flatten(pbufs)|, ring.size);
        return ErrUse, frameLength, g, off;
      }
      if q == 0 { AtStart(ring.buffers, ring.own, ring.size, first); }
      FlattenStep(pbufs, q);
      FlattenPrefix(pbufs, q + 1);
      ghost var before := ring.buffers;
      err, d, bufferOffset, g := CopyPbuf(ring, d, bufferOffset, pbufs[q], first, g, |Flatten(pbufs)|);
      LeftAloneTrans(ring.own, old(ring.buffers), before, ring.buffers);
      if err == ErrUse { return; }
      AtBounds(ring.buffers, ring.own, ring.size, first, d, bufferOffset, g);
      frameLength := frameLength + |pbufs[q]|;
      q := q + 1;
    }
    assert pbufs[..q] == pbufs;
    err, off := ErrOk, bufferOffset;
    if pbufs != [] {
      AtEnd(ring.buffers, ring.own, ring.size, first, d, off, g);
      AtFills(ring.buffers, ring.own, ring.size, first, d, off, g);
    }
  }

  lemma AtFree(buffers: seq<seq<Byte>>, own: seq<bool>, size: nat, first: nat, d: nat, off: nat, g: Progress)
    requires At(buffers, own, size, first, d, off, g)
    ensures d < |own| && !own[d]
  {
    if g.lost != [] { WrappedIsFree(own, first, d); }
  }

  lemma EmptyFrame(buffers: seq<seq<Byte>>, size: nat, first: nat)
    requires Buffers(buffers, size) && first < |buffers|
    ensures Filling(buffers, size, first, first, 0, 0, [], []) && 0 <= |buffers| * size
  {
  }

  lemma AtFills(buffers: seq<seq<Byte>>, own: seq<bool>, size: nat, first: nat, d: nat, off: nat, g: Progress)
    requires At(buffers, own, size, first, d, off, g)
    ensures Filling(buffers, size, first, g.start, g.full, off, g.lost, g.data)
  {
  }

  // ----- receiving

  function Sum(lens: seq<nat>): nat {
    if lens == [] then 0 else Sum(lens[..|lens| - 1]) + lens[|lens| - 1]
  }

  /** Shorter stretches of the ring from the same descriptor are prefixes of longer ones. */
  lemma {:induction false} ShorterIsPrefix(buffers: seq<seq<Byte>>, size: nat, d: nat, j: nat, o: nat, full: nat,
                                           off: nat)
    requires Buffers(buffers, size) && d < |buffers| && o <= size && off <= size
    requires |BytesFrom(buffers, d, j, o)| <= |BytesFrom(buffers, d, full, off)|
    ensures BytesFrom(buffers, d, j, o) <= BytesFrom(buffers, d, full, off)
    decreases j
  {
    if j == 0 {
      if full > 0 { assert buffers[d][..o] <= buffers[d]; }
    } else if full > 0 {
      ShorterIsPrefix(buffers, size, Next(|buffers|, d), j - 1, o, full - 1, off);
    } else {
      assert |BytesFrom(buffers, d, j, o)| >= |buffers[d]|;
    }
  }

  /** Taking n bytes of the buffer after full others. */
  lemma {:induction false} TakeMore(buffers: seq<seq<Byte>>, size: nat, d: nat, full: nat, off: nat, n: nat)
    requires Buffers(buffers, size) && d < |buffers| && full < |buffers| && off + n <= size
    ensures BytesFrom(buffers, d, full, off + n) ==
      BytesFrom(buffers, d, full, off) + buffers[Walk(|buffers|, d, full)][off..off + n]
    decreases full
  {
    if full == 0 {
      assert buffers[d][..off + n] == buffers[d][..off] + buffers[d][off..off + n];
    } else {
      TakeMore(buffers, size, Next(|buffers|, d), full - 1, off, n);
      var rest, chunk := BytesFrom(buffers, Next(|buffers|, d), full - 1, off),
        buffers[Walk(|buffers|, d, full)][off..off + n];
      assert buffers[d] + (rest + chunk) == (buffers[d] + rest) + chunk;
    }
  }

  /** How far a frame has been read: all that was taken so far, and d is where to go on. */
  ghost predicate Taking(buffers: seq<seq<Byte>>, size: nat, first: nat, d: nat, full: nat, off: nat, data: seq<Byte>) {
    && Buffers(buffers, size) && first < |buffers| && full < |buffers| && off <= size
    && d == Walk(|buffers|, first, full) && data == BytesFrom(buffers, first, full, off)
  }

  lemma TakingStart(buffers: seq<seq<Byte>>, size: nat, first: nat)
    requires Buffers(buffers, size) && first < |buffers|
    ensures Taking(buffers, size, first, first, 0, 0, [])
  {
  }

  lemma TakingChunk(buffers: seq<seq<Byte>>, size: nat, first: nat, d: nat, full: nat, off: nat, data: seq<Byte>,
                    n: nat)
    requires Taking(buffers, size, first, d, full, off, data) && off + n <= size
    ensures d < |buffers| && |buffers[d]| == size &&
      Taking(buffers, size, first, d, full, off + n, data + buffers[d][off..off + n])
  {
    TakeMore(buffers, size, first, full, off, n);
    hide BytesFrom;
  }

  lemma TakingNext(buffers: seq<seq<Byte>>, size: nat, first: nat, d: nat, full: nat, data: seq<Byte>, length: nat)
    requires Taking(buffers, size, first, d, full, size, data) && |data| < length <= |buffers| * size
    ensures d < |buffers| && Taking(buffers, size, first, Next(|buffers|, d), full + 1, 0, data)
  {
    FullOneMore(buffers, size, first, full);
    BytesFromLength(buffers, size, first, full, size);
    MulOrder(|buffers|, full + 1, size);
    assert (full + 1) * size == full * size + size;
    hide BytesFrom;
  }

  lemma TakingBounds(buffers: seq<seq<Byte>>, size: nat, first: nat, d: nat, full: nat, off: nat, data: seq<Byte>)
    requires Taking(buffers, size, first, d, full, off, data)
    ensures Buffers(buffers, size) && d < |buffers| && |buffers[d]| == size && off <= size
  {
  }

  /** The copying into one pbuf of the chain. */
  method FillPbuf(ring: Ring, first: nat, d0: nat, off0: nat, len: nat, ghost full0: nat, ghost data0: seq<Byte>,
                  ghost length: nat)
    returns (payload: seq<Byte>, d: nat, bufferOffset: nat, ghost full: nat)
    requires Taking(ring.buffers, ring.size, first, d0, full0, off0, data0)
    requires |data0| + len <= length <= |ring.buffers| * ring.size
    ensures |payload| == len && Taking(ring.buffers, ring.size, first, d, full, bufferOffset, data0 + payload)
  {
    hide Taking, Next, Walk;
    d, bufferOffset, full, payload := d0, off0, full0, [];
    var bytesLeft: nat := len;
    TakingBounds(ring.buffers, ring.size, first, d, full, bufferOffset, data0);
    assert data0 + [] == data0;
    while bytesLeft + bufferOffset > ring.size
      invariant Taking(ring.buffers, ring.size, first, d, full, bufferOffset, data0 + payload) &&
        |payload| + bytesLeft == len
      invariant d < |ring.buffers| && |ring.buffers[d]| == ring.size && bufferOffset <= ring.size
      decreases bytesLeft + bufferOffset
    {
      var n := ring.size - bufferOffset;
      TakingChunk(ring.buffers, ring.size, first, d, full, bufferOffset, data0 + payload, n);
      assert (data0 + payload) + ring.buffers[d][bufferOffset..bufferOffset + n] ==
        data0 + (payload + ring.buffers[d][bufferOffset..bufferOffset + n]);
      payload := payload + ring.buffers[d][bufferOffset..bufferOffset + n];
      TakingNext(ring.buffers, ring.size, first, d, full, data0 + payload, length);
      d := Next(|ring.buffers|, d);
      bytesLeft := bytesLeft - n;
      bufferOffset, full := 0, full + 1;
      TakingBounds(ring.buffers, ring.size, first, d, full, bufferOffset, data0 + payload);
    }
    TakingChunk(ring.buffers, ring.size, first, d, full, bufferOffset, data0 + payload, bytesLeft);
    assert (data0 + payload) + ring.buffers[d][bufferOffset..bufferOffset + bytesLeft] ==
      data0 + (payload + ring.buffers[d][bufferOffset..bufferOffset + bytesLeft]);
    payload := payload + ring.buffers[d][bufferOffset..bufferOffset + bytesLeft];
    bufferOffset := bufferOffset + bytesLeft;
  }

  /** Setting the own bits of segCount descriptors from the first on. */
  method ReturnDescriptors(ring: Ring, first: nat, segCount: nat)
    requires ring.Valid() && first < ring.Count() && segCount <= ring.Count()
    modifies ring`own
    ensures ring.Valid()
    ensures forall k: nat :: k < segCount ==> ring.own[Walk(ring.Count(), first, k)]
    ensures forall e ::
      0 <= e < ring.Count() && (forall k: nat :: k < segCount ==> Walk(ring.Count(), first, k) != e) ==>
      ring.own[e] == old(ring.own[e])
  {
    var d, i := first, 0;
    while i < segCount
      invariant i <= segCount && |ring.own| == ring.Count()
      invariant if i < ring.Count() then d == Walk(ring.Count(), first, i) else d == first
      invariant forall k: nat :: k < i ==> ring.own[Walk(ring.Count(), first, k)]
      invariant forall e :: 0 <= e < ring.Count() && (forall k: nat :: k < i ==> Walk(ring.Count(), first, k) != e) ==>
        ring.own[e] == old(ring.own[e])
    {
      ring.own := ring.own[d := true];
      d := Next(ring.Count(), d);
      i := i + 1;
    }
  }

  datatype Received = NoMemory | Chain(payloads: seq<seq<Byte>>)

  /** ETH_lowLevelInput: scatters the frame in the buffers from the first descriptor on into the
      pbufs of the chain pbuf_alloc gave (none when there was no memory), and returns all segCount
      descriptors to the DMA in either case. */
  method LowLevelInput(ring: Ring, first: nat, segCount: nat, lens: seq<nat>, hasMemory: bool, ghost frame: seq<Byte>,
                       ghost full: nat, ghost off: nat)
    returns (r: Received)
    requires ring.Valid() && first < ring.Count() && segCount <= ring.Count()
    requires full < ring.Count() && off <= ring.size && frame == BytesFrom(ring.buffers, first, full, off) &&
      Sum(lens) == |frame|
    modifies ring`own
    ensures ring.Valid()
    ensures r.Chain? <==> hasMemory
    ensures r.Chain? ==> |r.payloads| == |lens| && Flatten(r.payloads) == frame && forall i :: 0 <= i < |lens| ==>
      |r.payloads[i]| == lens[i]
    ensures forall k: nat :: k < segCount ==> ring.own[Walk(ring.Count(), first, k)]
    ensures forall e ::
      0 <= e < ring.Count() && (forall k: nat :: k < segCount ==> Walk(ring.Count(), first, k) != e) ==>
      ring.own[e] == old(ring.own[e])
  {
    r := NoMemory;
    if hasMemory {
      var payloads := Scatter(ring, first, lens, frame, full, off);
      r := Chain(payloads);
    }
    hide BytesFrom, Buffers;
    ReturnDescriptors(ring, first, segCount);
  }

  method Scatter(ring: Ring, first: nat, lens: seq<nat>, ghost frame: seq<Byte>, ghost full: nat,
                 ghost off: nat) returns (payloads: seq<seq<Byte>>)
    requires ring.Valid() && first < ring.Count()
    requires full < ring.Count() && off <= ring.size && frame == BytesFrom(ring.buffers, first, full, off) &&
      Sum(lens) == |frame|
    ensures |payloads| == |lens| && Flatten(payloads) == frame && forall i :: 0 <= i < |lens| ==>
      |payloads[i]| == lens[i]
  {
    FrameFits(ring.buffers, ring.size, first, full, off);
    TakingStart(ring.buffers, ring.size, first);
    hide BytesFrom, Buffers, Taking;
    var d: nat, bufferOffset: nat, q := first, 0, 0;
    payloads := [];
    ghost var j: nat := 0;
    while q < |lens|
      invariant q <= |lens| && |payloads| == q && (forall i :: 0 <= i < q ==> |payloads[i]| == lens[i])
      invariant Taking(ring.buffers, ring.size, first, d, j, bufferOffset, Flatten(payloads)) &&
        |Flatten(payloads)| == Sum(lens[..q])
    {
      SumPrefix(lens, q);
      var payload;
      payload, d, bufferOffset, j := FillPbuf(ring, first, d, bufferOffset, lens[q], j, Flatten(payloads), |frame|);
      assert (payloads + [payload])[..q] == payloads;
      payloads := payloads + [payload];
      q := q + 1;
    }
    assert lens[..q] == lens;
    TakenAll(ring.buffers, ring.size, first, d, j, bufferOffset, Flatten(payloads), full, off);
  }

  lemma FrameFits(buffers: seq<seq<Byte>>, size: nat, first: nat, full: nat, off: nat)
    requires Buffers(buffers, size) && first < |buffers| && full < |buffers| && off <= size
    ensures |BytesFrom(buffers, first, full, off)| <= |buffers| * size
  {
    BytesFromLength(buffers, size, first, full, off);
    MulOrder(full + 1, |buffers|, size);
    assert (full + 1) * size == full * size + size;
  }

  lemma TakenAll(buffers: seq<seq<Byte>>, size: nat, first: nat, d: nat, j: nat, o: nat, data: seq<Byte>, full: nat,
                 off: nat)
    requires Taking(buffers, size, first, d, j, o, data) && full < |buffers| && off <= size
    requires |data| == |BytesFrom(buffers, first, full, off)|
    ensures data == BytesFrom(buffers, first, full, off)
  {
    ShorterIsPrefix(buffers, size, first, j, o, full, off);
  }

  lemma {:induction false} SumPrefix(lens: seq<nat>, q: nat)
    requires q < |lens|
    ensures Sum(lens[..q + 1]) == Sum(lens[..q]) + lens[q] <= Sum(lens)
    decreases |lens| - q
  {
    assert lens[..q + 1][..q] == lens[..q];
    if q + 1 < |lens| { SumPrefix(lens, q + 1); } else { assert lens[..q + 1] == lens; }
  }

  /** Gather, then scatter: for any split of a frame into pbufs on either side, a frame that was
      sent on a ring big enough for it, with its descriptors free, is received unchanged. */
  method GatherThenScatter(ring: Ring, first: nat, pbufs: seq<seq<Byte>>, lens: seq<nat>,
                           segCount: nat) returns (r: Received)
    requires ring.Valid() && first < ring.Count() && segCount <= ring.Count()
    requires !Blocked(ring.own, first, |Flatten(pbufs)|, ring.size)
    requires |Flatten(pbufs)| <= ring.Count() * ring.size && Sum(lens) == |Flatten(pbufs)|
    modifies ring
    ensures r.Chain? && |r.payloads| == |lens| && Flatten(r.payloads) == Flatten(pbufs)
    ensures forall i :: 0 <= i < |lens| ==> |r.payloads[i]| == lens[i]
    ensures ring.Valid() && ring.Count() == old(ring.Count())
    ensures forall k: nat :: k < segCount ==> ring.own[Walk(ring.Count(), first, k)]
    ensures forall e ::
      0 <= e < ring.Count() && (forall k: nat :: k < segCount ==> Walk(ring.Count(), first, k) != e) ==>
      ring.own[e] == old(ring.own[e])
  {
    hide BytesFrom, Flatten, Blocked, Sum;
    var err, frameLength, g, off := LowLevelOutput(ring, first, pbufs);
    assert [] + BytesFrom(ring.buffers, first, g.full, off) == BytesFrom(ring.buffers, first, g.full, off);
    r := LowLevelInput(ring, first, segCount, lens, true, Flatten(pbufs), g.full, off);
  }
}
