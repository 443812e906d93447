/** SEGGER_RTT.c: one buffer of each direction as an object. Between two accesses of a method to the
    offset that the host moves, the host may have moved it. */
module RttObject {
  import opened RttRing
  import R = RttRuns

  /** The ring holds what was accepted and not yet received. */
  ghost predicate Holds(buffer: seq<Byte>, rd: int, wr: int, received: seq<Byte>, accepted: seq<Byte>) {
    Offsets(buffer, rd, wr) && received + Pending(buffer, rd, wr) == accepted
  }

  lemma HostMoves(buffer: seq<Byte>, rd: int, wr: int, n: nat, received: seq<Byte>, accepted: seq<Byte>)
    requires Holds(buffer, rd, wr, received, accepted) && n <= |Pending(buffer, rd, wr)|
    ensures var rd' := Advanced(|buffer|, rd, n);
      && Holds(buffer, rd', wr, received + Around(buffer, rd, n), accepted)
      && Free(|buffer|, rd', wr) == Free(|buffer|, rd, wr) + n
  {
    hide Pending, Around, Advanced, Free;
    var p := Pending(buffer, rd, wr);
    ReadFront(buffer, rd, wr, n);
    FreeIsRest(buffer, rd, wr);
    FreeIsRest(buffer, Advanced(|buffer|, rd, n), wr);
    assert received + p == (received + p[..n]) + p[n..];
  }

  lemma PassAppends(buffer: seq<Byte>, rd: int, wr: int, chunk: seq<Byte>, received: seq<Byte>, accepted: seq<Byte>)
    requires Holds(buffer, rd, wr, received, accepted) && |chunk| <= Free(|buffer|, rd, wr) && wr + |chunk| <= |buffer|
    ensures var b, wr' := Stored(buffer, wr, chunk), Advanced(|buffer|, wr, |chunk|);
      Holds(b, rd, wr', received, accepted + chunk) && Free(|b|, rd, wr') == Free(|b|, rd, wr) - |chunk|
  {
    hide Pending, Stored, Free, Advanced;
    var b, wr', p := Stored(buffer, wr, chunk), Advanced(|buffer|, wr, |chunk|), Pending(buffer, rd, wr);
    StoreDisturbsNothing(buffer, rd, wr, chunk);
    StoredParts(buffer, wr, chunk);
    PublishAppends(b, rd, wr, |chunk|);
    FreeIsRest(b, rd, wr);
    FreeIsRest(b, rd, wr');
    assert received + (p + chunk) == (received + p) + chunk;
  }

  class UpBuffer {
    const buffer: array<Byte>
    const mode: R.Mode
    var wrOff: int
    var rdOff: int
    ghost var accepted: seq<Byte>
    ghost var received: seq<Byte>

    ghost predicate Valid()
      reads this, buffer
    {
      Holds(buffer[..], rdOff, wrOff, received, accepted)
    }

    ghost function Space(): int
      reads this
    {
      Free(buffer.Length, rdOff, wrOff)
    }

    /** SEGGER_RTT_ConfigUpBuffer. */
    constructor (size: nat, flags: R.Mode)
      requires size >= 2
      ensures Valid() && buffer.Length == size && mode == flags && accepted == [] && fresh(buffer)
    {
      buffer := new Byte[size](_ => 0);
      mode := flags;
      wrOff, rdOff := 0, 0;
      accepted, received := [], [];
    }

    /** Reading RdOff: the host may have read any number of the pending bytes since. */
    method SampleRdOff() returns (offset: int)
      requires Valid()
      modifies this`rdOff, this`received
      ensures Valid() && offset == rdOff && Space() >= old(Space()) && old(received) <= received
    {
      var available := if rdOff <= wrOff then wrOff - rdOff else buffer.Length - rdOff + wrOff;
      var n: nat :| n <= available;
      HostMoves(buffer[..], rdOff, wrOff, n, received, accepted);
      hide Pending, Around, Free;
      received := received + Around(buffer[..], rdOff, n);
      rdOff := Advanced(buffer.Length, rdOff, n);
      offset := rdOff;
    }

    /** The memcpy of the write loop. */
    method CopyIn(data: seq<Byte>, from: nat, n: nat)
      requires from + n <= |data| && 0 <= wrOff && wrOff + n <= buffer.Length
      modifies buffer
      ensures buffer[..] == Stored(old(buffer[..]), wrOff, data[from..from + n])
    {
      forall i | 0 <= i < n { buffer[wrOff + i] := data[from + i]; }
    }

    /** One pass of the write loop: as much as there is room for up to the end of the buffer. */
    method WritePass(data: seq<Byte>, written: nat, numBytes: nat) returns (n: nat)
      requires Valid() && written + numBytes <= |data|
      modifies this`wrOff, this`rdOff, this`accepted, this`received, buffer
      ensures Valid() && n <= numBytes && n < buffer.Length && accepted == old(accepted) + data[written..written + n]
      ensures old(received) <= received && Space() + n >= old(Space())
      ensures n == numBytes || Space() == 0 || (wrOff == 0 && n == buffer.Length - old(wrOff))
      ensures numBytes <= old(Space()) ==> n == numBytes || (wrOff == 0 && n == buffer.Length - old(wrOff))
    {
      var rd := SampleRdOff();
      var numBytesToWrite := rd - wrOff - 1;
      if numBytesToWrite < 0 { numBytesToWrite := numBytesToWrite + buffer.Length; }
      numBytesToWrite := if numBytesToWrite < buffer.Length - wrOff then numBytesToWrite else buffer.Length - wrOff;
      numBytesToWrite := if numBytesToWrite < numBytes then numBytesToWrite else numBytes;
      n := numBytesToWrite;
      ghost var chunk := data[written..written + n];
      PassAppends(buffer[..], rdOff, wrOff, chunk, received, accepted);
      hide Holds, Stored, Free;
      CopyIn(data, written, n);
      wrOff := wrOff + n;
      if wrOff == buffer.Length { wrOff := 0; }
      accepted := accepted + chunk;
    }

    /** The check before the loop: the space at the moment the read offset was read. */
    method CheckSpace() returns (numBytesToWrite: nat)
      requires Valid()
      modifies this`rdOff, this`received
      ensures Valid() && Space() == numBytesToWrite >= old(Space()) && numBytesToWrite < buffer.Length &&
        old(received) <= received
    {
      var rd := SampleRdOff();
      FreeIsRest(buffer[..], rdOff, wrOff);
      var space := rd - wrOff - 1;
      if space < 0 { space := space + buffer.Length; }
      numBytesToWrite := space;
    }

    /** The do-while loop, on numBytes that fit. */
    method WriteLoop(data: seq<Byte>) returns (ghost passes: nat)
      requires Valid() && 0 < |data| <= Space() && |data| < buffer.Length
      modifies this`wrOff, this`rdOff, this`accepted, this`received, buffer
      ensures Valid() && accepted == old(accepted) + data && old(received) <= received && passes <= 2
    {
      hide Valid, Free;
      passes := 0;
      var numBytes, written: nat := |data|, 0;
      assert data[..0] == [];
      while true
        invariant Valid() && written + numBytes == |data| && 0 < numBytes <= Space()
        invariant accepted == old(accepted) + data[..written] && old(received) <= received
        invariant passes <= 1 && (passes == 1 ==> wrOff == 0)
        decreases 2 - passes
      {
        var n := WritePass(data, written, numBytes);
        assert data[..written] + data[written..written + n] == data[..written + n];
        passes := passes + 1;
        written := written + n;
        numBytes := numBytes - n;
        if numBytes == 0 { break; }
      }
      assert data[..written] == data;
    }

    /** The do-while loop in blocking mode, in which the host makes room only by reading: it is
        followed for as many passes as the caller has patience. */
    method WriteBlocking(data: seq<Byte>, patience: nat) returns (numBytesWritten: nat, passes: nat)
      requires Valid() && data != []
      modifies this`wrOff, this`rdOff, this`accepted, this`received, buffer
      ensures Valid() && numBytesWritten <= |data| && passes <= patience
      ensures accepted == old(accepted) + data[..numBytesWritten] && old(received) <= received
      ensures numBytesWritten == |data| || passes == patience
      ensures patience >= 2 && old(Space()) <= |data| ==> numBytesWritten >= old(Space())
    {
      hide Valid, Free;
      numBytesWritten, passes := 0, 0;
      while passes < patience && numBytesWritten < |data|
        invariant Valid() && numBytesWritten <= |data| && passes <= patience
        invariant accepted == old(accepted) + data[..numBytesWritten] && old(received) <= received
        invariant numBytesWritten + Space() >= old(Space())
        invariant passes == 1 ==> numBytesWritten == |data| || numBytesWritten >= old(Space()) || wrOff == 0
        invariant passes >= 2 ==> numBytesWritten == |data| || numBytesWritten >= old(Space())
      {
        var n := WritePass(data, numBytesWritten, |data| - numBytesWritten);
        assert data[..numBytesWritten] + data[numBytesWritten..numBytesWritten + n] == data[..numBytesWritten + n];
        numBytesWritten, passes := numBytesWritten + n, passes + 1;
      }
    }

    /** SEGGER_RTT_Write: skip mode stores all or nothing, trim mode the longest prefix that fitted
        at the check (at least what fitted at the call), both in at most two passes; blocking
        mode goes on until everything is stored, or until patience passes have not been enough. */
    method Write(data: seq<Byte>, patience: nat) returns (numBytesWritten: nat, ghost passes: nat)
      requires Valid() && |data| < 0x8000_0000
      modifies this`wrOff, this`rdOff, this`accepted, this`received, buffer
      ensures Valid() && numBytesWritten <= |data|
      ensures accepted == old(accepted) + data[..numBytesWritten] && old(received) <= received
      ensures mode != R.BlockIfFifoFull ==> passes <= 2 && (|data| <= old(Space()) ==> numBytesWritten == |data|)
      ensures mode == R.NoBlockSkip ==> numBytesWritten == 0 || numBytesWritten == |data|
      ensures mode == R.NoBlockTrim ==> numBytesWritten >= old(Space()) || numBytesWritten == |data|
      ensures mode == R.BlockIfFifoFull ==> numBytesWritten == |data| || passes == patience
    {
      hide Valid, Free;
      passes := 0;
      numBytesWritten := |data|;
      if mode != R.BlockIfFifoFull {
        var numBytesToWrite := CheckSpace();
        if numBytesWritten > numBytesToWrite {
          numBytesWritten := if mode == R.NoBlockSkip then 0 else numBytesToWrite;
        }
      }
      if numBytesWritten == 0 { return; }
      if mode != R.BlockIfFifoFull {
        passes := WriteLoop(data[..numBytesWritten]);
      } else {
        var n, k := WriteBlocking(data, patience);
        numBytesWritten, passes := n, k;
      }
    }
  }

  lemma PendingLength(buffer: seq<Byte>, rd: int, wr: int)
    requires Offsets(buffer, rd, wr)
    ensures |Pending(buffer, rd, wr)| == if rd <= wr then wr - rd else |buffer| - rd + wr
  {
  }

  /** Taking n bytes that do not go around the end of the buffer. */
  lemma TakeBytes(buffer: seq<Byte>, rd: int, wr: int, n: nat, data: seq<Byte>, all: seq<Byte>)
    requires Offsets(buffer, rd, wr) && n <= |Pending(buffer, rd, wr)| && rd + n <= |buffer|
    requires data + Pending(buffer, rd, wr) == all
    ensures var rd' := Advanced(|buffer|, rd, n);
      Offsets(buffer, rd', wr) && (data + buffer[rd..rd + n]) + Pending(buffer, rd', wr) == all
  {
    var p := Pending(buffer, rd, wr);
    ReadFront(buffer, rd, wr, n);
    assert Around(buffer, rd, n) == buffer[rd..rd + n];
    hide Pending, Around, Advanced;
    assert (data + p[..n]) + p[n..] == data + p;
  }

  class DownBuffer {
    const buffer: array<Byte>
    var wrOff: int
    var rdOff: int

    ghost predicate Valid()
      reads this, buffer
    {
      Offsets(buffer[..], rdOff, wrOff)
    }

    ghost function Contents(): seq<Byte>
      requires Valid()
      reads this, buffer
    {
      Pending(buffer[..], rdOff, wrOff)
    }

    constructor (size: nat)
      requires size >= 2
      ensures Valid() && buffer.Length == size && Contents() == [] && fresh(buffer)
    {
      buffer := new Byte[size](_ => 0);
      wrOff, rdOff := 0, 0;
    }

    /** The memcpy of the read. */
    method CopyOut(from: nat, n: nat) returns (chunk: seq<Byte>)
      requires from + n <= buffer.Length
      ensures chunk == buffer[..][from..from + n]
    {
      chunk := buffer[from..from + n];
    }

    /** SEGGER_RTT_Read: the oldest bytes, as many as there are or as the caller has room for. */
    method Read(bufferSize: nat) returns (data: seq<Byte>)
      requires Valid() && bufferSize < 0x8000_0000
      modifies this`rdOff
      ensures Valid() && data + Contents() == old(Contents())
      ensures |data| == |old(Contents())| || (|data| == bufferSize && |data| < |old(Contents())|)
    {
      hide Pending;
      var rd, room := rdOff, bufferSize;
      data := [];
      ghost var was, p := buffer[..], Contents();
      PendingLength(was, rd, wrOff);
      assert [] + p == p;
      if rd > wrOff {
        var rem := buffer.Length - rd;
        rem := if rem < room then rem else room;
        TakeBytes(was, rd, wrOff, rem, data, p);
        var chunk := CopyOut(rd, rem);
        data := data + chunk;
        room := room - rem;
        rd := rd + rem;
        if rd == buffer.Length { rd := 0; }
      }
      PendingLength(was, rd, wrOff);
      var rem := wrOff - rd;
      rem := if rem < room then rem else room;
      if rem > 0 {
        TakeBytes(was, rd, wrOff, rem, data, p);
        var chunk := CopyOut(rd, rem);
        data := data + chunk;
        rd := rd + rem;
        PendingLength(was, rd, wrOff);
      }
      if |data| != 0 { rdOff := rd; }
    }
  }
}
