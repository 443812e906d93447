/** trcBase.c: the symbol table in its byte array, with a hash chain threaded through the entries.

    Stored says where the bytes of one entry are and that they link it to the newest earlier
    entry with its checksum; Represents says so of all entries and of the heads of the chains.
    The lookup is proved by walking the entries backwards from the newest, and the creation of
    an entry by extending what the bytes represent. The specification it is proved against is
    the interning table of SymbolSpec. */
module SymbolTables {
  import opened SymbolSpec

  /** SYMBOL_TABLE_SIZE bytes, and behind them what the length probe of the lookup may read. */
  const SLACK: nat := 260

  /** The bytes of an entry; next is the previous head of its hash chain. */
  function Encoded(e: Entry, next: nat): (r: seq<Byte>)
    requires next < 0x1_0000
    ensures |r| == EntrySize(e.name)
  {
    [next % 256, next / 256, e.channel % 256, e.channel / 256] + e.name + [0, 0]
  }

  /** Entry k is in the byte pool, linked to the newest earlier entry with its checksum. */
  ghost predicate Stored(bytes: seq<Byte>, entries: seq<Entry>, k: nat)
    requires k < |entries|
  {
    var e, next := entries[k], Newest(entries[..k], Checksum(entries[k].name));
    && next < 0x1_0000 && e.index + EntrySize(e.name) <= |bytes|
    && bytes[e.index..e.index + EntrySize(e.name)] == Encoded(e, next)
  }

  /** Bytes behind the entries change nothing about them. */
  lemma StillStored(bytes: seq<Byte>, bytes': seq<Byte>, entries: seq<Entry>, e: Entry, size: nat, k: nat)
    requires WellFormed(entries, size) && k < |entries| && Stored(bytes, entries, k)
    requires NextFree(entries) <= |bytes'| && NextFree(entries) <= |bytes| &&
      bytes'[..NextFree(entries)] == bytes[..NextFree(entries)]
    ensures Stored(bytes', entries + [e], k)
  {
    IndexBelow(entries, size, k);
    hide WellFormed, Encoded, Newest, Checksum;
    var from, to := entries[k].index, entries[k].index + EntrySize(entries[k].name);
    assert (entries + [e])[..k] == entries[..k];
    PartOf(bytes', 0, bytes'[..NextFree(entries)], from, to);
    PartOf(bytes, 0, bytes[..NextFree(entries)], from, to);
  }

  lemma NewlyStored(bytes: seq<Byte>, entries: seq<Entry>, e: Entry)
    requires var next := Newest(entries, Checksum(e.name));
      && next < 0x1_0000 && e.index + EntrySize(e.name) <= |bytes| &&
           bytes[e.index..e.index + EntrySize(e.name)] == Encoded(e, next)
    ensures Stored(bytes, entries + [e], |entries|)
  {
    hide Newest, Checksum, Encoded;
    assert (entries + [e])[..|entries|] == entries;
  }

  /** The byte pool holds the entries and the heads of their chains are right. */
  ghost predicate Represents(bytes: seq<Byte>, latest: seq<Label>, entries: seq<Entry>) {
    && |latest| == 64 && (forall c :: 0 <= c < 64 ==> latest[c] == Newest(entries, c))
    && (forall k :: 0 <= k < |entries| ==> Stored(bytes, entries, k))
  }

  lemma NewestAdded(entries: seq<Entry>, e: Entry, crc: nat)
    ensures Newest(entries + [e], crc) == if Checksum(e.name) == crc then e.index else Newest(entries, crc)
  {
    assert (entries + [e])[..|entries|] == entries;
  }

  /** Writing a new entry's bytes behind the others and making it the head of its chain. */
  lemma Extends(bytes: seq<Byte>, bytes': seq<Byte>, latest: seq<Label>, entries: seq<Entry>, e: Entry, size: nat)
    requires WellFormed(entries, size) && Represents(bytes, latest, entries)
    requires e.index == NextFree(entries) < 0x1_0000 && |bytes'| == |bytes| && e.index + EntrySize(e.name) <= |bytes|
    requires bytes'[..e.index] == bytes[..e.index] && |latest| == 64
    requires bytes'[e.index..e.index + EntrySize(e.name)] == Encoded(e, latest[Checksum(e.name)])
    ensures Represents(bytes', latest[Checksum(e.name) := e.index as Label], entries + [e])
  {
    hide Newest, Checksum, Stored, Encoded, WellFormed, NextFree;
    forall k | 0 <= k < |entries| ensures Stored(bytes', entries + [e], k) {
      StillStored(bytes, bytes', entries, e, size, k);
    }
    ChecksumBound(e.name);
    NewlyStored(bytes', entries, e);
    forall c | 0 <= c < 64 ensures latest[Checksum(e.name) := e.index as Label][c] == Newest(entries + [e], c) {
      NewestAdded(entries, e, c);
    }
  }

  lemma ChecksumBound(name: Name)
    ensures Checksum(name) < 64
  {
  }

  class SymbolTable {
    const size: nat
    const symbytes: array<Byte>
    const latestEntryOfChecksum: array<Label>
    var nextFreeSymbolIndex: nat
    ghost var entries: seq<Entry>

    ghost predicate Bounded() {
      0 < size <= 0x1_0000 && symbytes.Length == size + SLACK && latestEntryOfChecksum.Length == 64
    }

    ghost predicate Valid()
      reads this, symbytes, latestEntryOfChecksum
    {
      && Bounded()
      && WellFormed(entries, size) && nextFreeSymbolIndex == NextFree(entries)
      && Represents(symbytes[..], latestEntryOfChecksum[..], entries)
    }

    constructor (tableSize: nat)
      requires 0 < tableSize <= 0x1_0000
      ensures Valid() && size == tableSize && entries == [] && fresh(symbytes) && fresh(latestEntryOfChecksum)
    {
      size := tableSize;
      symbytes := new Byte[tableSize + SLACK](_ => 0);
      latestEntryOfChecksum := new Label[64](_ => 0);
      nextFreeSymbolIndex := 1;
      entries := [];
    }

    /** prvTraceGetChecksum: the length counts the terminator. */
    method GetChecksum(name: Name) returns (crc: nat, length: nat)
      ensures crc == Checksum(name) && length == |name| + 1
    {
      var sum: nat := 0;
      length := 1;
      var n := 0;
      while n < |name|
        invariant n <= |name| && length == n + 1 && sum == Sum(name[..n])
      {
        assert name[..n + 1][..n] == name[..n];
        sum := sum + name[n];
        length := length + 1;
        n := n + 1;
      }
      assert name[..n] == name;
      crc := sum % 64;
    }

    /** strncmp of the string at an entry's name with name and its terminator. */
    method SameString(at: nat, length: nat, name: Name, ghost stored: Name) returns (same: bool)
      requires length == |name| + 1 && at + |stored| < symbytes.Length
      requires symbytes[at..at + |stored|] == stored && symbytes[at + |stored|] == 0
      ensures same <==> stored == name
    {
      var n := 0;
      while n < length
        invariant n <= |stored| && n <= |name| && stored[..n] == name[..n]
      {
        var mine: Byte := if n < |name| then name[n] else 0;
        assert n < |stored| ==> symbytes[at + n] == stored[n] by {
          assert n < |stored| ==> symbytes[at..at + |stored|][n] == stored[n];
        }
        if symbytes[at + n] != mine { return false; }
        if mine == 0 { return true; }
        n := n + 1;
      }
      same := true;
    }

    /** The bytes of entry k read back. */
    lemma ReadBack(k: nat)
      requires Valid() && k < |entries|
      ensures var e, next := entries[k], Newest(entries[..k], Checksum(entries[k].name));
        && 1 <= e.index && e.index + EntrySize(e.name) <= size
        && Word(symbytes[e.index], symbytes[e.index + 1]) == next < 0x1_0000
        && symbytes[e.index + 2] == e.channel % 256 && symbytes[e.index + 3] == e.channel / 256
        && symbytes[e.index + 4..e.index + 4 + |e.name|] == e.name && symbytes[e.index + 4 + |e.name|] == 0
        && symbytes[e.index + 5 + |e.name|] == 0
    {
      hide WellFormed, Newest, Checksum, Encoded;
      IndexBelow(entries, size, k);
      assert Stored(symbytes[..], entries, k);
      var e, next, bytes := entries[k], Newest(entries[..k], Checksum(entries[k].name)), symbytes[..];
      var r := bytes[e.index..e.index + EntrySize(e.name)];
      Decoded(e, next, r);
      PartOf(bytes, e.index, r, 4, 4 + |e.name|);
      assert symbytes[e.index + 4..e.index + 4 + |e.name|] == bytes[e.index + 4..e.index + 4 + |e.name|];
    }

    /** The tests of the lookup on one entry of the chain. */
    method Matches(i: nat, name: Name, length: nat, channel: Label, ghost k: nat) returns (found: bool)
      requires Valid() && k < |entries| && i == entries[k].index && length == |name| + 1
      ensures found <==> Is(entries[k], name, channel)
    {
      hide WellFormed, Newest, Checksum, Stored;
      ghost var e := entries[k];
      ReadBack(k);
      found := false;
      if symbytes[i + 2] == channel % 256 {
        if symbytes[i + 3] == channel / 256 {
          if symbytes[i + 4 + length] == 0 {
            found := SameString(i + 4, length, name, e.name);
          }
        }
      }
    }

    /** One step along a hash chain, seen from the list of entries. */
    lemma NextInChain(m: nat, crc: nat, name: Name, channel: Label) returns (k: nat)
      requires Valid() && m <= |entries| && Newest(entries[..m], crc) != 0 && crc == Checksum(name)
      ensures k < m && entries[k].index == Newest(entries[..m], crc)
      ensures LabelOf(entries[..m], name, channel) ==
        if Is(entries[k], name, channel) then entries[k].index else LabelOf(entries[..k], name, channel)
      ensures var i := entries[k].index;
        i + 1 < symbytes.Length && Word(symbytes[i], symbytes[i + 1]) == Newest(entries[..k], crc) < i
    {
      hide WellFormed, Newest, Checksum, Stored, LabelOf, Is;
      k := ChainStep(entries[..m], crc, name, channel);
      ReadBack(k);
      NewestBelow(entries, size, k, crc);
      assert entries[..m][..k + 1] == entries[..k + 1];
      LabelStep(entries, k, name, channel);
    }

    lemma HeadOfChain(crc: nat)
      requires Valid() && crc < 64
      ensures latestEntryOfChecksum.Length == 64 && latestEntryOfChecksum[crc] == Newest(entries, crc) &&
        entries[..|entries|] == entries
    {
    }

    lemma EndOfChain(m: nat, crc: nat, name: Name, channel: Label)
      requires Valid() && m <= |entries| && Newest(entries[..m], crc) == 0 && crc == Checksum(name)
      ensures LabelOf(entries[..m], name, channel) == 0
    {
      WellFormedTake(entries, size, m);
      ChainEnds(entries[..m], size, crc, name, channel);
    }

    /** prvTraceLookupSymbolTableEntry: it ends because the indices along a chain decrease. */
    method LookupSymbolTableEntry(name: Name, crc: nat, length: nat, channel: Label) returns (i: nat)
      requires Valid() && crc == Checksum(name) && length == |name| + 1
      ensures i == LabelOf(entries, name, channel)
    {
      hide Valid, WellFormed, Newest, Checksum, Stored, LabelOf, Is;
      HeadOfChain(crc);
      i := latestEntryOfChecksum[crc];
      ghost var m: nat := |entries|;
      while i != 0
        invariant m <= |entries| && i == Newest(entries[..m], crc)
        invariant LabelOf(entries, name, channel) == LabelOf(entries[..m], name, channel)
        decreases i
      {
        ghost var k := NextInChain(m, crc, name, channel);
        var found := Matches(i, name, length, channel, k);
        if found { break; }
        i := Word(symbytes[i], symbytes[i + 1]);
        m := k;
      }
      if i == 0 { EndOfChain(m, crc, name, channel); }
    }

    /** strncpy of the name and its first terminator. */
    method CopyName(at: nat, length: nat, name: Name)
      requires length == |name| + 1 && at + length <= symbytes.Length
      modifies symbytes
      ensures symbytes[at..at + length] == name + [0]
      ensures symbytes[..at] == old(symbytes[..at])
    {
      var n := 0;
      while n < length
        invariant n <= length && symbytes[at..at + n] == (name + [0])[..n] && symbytes[..at] == old(symbytes[..at])
      {
        symbytes[at + n] := if n < |name| then name[n] else 0;
        n := n + 1;
      }
    }

    /** The four bytes of meta-data. */
    method WriteMeta(at: nat, next: Label, channel: Label)
      requires at + 4 <= symbytes.Length
      modifies symbytes
      ensures symbytes[..at] == old(symbytes[..at])
      ensures symbytes[at..at + 4] == [next % 256, next / 256, channel % 256, channel / 256]
    {
      symbytes[at] := next % 256;
      symbytes[at + 1] := next / 256;
      symbytes[at + 2] := channel % 256;
      symbytes[at + 3] := channel / 256;
    }

    /** The bytes of a new entry, behind everything stored so far. */
    method WriteEntry(crc: nat, length: nat, name: Name, channel: Label)
      requires latestEntryOfChecksum.Length == 64 && crc < 64 && length == |name| + 1
      requires nextFreeSymbolIndex + length + 5 <= symbytes.Length
      modifies symbytes
      ensures symbytes[..nextFreeSymbolIndex] == old(symbytes[..nextFreeSymbolIndex])
      ensures symbytes[..][..nextFreeSymbolIndex] == old(symbytes[..])[..nextFreeSymbolIndex]
      ensures symbytes[..][nextFreeSymbolIndex..nextFreeSymbolIndex + EntrySize(name)] ==
        Encoded(Entry(nextFreeSymbolIndex, name, channel), latestEntryOfChecksum[crc])
    {
      var at := nextFreeSymbolIndex;
      WriteMeta(at, latestEntryOfChecksum[crc], channel);
      ghost var before, meta := symbytes[..at], symbytes[at..at + 4];
      CopyName(at + 4, length, name);
      ghost var first := symbytes[..at + 4];
      assert first == before + meta;
      symbytes[at + 4 + length] := 0;
      assert symbytes[..at + 4] == first;
      assert symbytes[..at] == first[..at] && symbytes[at..at + 4] == first[at..];
      EntryBytes(symbytes[..], at, meta, name);
    }

    /** Making the entry just written the head of its chain. */
    method LinkEntry(crc: nat, length: nat, ghost e: Entry, ghost before: seq<Byte>)
      requires Bounded() && WellFormed(entries, size) && WellFormed(entries + [e], size) &&
        NextFree(entries + [e]) == e.index + EntrySize(e.name)
      requires Represents(before, latestEntryOfChecksum[..], entries) && |before| == symbytes.Length
      requires crc == Checksum(e.name) < 64 && length == |e.name| + 1 &&
        nextFreeSymbolIndex == NextFree(entries) == e.index
      requires e.index + EntrySize(e.name) <= symbytes.Length && e.index < 0x1_0000
      requires symbytes[..][..e.index] == before[..e.index]
      requires symbytes[..][e.index..e.index + EntrySize(e.name)] == Encoded(e, latestEntryOfChecksum[crc])
      modifies this`nextFreeSymbolIndex, this`entries, latestEntryOfChecksum
      ensures Valid() && entries == old(entries) + [e]
    {
      hide Represents, Checksum, Encoded, WellFormed, NextFree;
      Extends(before, symbytes[..], latestEntryOfChecksum[..], entries, e, size);
      ghost var latest := latestEntryOfChecksum[..];
      var head: Label := nextFreeSymbolIndex;
      latestEntryOfChecksum[crc] := head;
      assert latestEntryOfChecksum[..] == latest[crc := head];
      nextFreeSymbolIndex := nextFreeSymbolIndex + length + 5;
      entries := entries + [e];
    }

    /** prvTraceCreateSymbolTableEntry: 0 when the table is full. What was stored stays. */
    method CreateSymbolTableEntry(crc: nat, length: nat, name: Name, channel: Label) returns (index: nat)
      requires Valid() && crc == Checksum(name) && length == |name| + 1
      requires LabelOf(entries, name, channel) == 0
      modifies this`nextFreeSymbolIndex, this`entries, symbytes, latestEntryOfChecksum
      ensures Valid() && (entries, index) == Open(old(entries), size, name, channel)
      ensures symbytes[..old(nextFreeSymbolIndex)] == old(symbytes[..nextFreeSymbolIndex])
    {
      hide Represents, Checksum, Encoded;
      if nextFreeSymbolIndex + length + 4 >= size { return 0; }
      index := nextFreeSymbolIndex;
      ghost var e := Entry(index, name, channel);
      OpenKeeps(entries, size, name, channel);
      NextFreeAdded(entries, e);
      hide WellFormed, NextFree, LabelOf;
      ChecksumBound(name);
      WriteEntry(crc, length, name, channel);
      LinkEntry(crc, length, e, old(symbytes[..]));
    }

    /** prvTraceOpenSymbol. */
    method OpenSymbol(name: Name, channel: Label) returns (result: nat)
      requires Valid()
      modifies this`nextFreeSymbolIndex, this`entries, symbytes, latestEntryOfChecksum
      ensures Valid() && (entries, result) == Open(old(entries), size, name, channel)
      ensures symbytes[..old(nextFreeSymbolIndex)] == old(symbytes[..nextFreeSymbolIndex])
    {
      hide Valid, Newest, Checksum, LabelOf, Fits;
      TableBounds();
      var crc, length := GetChecksum(name);
      result := LookupSymbolTableEntry(name, crc, length, channel);
      if result == 0 { result := CreateSymbolTableEntry(crc, length, name, channel); }
    }

    lemma TableBounds()
      requires Valid()
      ensures nextFreeSymbolIndex <= symbytes.Length
    {
    }
  }

  lemma NextFreeAdded(entries: seq<Entry>, e: Entry)
    ensures NextFree(entries + [e]) == e.index + EntrySize(e.name)
  {
  }

  function Word(low: Byte, high: Byte): nat {
    var l: nat, h: nat := low, high;
    l + h * 0x100
  }

  /** The three parts of an entry, one behind the other. */
  lemma EntryBytes(bytes: seq<Byte>, at: nat, meta: seq<Byte>, name: Name)
    requires |meta| == 4 && at + EntrySize(name) <= |bytes| && bytes[at..at + 4] == meta
    requires bytes[at + 4..at + 4 + |name| + 1] == name + [0] && bytes[at + 4 + |name| + 1] == 0
    ensures bytes[at..at + EntrySize(name)] == meta + name + [0, 0]
  {
    var r, body := bytes[at..at + EntrySize(name)], bytes[at + 4..at + 4 + |name| + 1];
    assert r == bytes[at..at + 4] + body + [bytes[at + 4 + |name| + 1]];
  }

  lemma PartOf(bytes: seq<Byte>, from: nat, r: seq<Byte>, a: nat, b: nat)
    requires from + |r| <= |bytes| && bytes[from..from + |r|] == r && a <= b <= |r|
    ensures bytes[from + a..from + b] == r[a..b]
  {
    assert forall n :: 0 <= n < |r| ==> r[n] == bytes[from..from + |r|][n] == bytes[from + n];
  }

  lemma Decoded(e: Entry, next: nat, r: seq<Byte>)
    requires next < 0x1_0000 && r == Encoded(e, next)
    ensures Word(r[0], r[1]) == next && r[2] == e.channel % 256 && r[3] == e.channel / 256
    ensures r[4..4 + |e.name|] == e.name && r[4 + |e.name|] == 0 && r[5 + |e.name|] == 0
  {
  }

  lemma LabelStep(entries: seq<Entry>, k: nat, name: Name, channel: Label)
    requires k < |entries|
    ensures LabelOf(entries[..k + 1], name, channel) ==
      if Is(entries[k], name, channel) then entries[k].index else LabelOf(entries[..k], name, channel)
  {
    assert entries[..k + 1][..k] == entries[..k];
  }

  lemma {:induction false} ChainEnds(entries: seq<Entry>, size: nat, crc: nat, name: Name, channel: Label)
    requires WellFormed(entries, size) && Newest(entries, crc) == 0 && crc == Checksum(name)
    ensures LabelOf(entries, name, channel) == 0
    decreases |entries|
  {
    if entries != [] {
      IndexBelow(entries, size, |entries| - 1);
      WellFormedPrefix(entries, size);
      ChainEnds(entries[..|entries| - 1], size, crc, name, channel);
    }
  }

  /** Where a non-empty chain starts: no newer entry can be the wanted symbol. */
  lemma {:induction false} ChainStep(entries: seq<Entry>, crc: nat, name: Name, channel: Label) returns (k: nat)
    requires Newest(entries, crc) != 0 && crc == Checksum(name)
    ensures k < |entries| && entries[k].index == Newest(entries, crc) && Checksum(entries[k].name) == crc
    ensures LabelOf(entries, name, channel) == LabelOf(entries[..k + 1], name, channel)
    decreases |entries|
  {
    var last := |entries| - 1;
    if Checksum(entries[last].name) == crc {
      k := last;
      assert entries[..k + 1] == entries;
    } else {
      k := ChainStep(entries[..last], crc, name, channel);
      assert entries[..last][..k + 1] == entries[..k + 1];
    }
  }

  lemma {:induction false} NewestBelow(entries: seq<Entry>, size: nat, k: nat, crc: nat)
    requires WellFormed(entries, size) && k < |entries|
    ensures Newest(entries[..k], crc) < entries[k].index
    decreases k
  {
    IndexBelow(entries, size, k);
    if k > 0 {
      assert entries[..k][..k - 1] == entries[..k - 1];
      Increasing(entries, size, k - 1, k);
      NewestBelow(entries, size, k - 1, crc);
    }
  }
}
