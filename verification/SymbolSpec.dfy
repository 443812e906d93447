/** The trace recorder's symbol table: what it holds, in the order of creation. */
module SymbolSpec {

  type Byte = b: int | 0 <= b < 256 witness 0

  type Label = n: int | 0 <= n < 0x1_0000 witness 0

  /** A C string without its terminator. */
  type Name = s: seq<Byte> | |s| <= 254 && forall i :: 0 <= i < |s| ==> s[i] != 0 witness []

  datatype Entry = Entry(index: nat, name: Name, channel: Label)

  /** Four bytes of meta-data, the name, and two terminators: the length counts one of them. */
  function EntrySize(name: Name): nat {
    |name| + 6
  }

  /** nextFreeSymbolIndex: entry 0 is reserved. */
  function NextFree(entries: seq<Entry>): (n: nat)
    ensures n >= 1
  {
    if entries == [] then 1 else entries[|entries| - 1].index + EntrySize(entries[|entries| - 1].name)
  }

  function Sum(name: seq<Byte>): nat {
    if name == [] then 0 else Sum(name[..|name| - 1]) + name[|name| - 1]
  }

  /** The 6-bit checksum. */
  function Checksum(name: Name): (c: nat)
    ensures c < 64
  {
    Sum(name) % 64
  }

  /** It is the sum of the bytes, in any order, modulo 64. */
  lemma ChecksumAdds(a: Name, b: Name, both: Name)
    requires both == a + b
    ensures Checksum(both) == (Checksum(a) + Checksum(b)) % 64
  {
    SumAdds(a, b);
    hide Sum;
    Remainders(Sum(a), Sum(b));
  }

  lemma ChecksumOfOne(a: Name)
    requires |a| == 1
    ensures Checksum(a) == a[0] % 64
  {
    assert a[..0] == [] && Sum(a) == Sum(a[..0]) + a[0];
  }

  lemma Remainders(x: nat, y: nat)
    ensures (x + y) % 64 == (x % 64 + y % 64) % 64
  {
  }

  lemma {:induction false} SumAdds(a: seq<Byte>, b: seq<Byte>)
    ensures Sum(a + b) == Sum(a) + Sum(b)
    decreases |b|
  {
    if b == [] {
      assert a + b == a;
    } else {
      assert (a + b)[..|a + b| - 1] == a + b[..|b| - 1];
      SumAdds(a, b[..|b| - 1]);
    }
  }

  /** The head of a hash chain: the newest entry with this checksum, 0 if there is none. */
  function Newest(entries: seq<Entry>, crc: nat): nat {
    if entries == [] then 0
    else
      var e := entries[|entries| - 1];
      if Checksum(e.name) == crc then e.index else Newest(entries[..|entries| - 1], crc)
  }

  predicate Is(e: Entry, name: Name, channel: Label) {
    e.name == name && e.channel == channel
  }

  /** The label of a symbol, 0 if it is not in the table. */
  function LabelOf(entries: seq<Entry>, name: Name, channel: Label): nat {
    if entries == [] then 0
    else if Is(entries[|entries| - 1], name, channel) then entries[|entries| - 1].index
    else LabelOf(entries[..|entries| - 1], name, channel)
  }

  predicate Fits(entries: seq<Entry>, size: nat, name: Name) {
    NextFree(entries) + (|name| + 1) + 4 < size
  }

  /** prvTraceOpenSymbol on the list of entries. */
  function Open(entries: seq<Entry>, size: nat, name: Name, channel: Label): (seq<Entry>, nat) {
    var handle := LabelOf(entries, name, channel);
    if handle != 0 then (entries, handle)
    else if Fits(entries, size, name) then (entries + [Entry(NextFree(entries), name, channel)], NextFree(entries))
    else (entries, 0)
  }

  /** Entries follow each other without gaps, and no symbol is there twice. */
  ghost predicate WellFormed(entries: seq<Entry>, size: nat) {
    && (forall k :: 0 <= k < |entries| ==> entries[k].index == NextFree(entries[..k]))
    && (forall j, k :: 0 <= j < k < |entries| ==> !Is(entries[k], entries[j].name, entries[j].channel))
    && NextFree(entries) <= size
  }

  lemma WellFormedPrefix(entries: seq<Entry>, size: nat)
    requires WellFormed(entries, size) && entries != []
    ensures WellFormed(entries[..|entries| - 1], size) &&
      entries[|entries| - 1].index == NextFree(entries[..|entries| - 1])
  {
    var init := entries[..|entries| - 1];
    assert forall k :: 0 <= k < |init| ==> init[..k] == entries[..k];
  }

  lemma {:induction false} WellFormedTake(entries: seq<Entry>, size: nat, m: nat)
    requires WellFormed(entries, size) && m <= |entries|
    ensures WellFormed(entries[..m], size)
    decreases |entries|
  {
    if m == |entries| {
      assert entries[..m] == entries;
    } else {
      WellFormedPrefix(entries, size);
      assert entries[..|entries| - 1][..m] == entries[..m];
      WellFormedTake(entries[..|entries| - 1], size, m);
    }
  }

  lemma {:induction false} IndexBelow(entries: seq<Entry>, size: nat, k: nat)
    requires WellFormed(entries, size) && k < |entries|
    ensures 1 <= entries[k].index && entries[k].index + EntrySize(entries[k].name) <= NextFree(entries) <= size
    decreases |entries|
  {
    WellFormedPrefix(entries, size);
    if k < |entries| - 1 { IndexBelow(entries[..|entries| - 1], size, k); }
  }

  lemma {:induction false} LabelFound(entries: seq<Entry>, name: Name, channel: Label)
    ensures var handle := LabelOf(entries, name, channel);
      handle != 0 ==> exists k :: 0 <= k < |entries| && Is(entries[k], name, channel) && entries[k].index == handle
    decreases |entries|
  {
    if entries != [] && !Is(entries[|entries| - 1], name, channel) {
      LabelFound(entries[..|entries| - 1], name, channel);
    }
  }

  lemma {:induction false} LabelIsIndex(entries: seq<Entry>, size: nat, k: nat)
    requires WellFormed(entries, size) && k < |entries|
    ensures LabelOf(entries, entries[k].name, entries[k].channel) == entries[k].index && entries[k].index != 0
    decreases |entries|
  {
    IndexBelow(entries, size, k);
    WellFormedPrefix(entries, size);
    if k < |entries| - 1 {
      LabelIsIndex(entries[..|entries| - 1], size, k);
      assert !Is(entries[|entries| - 1], entries[k].name, entries[k].channel);
    }
  }

  lemma {:induction false} LabelMissing(entries: seq<Entry>, size: nat, name: Name, channel: Label)
    requires WellFormed(entries, size)
    ensures LabelOf(entries, name, channel) == 0 <==> forall k :: 0 <= k < |entries| ==> !Is(entries[k], name, channel)
  {
    LabelFound(entries, name, channel);
    forall k | 0 <= k < |entries| && Is(entries[k], name, channel) ensures LabelOf(entries, name, channel) != 0 {
      LabelIsIndex(entries, size, k);
    }
  }

  lemma OpenKeeps(entries: seq<Entry>, size: nat, name: Name, channel: Label)
    requires WellFormed(entries, size)
    ensures var (entries', handle) := Open(entries, size, name, channel);
      WellFormed(entries', size) && entries <= entries' && (handle != 0 ==> LabelOf(entries', name, channel) == handle)
      && (handle == 0 <==> !Fits(entries, size, name) && forall k :: 0 <= k < |entries| ==>
           !Is(entries[k], name, channel))
  {
    LabelMissing(entries, size, name, channel);
    var (entries', handle) := Open(entries, size, name, channel);
    if |entries'| > |entries| {
      assert forall k :: 0 <= k <= |entries| ==> entries'[..k] == entries[..k];
      assert entries'[..|entries|] == entries;
    }
  }

  // ----- whole runs

  datatype Request = Request(name: Name, channel: Label)

  function OpenAll(entries: seq<Entry>, size: nat, requests: seq<Request>): seq<Entry>
    decreases |requests|
  {
    if requests == [] then entries
    else OpenAll(Open(entries, size, requests[0].name, requests[0].channel).0, size, requests[1..])
  }

  /** The label the n-th request of a run gets. */
  function Answer(size: nat, requests: seq<Request>, n: nat): nat
    requires n < |requests|
  {
    Open(OpenAll([], size, requests[..n]), size, requests[n].name, requests[n].channel).1
  }

  lemma {:induction false} OpenAllKeeps(entries: seq<Entry>, size: nat, requests: seq<Request>)
    requires WellFormed(entries, size)
    ensures WellFormed(OpenAll(entries, size, requests), size) && entries <= OpenAll(entries, size, requests)
    decreases |requests|
  {
    if requests != [] {
      var r := requests[0];
      OpenKeeps(entries, size, r.name, r.channel);
      hide WellFormed, Open;
      OpenAllKeeps(Open(entries, size, r.name, r.channel).0, size, requests[1..]);
    }
  }

  lemma {:induction false} OpenAllSplits(entries: seq<Entry>, size: nat, first: seq<Request>, more: seq<Request>)
    ensures OpenAll(entries, size, first + more) == OpenAll(OpenAll(entries, size, first), size, more)
    decreases |first|
  {
    if first == [] {
      assert first + more == more;
    } else {
      assert (first + more)[1..] == first[1..] + more;
      OpenAllSplits(Open(entries, size, first[0].name, first[0].channel).0, size, first[1..], more);
    }
  }

  lemma LabelStays(entries: seq<Entry>, bigger: seq<Entry>, size: nat, name: Name, channel: Label)
    requires entries <= bigger && WellFormed(bigger, size) && LabelOf(entries, name, channel) != 0
    ensures LabelOf(bigger, name, channel) == LabelOf(entries, name, channel)
  {
    LabelFound(entries, name, channel);
    var k :| 0 <= k < |entries| && Is(entries[k], name, channel) && entries[k].index == LabelOf(entries, name, channel);
    LabelIsIndex(bigger, size, k);
  }

  lemma LabelsDiffer(entries: seq<Entry>, size: nat, a: Request, b: Request)
    requires WellFormed(entries, size) && a != b
    requires LabelOf(entries, a.name, a.channel) != 0 && LabelOf(entries, b.name, b.channel) != 0
    ensures LabelOf(entries, a.name, a.channel) != LabelOf(entries, b.name, b.channel)
  {
    LabelFound(entries, a.name, a.channel);
    LabelFound(entries, b.name, b.channel);
    var i :| 0 <= i < |entries| && Is(entries[i], a.name, a.channel) &&
      entries[i].index == LabelOf(entries, a.name, a.channel);
    var j :| 0 <= j < |entries| && Is(entries[j], b.name, b.channel) &&
      entries[j].index == LabelOf(entries, b.name, b.channel);
    Increasing(entries, size, if i < j then i else j, if i < j then j else i);
  }

  lemma {:induction false} Increasing(entries: seq<Entry>, size: nat, i: nat, j: nat)
    requires WellFormed(entries, size) && i <= j < |entries|
    ensures i < j ==> entries[i].index < entries[j].index
    decreases |entries|
  {
    WellFormedPrefix(entries, size);
    if j < |entries| - 1 { Increasing(entries[..|entries| - 1], size, i, j); }
    else if i < j { IndexBelow(entries[..|entries| - 1], size, i); }
  }

  lemma EmptyIsWellFormed(size: nat)
    requires size > 0
    ensures WellFormed([], size)
  {
  }

  /** The table after the n-th request knows its label. */
  lemma AnswerStays(size: nat, requests: seq<Request>, n: nat, m: nat)
    requires n < m <= |requests| && size > 0 && Answer(size, requests, n) != 0
    ensures WellFormed(OpenAll([], size, requests[..m]), size)
    ensures LabelOf(OpenAll([], size, requests[..m]), requests[n].name, requests[n].channel) ==
      Answer(size, requests, n)
  {
    hide WellFormed, LabelOf, Open;
    var r, before := requests[n], OpenAll([], size, requests[..n]);
    var now := Open(before, size, r.name, r.channel).0;
    EmptyIsWellFormed(size);
    OpenAllKeeps([], size, requests[..n]);
    OpenKeeps(before, size, r.name, r.channel);
    assert requests[..m] == requests[..n] + requests[n..m] && requests[n..m][1..] == requests[n + 1..m];
    OpenAllSplits([], size, requests[..n], requests[n..m]);
    OpenAllKeeps(now, size, requests[n + 1..m]);
    LabelStays(now, OpenAll(now, size, requests[n + 1..m]), size, r.name, r.channel);
  }

  /** Interning, over every run of requests from an empty table: once a symbol has a label, every
      later request for it gets the same label, and no other symbol ever gets that label. */
  lemma Interning(size: nat, requests: seq<Request>, i: nat, j: nat)
    requires i < j < |requests| && size > 0 && Answer(size, requests, i) != 0
    ensures requests[i] == requests[j] ==> Answer(size, requests, j) == Answer(size, requests, i)
    ensures requests[i] != requests[j] ==> Answer(size, requests, j) != Answer(size, requests, i)
  {
    AnswerStays(size, requests, i, j);
    if requests[i] != requests[j] && Answer(size, requests, j) != 0 {
      AnswerStays(size, requests, i, j + 1);
      AnswerStays(size, requests, j, j + 1);
      hide WellFormed, LabelOf, Answer;
      LabelsDiffer(OpenAll([], size, requests[..j + 1]), size, requests[i], requests[j]);
    }
  }

  // ----- the room in the table

  /** No request before the n-th got a label for this symbol. */
  ghost predicate Unlabelled(size: nat, requests: seq<Request>, n: nat, r: Request)
    requires n <= |requests|
  {
    forall i :: 0 <= i < n && requests[i] == r ==> Answer(size, requests, i) == 0
  }

  /** The bytes of the symbols labelled by the first n requests, each symbol counted once. */
  ghost function Used(size: nat, requests: seq<Request>, n: nat): nat
    requires n <= |requests|
  {
    if n == 0 then 0
    else
      Used(size, requests, n - 1) +
      (if Answer(size, requests, n - 1) != 0 && Unlabelled(size, requests, n - 1, requests[n - 1])
       then |requests[n - 1].name| + 6 else 0)
  }

  ghost predicate Holds(entries: seq<Entry>, r: Request) {
    exists k :: 0 <= k < |entries| && Is(entries[k], r.name, r.channel)
  }

  function Table(size: nat, requests: seq<Request>, n: nat): seq<Entry>
    requires n <= |requests|
  {
    OpenAll([], size, requests[..n])
  }

  lemma NextTable(size: nat, requests: seq<Request>, n: nat)
    requires n < |requests| && size > 0
    ensures var r := requests[n];
      (Table(size, requests, n + 1), Answer(size, requests, n)) ==
        Open(Table(size, requests, n), size, r.name, r.channel)
    ensures WellFormed(Table(size, requests, n), size)
  {
    hide Open, WellFormed;
    assert requests[..n + 1] == requests[..n] + [requests[n]];
    OpenAllSplits([], size, requests[..n], [requests[n]]);
    EmptyIsWellFormed(size);
    OpenAllKeeps([], size, requests[..n]);
  }

  lemma OpenHolds(entries: seq<Entry>, size: nat, r: Request, other: Request)
    requires WellFormed(entries, size)
    ensures var (entries', handle) := Open(entries, size, r.name, r.channel);
      && (Holds(entries', other) <==> Holds(entries, other) || (other == r && handle != 0))
      && (Holds(entries, r) ==> handle != 0)
      && NextFree(entries') == NextFree(entries) + (if handle != 0 && !Holds(entries, r) then |r.name| + 6 else 0)
      && (!Holds(entries, r) && handle != 0 ==> handle == NextFree(entries))
      && (!Holds(entries, r) ==> (handle == 0 <==> NextFree(entries) + |r.name| + 5 >= size))
  {
    LabelMissing(entries, size, r.name, r.channel);
    var (entries', handle) := Open(entries, size, r.name, r.channel);
    assert forall k :: 0 <= k < |entries| ==> entries'[k] == entries[k];
    if |entries'| > |entries| { assert Is(entries'[|entries|], r.name, r.channel); }
  }

  /** The table holds exactly the symbols that got a label, without gaps. */
  lemma {:induction false} TableHolds(size: nat, requests: seq<Request>, n: nat)
    requires n <= |requests| && size > 0
    ensures forall r :: Holds(Table(size, requests, n), r) <==> !Unlabelled(size, requests, n, r)
    ensures NextFree(Table(size, requests, n)) == 1 + Used(size, requests, n)
  {
    if n > 0 {
      NextTable(size, requests, n - 1);
      TableHolds(size, requests, n - 1);
      forall other
        ensures Holds(Table(size, requests, n), other) <==> !Unlabelled(size, requests, n, other)
      {
        OpenHolds(Table(size, requests, n - 1), size, requests[n - 1], other);
        hide Table, Answer, Open, Holds, NextFree, WellFormed;
      }
      OpenHolds(Table(size, requests, n - 1), size, requests[n - 1], requests[n - 1]);
      hide Table, Answer, Open, Holds, NextFree, WellFormed, Unlabelled;
    }
  }

  /** A request is refused exactly when its symbol has no label yet and the symbols that have one
      leave too little of the table; otherwise a new symbol gets the first free position. So every
      symbol gets a label while there is room. */
  lemma RefusedIff(size: nat, requests: seq<Request>, n: nat)
    requires n < |requests| && size > 0
    ensures Answer(size, requests, n) == 0 <==>
      && (forall i :: 0 <= i < n && requests[i] == requests[n] ==> Answer(size, requests, i) == 0)
      && 1 + Used(size, requests, n) + |requests[n].name| + 5 >= size
    ensures Unlabelled(size, requests, n, requests[n]) && Answer(size, requests, n) != 0 ==>
      Answer(size, requests, n) == 1 + Used(size, requests, n)
  {
    NextTable(size, requests, n);
    TableHolds(size, requests, n);
    OpenHolds(Table(size, requests, n), size, requests[n], requests[n]);
    hide Table, Answer, Open, Holds, NextFree, WellFormed;
  }
}
