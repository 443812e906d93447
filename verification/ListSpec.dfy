/** The kernel lists as values: the items in order from the head, and how far the walking
    index has come (0 is the end marker, k is the k-th item). */
module ListSpec {
  import opened Ticks

  datatype List<T> = List(items: seq<T>, index: nat)

  predicate Valid<T>(l: List<T>) {
    l.index <= |l.items|
  }

  ghost predicate Distinct<T>(s: seq<T>) {
    forall i, j :: 0 <= i < j < |s| ==> s[i] != s[j]
  }

  function Insert<T>(s: seq<T>, position: nat, x: T): (r: seq<T>)
    requires position <= |s|
    ensures |r| == |s| + 1
    ensures forall i :: 0 <= i < |r| ==> r[i] == if i < position then s[i] else if i == position then x else s[i - 1]
  {
    s[..position] + [x] + s[position..]
  }

  lemma InsertMembers<T>(s: seq<T>, position: nat, x: T)
    requires position <= |s|
    ensures forall y :: y in Insert(s, position, x) <==> y in s || y == x
    ensures Distinct(s) && x !in s ==> Distinct(Insert(s, position, x))
  {
    var r := Insert(s, position, x);
    assert r[position] == x;
    assert forall i :: 0 <= i < |s| ==> s[i] == r[if i < position then i else i + 1];
  }

  /** vListInsertEnd puts the item just before the one the index points at. */
  function InsertEnd<T>(l: List<T>, x: T): List<T> {
    if 0 < l.index <= |l.items| then List(Insert(l.items, l.index - 1, x), l.index + 1)
    else List(l.items + [x], l.index)
  }

  /** The first position whose value exceeds the new one; the end for portMAX_DELAY. */
  function SortedPosition(values: seq<Tick>, value: Tick): (p: nat)
    ensures p <= |values|
    ensures value == MAX_DELAY ==> p == |values|
    ensures value < MAX_DELAY ==> forall k :: 0 <= k < p ==> values[k] <= value
    ensures value < MAX_DELAY ==> p < |values| ==> value < values[p]
  {
    if value == MAX_DELAY then |values|
    else if values == [] || value < values[0] then 0
    else
      assert forall k :: 0 < k < |values| ==> values[k] == values[1..][k - 1];
      1 + SortedPosition(values[1..], value)
  }

  lemma SortedPositionUnique(values: seq<Tick>, value: Tick, p: nat)
    requires p <= |values| && value < MAX_DELAY
    requires forall k :: 0 <= k < p ==> values[k] <= value
    requires p < |values| ==> value < values[p]
    ensures p == SortedPosition(values, value)
  {
    var q := SortedPosition(values, value);
    if p < |values| { assert value < values[p]; }
  }

  function Without<T(==)>(s: seq<T>, position: nat): (r: seq<T>)
    requires position < |s|
  {
    s[..position] + s[position + 1..]
  }

  lemma WithoutMembers<T>(s: seq<T>, position: nat)
    requires position < |s| && Distinct(s)
    ensures Distinct(Without(s, position))
    ensures forall y :: y in Without(s, position) <==> y in s && y != s[position]
  {
    var r := Without(s, position);
    forall y | y in s && y != s[position] ensures y in r {
      var i :| 0 <= i < |s| && s[i] == y;
      assert r[if i < position then i else i - 1] == y;
    }
  }

  /** uxListRemove of the item at a position: an index on it steps back. */
  function Remove<T(==)>(l: List<T>, position: nat): List<T>
    requires Valid(l) && position < |l.items|
  {
    List(Without(l.items, position), if l.index > position then l.index - 1 else l.index)
  }

  /** listGET_OWNER_OF_NEXT_ENTRY: advance, stepping over the end marker. */
  function Next<T>(l: List<T>): (r: List<T>)
    requires Valid(l) && l.items != []
    ensures Valid(r) && 0 < r.index && r.items == l.items
  {
    List(l.items, if l.index == |l.items| then 1 else l.index + 1)
  }

  function Current<T>(l: List<T>): T
    requires Valid(l) && 0 < l.index
  {
    l.items[l.index - 1]
  }

  /** The items in the order the index will visit them. */
  function Upcoming<T>(l: List<T>): (r: seq<T>)
    requires Valid(l)
    ensures |r| == |l.items|
  {
    l.items[l.index..] + l.items[..l.index]
  }

  // ----- sorted insertion

  ghost predicate Sorted(values: seq<Tick>) {
    forall i, j :: 0 <= i < j < |values| ==> values[i] <= values[j]
  }

  lemma InsertedSorted(values: seq<Tick>, p: nat, value: Tick)
    requires Sorted(values) && p <= |values|
    requires (forall k :: 0 <= k < p ==> values[k] <= value) && (forall k :: p <= k < |values| ==> value <= values[k])
    ensures Sorted(Insert(values, p, value))
  {
    var r := Insert(values, p, value);
    forall i, j | 0 <= i < j < |r| ensures r[i] <= r[j] {
      assert r[i] == (if i < p then values[i] else if i == p then value else values[i - 1]);
      assert r[j] == (if j < p then values[j] else if j == p then value else values[j - 1]);
    }
  }

  /** Insertion keeps a sorted list sorted, after all items of equal value and before all
      greater ones: stable, with portMAX_DELAY last. */
  lemma SortedInsertion(values: seq<Tick>, value: Tick)
    requires Sorted(values)
    ensures var p := SortedPosition(values, value);
      && Sorted(Insert(values, p, value))
      && (forall k :: 0 <= k < |values| ==> (values[k] <= value <==> k < p))
  {
    var p := SortedPosition(values, value);
    assert forall k :: 0 <= k < p ==> values[k] <= value;
    assert forall k :: p <= k < |values| ==> value < values[k];
    hide SortedPosition;
    InsertedSorted(values, p, value);
  }

  // ----- round robin

  function NextTimes<T>(l: List<T>, n: nat): (r: List<T>)
    requires Valid(l) && l.items != []
    ensures Valid(r) && r.items == l.items
  {
    if n == 0 then l else Next(NextTimes(l, n - 1))
  }

  /** What n consecutive next-entry steps return. */
  function Visited<T>(l: List<T>, n: nat): (r: seq<T>)
    requires Valid(l) && l.items != []
    ensures |r| == n
  {
    seq(n, k requires 0 <= k < n => Current(NextTimes(l, k + 1)))
  }

  lemma {:induction false} NextTimesIndex<T>(l: List<T>, n: nat)
    requires Valid(l) && 0 < n <= |l.items|
    ensures NextTimes(l, n).index == if l.index + n <= |l.items| then l.index + n else l.index + n - |l.items|
  {
    if n > 1 { NextTimesIndex(l, n - 1); }
  }

  lemma VisitIsUpcoming<T>(l: List<T>, k: nat)
    requires Valid(l) && k < |l.items|
    ensures Current(NextTimes(l, k + 1)) == Upcoming(l)[k]
  {
    NextTimesIndex(l, k + 1);
  }

  lemma VisitedIsUpcoming<T>(l: List<T>)
    requires Valid(l) && l.items != []
    ensures Visited(l, |l.items|) == Upcoming(l)
  {
    hide NextTimes, Upcoming;
    var visited, upcoming := Visited(l, |l.items|), Upcoming(l);
    forall k | 0 <= k < |l.items| ensures visited[k] == upcoming[k] { VisitIsUpcoming(l, k); }
  }

  /** With a fixed list of k items, k consecutive steps visit each item exactly once and
      bring the index back to its place (from the end marker, to the last item). */
  lemma RoundRobin<T>(l: List<T>)
    requires Valid(l) && l.items != []
    ensures Visited(l, |l.items|) == Upcoming(l)
    ensures multiset(Visited(l, |l.items|)) == multiset(l.items)
    ensures NextTimes(l, |l.items|).index == if l.index == 0 then |l.items| else l.index
  {
    VisitedIsUpcoming(l);
    RotationMultiset(l.items, l.index);
    NextTimesIndex(l, |l.items|);
    hide NextTimes, Visited;
  }

  lemma RotationMultiset<T>(s: seq<T>, i: nat)
    requires i <= |s|
    ensures multiset(s[i..] + s[..i]) == multiset(s)
  {
    assert s == s[..i] + s[i..];
    assert multiset(s[..i] + s[i..]) == multiset(s[..i]) + multiset(s[i..]);
  }

  /** vListInsertEnd makes the new item the last to be visited, except that the item the
      index is on, just visited, comes after it: no other item is postponed. */
  lemma InsertEndComesLast<T>(l: List<T>, x: T)
    requires Valid(l)
    ensures Valid(InsertEnd(l, x))
    ensures Upcoming(InsertEnd(l, x)) ==
      if l.index == 0 then Upcoming(l) + [x]
      else Upcoming(l)[..|l.items| - 1] + [x, Current(l)]
  {
    if l.index > 0 {
      var r := InsertEnd(l, x);
      assert r.items[r.index..] == l.items[l.index..];
      assert r.items[..r.index] == l.items[..l.index - 1] + [x, l.items[l.index - 1]];
    }
  }

  /** Removing an item leaves the order in which the others will be visited. */
  lemma RemoveKeepsOrder<T>(l: List<T>, position: nat)
    requires Valid(l) && position < |l.items|
    ensures Valid(Remove(l, position))
    ensures Upcoming(Remove(l, position)) ==
      Without(Upcoming(l), if position >= l.index then position - l.index else position + |l.items| - l.index)
  {
    var r := Remove(l, position);
    if position >= l.index {
      assert r.items[r.index..] == l.items[l.index..position] + l.items[position + 1..];
      assert r.items[..r.index] == l.items[..l.index];
    } else {
      assert r.items[r.index..] == l.items[l.index..];
      assert r.items[..r.index] == l.items[..position] + l.items[position + 1..l.index];
    }
  }
}
