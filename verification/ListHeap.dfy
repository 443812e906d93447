/** list.c: the circular doubly linked list on the heap. */
module ListHeap {
  import opened Ticks
  import S = ListSpec

  class ListItem {
    var itemValue: Tick
    var next: ListItem?
    var previous: ListItem?
    var container: List?
    /** The list whose end marker this item is, if it is one. */
    ghost var endOf: List?

    /** vListInitialiseItem, for a new item with its value set. */
    constructor (value: Tick)
      ensures itemValue == value && container == null && endOf == null
    {
      itemValue, next, previous, container, endOf := value, null, null, null, null;
    }
  }

  class List {
    var numberOfItems: nat
    var index: ListItem
    const listEnd: ListItem
    ghost var items: seq<ListItem>
    ghost var indexPosition: nat

    /** The end marker, the items in order, and the end marker again. */
    ghost function Nodes(): (r: seq<ListItem>)
      reads this
      ensures |r| == |items| + 2
    {
      [listEnd] + items + [listEnd]
    }

    /** One ring through the end marker holding exactly the items, each pointing back. */
    ghost predicate Valid()
      reads this, listEnd, items
    {
      && numberOfItems == |items|
      && S.Distinct(items)
      && (forall x :: x in items ==> x.container == this && x.endOf == null)
      && listEnd.endOf == this && listEnd.container == null && listEnd.itemValue == MAX_DELAY
      && Linked(Nodes())
      && indexPosition <= |items| && index == Nodes()[indexPosition]
    }

    ghost function View(): S.List<ListItem>
      reads this
    {
      S.List(items, indexPosition)
    }

    ghost function Values(): (r: seq<Tick>)
      reads this, items
      ensures |r| == |items|
    {
      seq(|items|, k requires 0 <= k < |items| reads this, items => items[k].itemValue)
    }

    /** vListInitialise. */
    constructor ()
      ensures Valid() && fresh(listEnd) && View() == S.List([], 0)
    {
      var marker := new ListItem(MAX_DELAY);
      listEnd, index := marker, marker;
      numberOfItems := 0;
      items, indexPosition := [], 0;
      new;
      listEnd.next, listEnd.previous := listEnd, listEnd;
      listEnd.endOf := this;
    }

    /** What both insertions end with: link the item in after node p and count it. */
    method LinkIn(item: ListItem, before: ListItem, after: ListItem, ghost p: nat)
      requires Valid() && item.container == null && item.endOf == null
      requires p <= |items| && before == Nodes()[p] && after == Nodes()[p + 1]
      modifies this`numberOfItems, this`items, this`indexPosition, listEnd`next, listEnd`previous,
               items`next, items`previous, item`next, item`previous, item`container
      ensures items == S.Insert(old(items), p, item)
      ensures indexPosition == if old(indexPosition) > p then old(indexPosition) + 1 else old(indexPosition)
      ensures Valid() && item.container == this
    {
      hide Linked, DistinctRing, S.Distinct, S.Insert;
      ghost var nodes := Nodes();
      NodesDistinct();
      NewToList(item);
      S.InsertMembers(items, p, item);
      NodesInsert(listEnd, items, p, item);
      IndexInserted(nodes, indexPosition, p, item);
      item.container := this;
      numberOfItems := numberOfItems + 1;
      indexPosition := if indexPosition > p then indexPosition + 1 else indexPosition;
      items := S.Insert(items, p, item);
      SpliceIn(item, before, after, nodes, p);
    }

    lemma NewToList(item: ListItem)
      requires Valid() && item.container == null && item.endOf == null
      ensures item !in items && item !in Nodes() && item != listEnd
    {
      hide Linked, S.Distinct;
    }

    /** vListInsertEnd: the item goes just before the one the index points at. */
    method InsertEnd(item: ListItem)
      requires Valid() && item.container == null && item.endOf == null
      modifies this`numberOfItems, this`items, this`indexPosition, listEnd`next, listEnd`previous,
               items`next, items`previous, item`next, item`previous, item`container
      ensures Valid() && item.container == this
      ensures View() == S.InsertEnd(old(View()), item)
    {
      ghost var p := if indexPosition == 0 then |items| else indexPosition - 1;
      assert Nodes()[p + 1] == index && Nodes()[p].next == Nodes()[p + 1];
      LinkIn(item, index.previous, index, p);
      assert old(indexPosition) == 0 ==> items == old(items) + [item];
    }

    /** The search of vListInsert: the walk from the end marker to the insertion point terminates
        because the end marker's value exceeds every value it is made for. */
    method FindPlace(value: Tick) returns (cursor: ListItem, ghost p: nat)
      requires Valid()
      ensures p == S.SortedPosition(Values(), value)
      ensures p <= |items| && cursor == Nodes()[p] && cursor.next == Nodes()[p + 1]
    {
      p := |items|;
      if value == MAX_DELAY {
        assert Nodes()[p + 1].previous == Nodes()[p];
        cursor := listEnd.previous;
      } else {
        cursor, p := listEnd, 0;
        while cursor.next.itemValue <= value
          invariant p <= |items| && cursor == Nodes()[p] && cursor.next == Nodes()[p + 1]
          invariant forall k :: 0 <= k < p ==> Values()[k] <= value
          decreases |items| - p
        {
          cursor, p := cursor.next, p + 1;
        }
        assert p < |items| ==> value < Values()[p];
        S.SortedPositionUnique(Values(), value, p);
      }
      assert Nodes()[p].next == Nodes()[p + 1];
    }

    lemma NotListed(item: ListItem)
      requires Valid() && item.container == null
      ensures item !in items
    {
      hide Linked, S.Distinct;
    }

    /** vListInsert. */
    method Insert(item: ListItem)
      requires Valid() && item.container == null && item.endOf == null
      modifies this`numberOfItems, this`items, this`indexPosition, listEnd`next, listEnd`previous,
               items`next, items`previous, item`next, item`previous, item`container
      ensures Valid() && item.container == this
      ensures var p := S.SortedPosition(old(Values()), item.itemValue);
        && items == S.Insert(old(items), p, item)
        && Values() == S.Insert(old(Values()), p, item.itemValue)
        && indexPosition == if old(indexPosition) > p then old(indexPosition) + 1 else old(indexPosition)
    {
      hide Valid, S.SortedPosition;
      var value := item.itemValue;
      var cursor, p := FindPlace(value);
      NotListed(item);
      ghost var values := Values();
      LinkIn(item, cursor, cursor.next, p);
      InsertIs(values, p, value, Values());
    }

    /** listGET_OWNER_OF_NEXT_ENTRY. */
    method NextEntry() returns (item: ListItem)
      requires Valid() && items != []
      modifies this`index, this`indexPosition
      ensures Valid() && View() == S.Next(old(View())) && item == S.Current(View())
    {
      assert Nodes()[indexPosition].next == Nodes()[indexPosition + 1];
      assert Nodes()[0].next == Nodes()[1];
      index := index.next;
      indexPosition := indexPosition + 1;
      if index == listEnd {
        index := index.next;
        indexPosition := 1;
      }
      item := index;
    }

    lemma NodesDistinct()
      requires Valid()
      ensures DistinctRing(Nodes())
    {
      forall i | 1 <= i <= |items| ensures Nodes()[i] == items[i - 1] && Nodes()[i] != listEnd {}
    }
  }

  lemma NodesInsert(marker: ListItem, items: seq<ListItem>, p: nat, item: ListItem)
    requires p <= |items|
    ensures [marker] + S.Insert(items, p, item) + [marker] == S.Insert([marker] + items + [marker], p + 1, item)
  {
  }

  lemma InsertIs(values: seq<Tick>, p: nat, value: Tick, r: seq<Tick>)
    requires p <= |values| && |r| == |values| + 1 && r[p] == value
    requires (forall k :: 0 <= k < p ==> r[k] == values[k]) && (forall k :: p < k < |r| ==> r[k] == values[k - 1])
    ensures r == S.Insert(values, p, value)
  {
    var s := S.Insert(values, p, value);
    forall k | 0 <= k < |r| ensures r[k] == s[k] {
      assert s[k] == if k < p then values[k] else if k == p then value else values[k - 1];
    }
  }

  /** The index stays on its node. */
  lemma IndexInserted(nodes: seq<ListItem>, index: nat, p: nat, item: ListItem)
    requires index < |nodes| && p + 1 <= |nodes|
    ensures S.Insert(nodes, p + 1, item)[if index > p then index + 1 else index] == nodes[index]
  {
  }

  lemma RestMembers(items: seq<ListItem>, position: nat)
    requires position < |items| && S.Distinct(items)
    ensures S.Distinct(S.Without(items, position)) && |S.Without(items, position)| == |items| - 1
    ensures forall x :: x in S.Without(items, position) ==> x in items && x != items[position]
  {
    S.WithoutMembers(items, position);
  }

  lemma NeighboursOf(nodes: seq<ListItem>, p: nat)
    requires Linked(nodes) && 0 < p < |nodes| - 1
    ensures nodes[p].previous == nodes[p - 1] && nodes[p].next == nodes[p + 1]
  {
    assert nodes[p - 1].next == nodes[p] && nodes[p].next == nodes[p + 1];
  }

  /** The index stays on its node, or goes to the one before if that is taken out. */
  lemma IndexRemoved(nodes: seq<ListItem>, index: nat, p: nat)
    requires index < |nodes| - 1 && 0 < p < |nodes| - 1 && DistinctRing(nodes)
    ensures nodes[index] == nodes[p] <==> index == p
    ensures S.Without(nodes, p)[if index >= p then index - 1 else index] == if index == p then nodes[p - 1]
      else nodes[index]
  {
  }

  lemma NodesWithout(marker: ListItem, items: seq<ListItem>, position: nat)
    requires position < |items|
    ensures [marker] + S.Without(items, position) + [marker] == S.Without([marker] + items + [marker], position + 1)
    ensures |S.Without(items, position)| == |items| - 1
  {
  }

  /** All nodes differ, except that the first and the last are both the end marker. */
  ghost predicate DistinctRing(nodes: seq<ListItem>) {
    && (forall i, j :: 0 <= i < j < |nodes| - 1 ==> nodes[i] != nodes[j])
    && (forall i, j :: 1 <= i < j < |nodes| ==> nodes[i] != nodes[j])
  }

  /** Consecutive nodes point at each other. */
  ghost predicate Linked(nodes: seq<ListItem>)
    reads nodes
  {
    forall i :: 0 <= i < |nodes| - 1 ==> nodes[i].next == nodes[i + 1] && nodes[i + 1].previous == nodes[i]
  }

  ghost predicate LinkedExcept(nodes: seq<ListItem>, p: nat)
    reads nodes
  {
    forall i :: 0 <= i < |nodes| - 1 && i != p ==> nodes[i].next == nodes[i + 1] && nodes[i + 1].previous == nodes[i]
  }

  lemma LinkedSplice(nodes: seq<ListItem>, p: nat, item: ListItem)
    requires p + 1 < |nodes| && LinkedExcept(nodes, p)
    requires nodes[p].next == item && item.previous == nodes[p]
    requires item.next == nodes[p + 1] && nodes[p + 1].previous == item
    ensures Linked(S.Insert(nodes, p + 1, item))
  {
  }

  /** The four pointer assignments that put an item between two neighbours. */
  method SpliceIn(item: ListItem, before: ListItem, after: ListItem, ghost nodes: seq<ListItem>, ghost p: nat)
    requires p + 1 < |nodes| && before == nodes[p] && after == nodes[p + 1] && item !in nodes
    requires Linked(nodes)
    requires DistinctRing(nodes)
    modifies item`next, item`previous, before`next, after`previous
    ensures Linked(S.Insert(nodes, p + 1, item))
  {
    item.next, item.previous := after, before;
    before.next, after.previous := item, item;
    LinkedSplice(nodes, p, item);
  }

  lemma LinkedWithout(nodes: seq<ListItem>, p: nat)
    requires 0 < p < |nodes| - 1
    requires nodes[p - 1].next == nodes[p + 1] && nodes[p + 1].previous == nodes[p - 1]
    requires forall i :: 0 <= i < |nodes| - 1 && i != p - 1 && i != p ==>
               nodes[i].next == nodes[i + 1] && nodes[i + 1].previous == nodes[i]
    ensures Linked(S.Without(nodes, p))
  {
  }

  /** The two pointer assignments that take node p out of its ring. */
  method Unlink(item: ListItem, ghost before: ListItem, ghost after: ListItem, ghost nodes: seq<ListItem>, ghost p: nat)
    requires 0 < p < |nodes| - 1 && item == nodes[p] && before == nodes[p - 1] && after == nodes[p + 1]
    requires Linked(nodes) && DistinctRing(nodes)
    modifies before`next, after`previous
    ensures Linked(S.Without(nodes, p))
  {
    assert nodes[p - 1].next == nodes[p] && nodes[p + 1].previous == nodes[p];
    item.next.previous := item.previous;
    item.previous.next := item.next;
    LinkedWithout(nodes, p);
  }

  /** uxListRemove: the item knows its list; an index on the item steps back. */
  method Remove(item: ListItem, ghost list: List, ghost position: nat) returns (left: nat)
    requires item.container == list && list.Valid()
    requires position < |list.items| && list.items[position] == item
    modifies list, list.listEnd`next, list.listEnd`previous, list.items`next, list.items`previous, item`container
    ensures list.Valid() && item.container == null && item !in list.items
    ensures list.View() == S.Remove(old(list.View()), position)
    ensures left == |list.items|
  {
    hide Linked, DistinctRing, S.Distinct, S.Without;
    var pxList := item.container;
    ghost var nodes, p := pxList.Nodes(), position + 1;
    pxList.NodesDistinct();
    RestMembers(pxList.items, position);
    NodesWithout(pxList.listEnd, pxList.items, position);
    NeighboursOf(nodes, p);
    IndexRemoved(nodes, pxList.indexPosition, p);
    Unlink(item, nodes[p - 1], nodes[p + 1], nodes, p);
    assert item != pxList.listEnd && item !in S.Without(nodes, p);
    if pxList.index == item { pxList.index := item.previous; }
    pxList.indexPosition := if pxList.indexPosition >= p then pxList.indexPosition - 1 else pxList.indexPosition;
    item.container := null;
    pxList.numberOfItems := pxList.numberOfItems - 1;
    pxList.items := S.Without(pxList.items, position);
    left := pxList.numberOfItems;
  }

  /** Two lists share no node, so no operation on one can disturb the other. */
  lemma ListsAreDisjoint(a: List, b: List)
    requires a != b && a.Valid() && b.Valid()
    ensures forall x :: x in a.Nodes() ==> x !in b.Nodes()
  {
  }
}
