/** Operations on the child list of an item: cJSON_AddItemToArray, cJSON_InsertItemInArray and
    cJSON_DetachItemFromArray (cjson.c), each proved to change the list as a sequence. */
module JsonList {
  import opened Sequences
  import opened JsonTree

  method SuffixObject(prev: Node, item: Node)
    modifies prev`next, item`prev
    ensures prev.next == item && item.prev == prev
  {
    prev.next := item;
    item.prev := prev;
  }

  /** A head's prev that is neither unset nor the last item does not point into the list. */
  ghost predicate NotInside(kids: seq<Node>)
    reads kids`prev
  {
    kids != [] && kids[0].prev != null && kids[0].prev != Last(kids) ==> kids[0].prev !in kids
  }

  /** Where the head's prev points, if it points anywhere. */
  ghost function HeadPrev(list: Node): set<Node>
    reads list`kids, list.kids
  {
    if list.kids != [] && list.kids[0].prev != null then {list.kids[0].prev} else {}
  }

  /** The item that add_item_to_array appends to: the one in the head's prev, or else the end of the
      walk along next. */
  method AppendPoint(list: Node) returns (last: Node)
    requires list.Linked() && list.child != null
    ensures list.kids != []
    ensures last == if list.kids[0].prev != null then list.kids[0].prev else Last(list.kids)
  {
    last := list.child;
    if last.prev != null {
      return last.prev;
    }
    ghost var i := 0;
    while last.next != null
      invariant 0 <= i < |list.kids| && last == list.kids[i] && last.next == Follower(list.kids, i, null)
      decreases |list.kids| - i
    {
      last := last.next;
      i := i + 1;
    }
  }

  /** An item linked behind the last one makes a chain. */
  lemma AppendedChain(kids: seq<Node>, item: Node)
    requires kids != [] && item !in kids && item.next == null && item.prev == Last(kids)
    requires forall i, j :: 0 <= i < j < |kids| ==> kids[i] != kids[j]
    requires forall i {:trigger kids[i].next} :: 0 <= i < |kids| ==> kids[i].next == if i < |kids| - 1 then kids[i + 1] else item
    requires forall i {:trigger kids[i].prev} :: 0 < i < |kids| ==> kids[i].prev == kids[i - 1]
    ensures Chain(kids + [item], null)
  {
  }

  /** add_item_to_array: the item becomes the last of the list, and the head caches it, exactly when
      the head's prev was not stale. Otherwise the list stays as it is and the item is lost to it. */
  method AddItem(list: Node, item: Node) returns (ok: bool)
    requires list.Linked() && list !in list.kids && item !in list.kids
    requires NotInside(list.kids)
    requires list.child != null ==> item.next == null
    modifies list`child, list`kids, item`prev, item`next, list.kids`prev, list.kids`next, HeadPrev(list)`next
    ensures ok <==> item != list
    ensures !ok ==> list.Linked() && list.kids == old(list.kids)
    ensures ok && old(list.ListForm()) ==> list.ListForm() && list.TailCached() && list.kids == old(list.kids) + [item]
    ensures ok && !old(list.ListForm()) ==> list.Linked() && list.kids == old(list.kids) && list.kids[0].prev == item
  {
    if item == list {
      return false;
    }
    ghost var known := TailKnown(list.kids);
    if list.child == null {
      list.child := item;
      item.prev := item;
      item.next := null;
    } else {
      var last := AppendPoint(list);
      SuffixObject(last, item);
      list.child.prev := item;
    }
    if known {
      if list.kids != [] {
        AppendedChain(list.kids, item);
      }
      list.kids := list.kids + [item];
    }
    ok := true;
  }

  /** get_array_item: the item at an index, or null. */
  method GetItem(list: Node, index: nat) returns (r: Node?)
    requires list.Linked()
    ensures r == if index < |list.kids| then list.kids[index] else null
  {
    r := list.child;
    ghost var i := 0;
    var left := index;
    while r != null && left > 0
      invariant 0 <= i <= |list.kids| && i + left == index
      invariant r == if i < |list.kids| then list.kids[i] else null
      invariant r != null ==> r.next == Follower(list.kids, i, null)
      decreases left
    {
      r := r.next;
      left := left - 1;
      i := i + 1;
    }
  }

  /** Setting the links of an inserted item and its neighbours. */
  method LinkBefore(list: Node, ghost which: nat, item: Node, after: Node)
    requires list.Linked() && list !in list.kids && item !in list.kids && item != list
    requires which < |list.kids| && after == list.kids[which]
    modifies list`child, item`prev, item`next, list.kids`prev, list.kids`next
    ensures list.child == (if which == 0 then item else old(list.child))
    ensures item.next == after && after.prev == item && item.prev == old(after.prev)
    ensures which > 0 ==> list.kids[which - 1].next == item
    ensures forall i {:trigger list.kids[i].next} :: 0 <= i < |list.kids| && i != which - 1 ==> list.kids[i].next == old(list.kids[i].next)
    ensures forall i {:trigger list.kids[i].prev} :: 0 <= i < |list.kids| && i != which ==> list.kids[i].prev == old(list.kids[i].prev)
  {
    item.next := after;
    item.prev := after.prev;
    after.prev := item;
    if after == list.child {
      list.child := item;
    } else {
      item.prev.next := item;
    }
  }

  /** An item linked in between its neighbours makes a chain with them. */
  lemma InsertedChain(was: seq<Node>, now: seq<Node>, which: nat, item: Node)
    requires which < |was| && now == InsertAt(was, which, item) && item !in was
    requires forall i, j :: 0 <= i < j < |was| ==> was[i] != was[j]
    requires item.next == was[which] && was[which].prev == item
    requires which > 0 ==> was[which - 1].next == item && item.prev == was[which - 1]
    requires forall i {:trigger was[i].next} :: 0 <= i < |was| && i != which - 1 ==> was[i].next == Follower(was, i, null)
    requires forall i {:trigger was[i].prev} :: 0 < i < |was| && i != which ==> was[i].prev == was[i - 1]
    ensures Chain(now, null)
  {
    forall i | 0 <= i < |now|
      ensures now[i].next == Follower(now, i, null)
      ensures i > 0 ==> now[i].prev == now[i - 1]
    {
      assert i < which ==> now[i] == was[i];
      assert i > which ==> now[i] == was[i - 1];
    }
  }

  method InsertBefore(list: Node, ghost which: nat, item: Node, after: Node)
    requires list.Linked() && NotInside(list.kids) && list !in list.kids && item !in list.kids && item != list
    requires which < |list.kids| && after == list.kids[which]
    modifies list`child, list`kids, item`prev, item`next, list.kids`prev, list.kids`next
    ensures list.Linked() && list.kids == InsertAt(old(list.kids), which, item)
    ensures list.ListForm() <==> old(list.ListForm())
  {
    LinkBefore(list, which, item, after);
    list.kids := InsertAt(list.kids, which, item);
    InsertedChain(old(list.kids), list.kids, which, item);
  }

  /** cJSON_InsertItemInArray: at an index inside the list, before the item there; beyond its end, as AddItem does. */
  method InsertItem(list: Node, which: int, item: Node) returns (ok: bool)
    requires list.Linked() && NotInside(list.kids) && list !in list.kids && item !in list.kids && item != list
    requires which >= |list.kids| > 0 ==> item.next == null
    modifies list`child, list`kids, item`prev, item`next, list.kids`prev, list.kids`next, HeadPrev(list)`next
    ensures ok <==> which >= 0
    ensures !ok ==> list.kids == old(list.kids)
    ensures list.Linked() && (list.ListForm() <==> old(list.ListForm()))
    ensures ok && (which < |old(list.kids)| || old(list.ListForm())) ==>
              list.kids == InsertAt(old(list.kids), if which < |old(list.kids)| then which else |old(list.kids)|, item)
    ensures ok && which >= |old(list.kids)| && !old(list.ListForm()) ==> list.kids == old(list.kids) && list.kids[0].prev == item
  {
    if which < 0 {
      return false;
    }
    var after := GetItem(list, which);
    if after == null {
      ok := AddItem(list, item);
      return;
    }
    InsertBefore(list, which, item, after);
    ok := true;
  }

  /** Taking an item out of the links of its neighbours. */
  method Unlink(list: Node, item: Node, ghost i: nat)
    requires list.Linked() && list !in list.kids && i < |list.kids| && list.kids[i] == item
    modifies list`child, list.kids`prev, list.kids`next
    ensures list.child == (if i == 0 then Follower(list.kids, i, null) else old(list.child))
    ensures item.next == null && item.prev == null
    ensures i > 0 ==> list.kids[i - 1].next == old(item.next)
    ensures i + 1 < |list.kids| ==> list.kids[i + 1].prev == old(item.prev)
    ensures forall j {:trigger list.kids[j].next} :: 0 <= j < |list.kids| && j != i - 1 && j != i ==> list.kids[j].next == old(list.kids[j].next)
    ensures forall j {:trigger list.kids[j].prev} :: 0 <= j < |list.kids| && j != i + 1 && j != i ==> list.kids[j].prev == old(list.kids[j].prev)
  {
    if item != list.child {
      item.prev.next := item.next;
    }
    if item.next != null {
      item.next.prev := item.prev;
    }
    if item == list.child {
      list.child := item.next;
    }
    item.prev := null;
    item.next := null;
  }

  /** The neighbours of an item taken out make a chain. */
  lemma RemovedChain(was: seq<Node>, now: seq<Node>, which: nat)
    requires which < |was| && now == RemoveAt(was, which)
    requires forall i, j :: 0 <= i < j < |was| ==> was[i] != was[j]
    requires which > 0 ==> was[which - 1].next == Follower(was, which, null)
    requires 0 < which < |was| - 1 ==> was[which + 1].prev == was[which - 1]
    requires forall i {:trigger was[i].next} :: 0 <= i < |was| && i != which - 1 && i != which ==> was[i].next == Follower(was, i, null)
    requires forall i {:trigger was[i].prev} :: 0 < i < |was| && i != which && i != which + 1 ==> was[i].prev == was[i - 1]
    ensures Chain(now, null)
  {
    forall i | 0 <= i < |now|
      ensures now[i].next == Follower(now, i, null)
      ensures i > 0 ==> now[i].prev == now[i - 1]
    {
      assert i < which ==> now[i] == was[i];
      assert i >= which ==> now[i] == was[i + 1];
    }
  }

  /** The ends of a list that has lost an item. */
  lemma RemovedEnds(kids: seq<Node>, i: nat)
    requires i < |kids|
    ensures var now := RemoveAt(kids, i);
            && (now == [] <==> |kids| == 1) && (forall k :: k in now ==> k in kids)
            && (now != [] ==> now[0] == kids[if i == 0 then 1 else 0])
            && (now != [] ==> Last(now) == kids[if i == |kids| - 1 then i - 1 else |kids| - 1])
  {
  }

  /** cJSON_DetachItemViaPointer: the item leaves the list. What remains of a well-formed list is well-formed unless the
      item was the cached last one of several: then the head still points to it. A stale head stays stale as long as the
      list has a head. */
  method DetachItem(list: Node, item: Node, ghost i: nat)
    requires list.Linked() && NotInside(list.kids) && list !in list.kids && i < |list.kids| && list.kids[i] == item
    modifies list`child, list`kids, list.kids`prev, list.kids`next
    ensures list.Linked() && list.kids == RemoveAt(old(list.kids), i)
    ensures item.next == null && item.prev == null
    ensures list.ListForm() <==>
              list.kids == [] || (old(list.ListForm()) && !(old(list.TailCached()) && 0 < i == |old(list.kids)| - 1))
    ensures !list.ListForm() ==> list.child.prev == (if old(list.ListForm()) then item else old(list.kids[0].prev))
    ensures NotInside(list.kids)
  {
    hide RemoveAt;
    RemovedEnds(list.kids, i);
    Unlink(list, item, i);
    list.kids := RemoveAt(list.kids, i);
    RemovedChain(old(list.kids), list.kids, i);
  }

  /** cJSON_DetachItemFromArray. */
  method DetachAt(list: Node, which: int) returns (r: Node?)
    requires list.Linked() && NotInside(list.kids) && list !in list.kids
    modifies list`child, list`kids, list.kids`prev, list.kids`next
    ensures r == if 0 <= which < |old(list.kids)| then old(list.kids)[which] else null
    ensures list.Linked() && NotInside(list.kids)
    ensures r == null ==> list.kids == old(list.kids) && (list.ListForm() <==> old(list.ListForm()))
    ensures r != null ==> list.kids == RemoveAt(old(list.kids), which)
    ensures r != null ==>
              (list.ListForm() <==>
               list.kids == [] || (old(list.ListForm()) && !(old(list.TailCached()) && 0 < which == |old(list.kids)| - 1)))
    ensures r != null && !list.ListForm() ==> list.child.prev == (if old(list.ListForm()) then r else old(list.kids[0].prev))
  {
    if which < 0 {
      return null;
    }
    r := GetItem(list, which);
    if r != null {
      DetachItem(list, r, which);
    }
  }

  lemma NoItems(list: Node)
    requires list.kids == [] && list.child == null
    ensures list.ListForm()
  {
  }

  method TwoItems() returns (list: Node, first: Node, second: Node)
    ensures fresh(list) && fresh(first) && fresh(second) && list != first && list != second && first != second
    ensures list.ListForm() && list.TailCached() && list.kids == [first, second]
  {
    hide Chain;
    list := new Node();
    assert list.ListForm() by { NoItems(list); }
    first := new Node();
    second := new Node();
    var ok := AddItem(list, first);
    ok := AddItem(list, second);
  }

  /** Of three items appended to an empty list, with the second taken off again before the third, the third is lost. */
  method AppendAfterDetach() returns (list: Node, first: Node, third: Node)
    ensures list.Linked() && list.kids == [first] && third !in list.kids && !list.ListForm()
    ensures list.child == first && first.next == null && first.prev == third
  {
    var second;
    list, first, second := TwoItems();
    var off := DetachAt(list, 1);
    assert list.kids == [first];
    third := new Node();
    var ok := AddItem(list, third);
  }
}
