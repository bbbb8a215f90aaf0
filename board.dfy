/**
 * The kanban board of the App component: containers (columns) that each hold
 * an ordered list of items, the two lookups the drag handlers use, and the
 * edits `handleDragMove` makes to the board while an item is dragged.
 */
module Board {
  import opened Wrappers
  import opened ArrayOps

  /** Container and item ids are strings such as `container-<uuid>` and `item-<uuid>`. */
  type Id = string

  datatype Item = Item(id: Id, title: string, position: int)

  datatype Container = Container(id: Id, title: string, description: string, position: int, items: seq<Item>)

  /** `s.includes(part)`: `part` occurs somewhere in `s`. */
  predicate Includes(s: string, part: string)
    decreases |s|
  {
    part <= s || (|s| > 0 && Includes(s[1..], part))
  }

  /** The board never holds two containers with the same id. */
  ghost predicate DistinctIds(cs: seq<Container>) {
    forall i, j :: 0 <= i < j < |cs| ==> cs[i].id != cs[j].id
  }

  /** `b` is `a` with at most the item lists changed: same containers, same order, same ids, titles and positions. */
  ghost predicate OnlyItemsDiffer(a: seq<Container>, b: seq<Container>) {
    |a| == |b| && forall k :: 0 <= k < |a| ==> b[k].(items := a[k].items) == a[k]
  }

  /** Boards whose containers differ only in their items have the same container ids. */
  lemma OnlyItemsDifferKeepsIds(a: seq<Container>, b: seq<Container>)
    requires OnlyItemsDiffer(a, b)
    ensures forall k :: 0 <= k < |a| ==> b[k].id == a[k].id
    ensures DistinctIds(a) ==> DistinctIds(b)
  {
    forall k | 0 <= k < |a| ensures b[k].id == a[k].id {
      assert b[k].(items := a[k].items).id == a[k].id;
    }
  }

  /** Changing only items, twice, changes only items. */
  lemma OnlyItemsDifferTrans(a: seq<Container>, b: seq<Container>, c: seq<Container>)
    requires OnlyItemsDiffer(a, b) && OnlyItemsDiffer(b, c)
    ensures OnlyItemsDiffer(a, c)
  {
    forall k | 0 <= k < |a| ensures c[k].(items := a[k].items) == a[k] {
      assert c[k].(items := b[k].items) == b[k];
      assert b[k].(items := a[k].items) == a[k];
    }
  }

  /** Every item on the board, counted with multiplicity. */
  ghost function BoardItems(cs: seq<Container>): multiset<Item> {
    if |cs| == 0 then multiset{} else multiset(cs[0].items) + BoardItems(cs[1..])
  }

  /** `items.findIndex(item => item.id === id)`: the first position of an item with that id, or -1. */
  function ItemIndex(items: seq<Item>, id: Option<Id>): (r: int)
    ensures -1 <= r < |items|
    ensures r == -1 <==> forall k :: 0 <= k < |items| ==> Some(items[k].id) != id
    ensures 0 <= r ==> Some(items[r].id) == id && forall k :: 0 <= k < r ==> Some(items[k].id) != id
  {
    if |items| == 0 then -1
    else if Some(items[0].id) == id then 0
    else
      var r := ItemIndex(items[1..], id);
      if r < 0 then -1 else r + 1
  }

  /** Some item of `c` has the id `id` (an absent id matches nothing). */
  ghost predicate HoldsItem(c: Container, id: Option<Id>) {
    exists k :: 0 <= k < |c.items| && Some(c.items[k].id) == id
  }

  /** `containers.findIndex(container => container.id === id)`: the first position of a container with that id, or -1. */
  function ContainerIndex(cs: seq<Container>, id: Option<Id>): (r: int)
    ensures -1 <= r < |cs|
    ensures r == -1 <==> forall k :: 0 <= k < |cs| ==> Some(cs[k].id) != id
    ensures 0 <= r ==> Some(cs[r].id) == id && forall k :: 0 <= k < r ==> Some(cs[k].id) != id
  {
    if |cs| == 0 then -1
    else if Some(cs[0].id) == id then 0
    else
      var r := ContainerIndex(cs[1..], id);
      if r < 0 then -1 else r + 1
  }

  /** The position of the first container holding an item with that id, or -1. */
  function HolderIndex(cs: seq<Container>, id: Option<Id>): (r: int)
    ensures -1 <= r < |cs|
    ensures r == -1 <==> forall k :: 0 <= k < |cs| ==> !HoldsItem(cs[k], id)
    ensures 0 <= r ==> HoldsItem(cs[r], id) && forall k :: 0 <= k < r ==> !HoldsItem(cs[k], id)
  {
    if |cs| == 0 then -1
    else if ItemIndex(cs[0].items, id) >= 0 then 0
    else
      var r := HolderIndex(cs[1..], id);
      if r < 0 then -1 else r + 1
  }

  /** `containers.find(container => container.id === id)`: the first container with that id. */
  function FindContainer(cs: seq<Container>, id: Option<Id>): (r: Option<Container>)
    ensures r.None? <==> forall k :: 0 <= k < |cs| ==> Some(cs[k].id) != id
    ensures r.Some? ==> exists k :: 0 <= k < |cs| && cs[k] == r.value && Some(cs[k].id) == id &&
                                    forall j :: 0 <= j < k ==> Some(cs[j].id) != id
  {
    var i := ContainerIndex(cs, id);
    if i < 0 then None else Some(cs[i])
  }

  /** `containers.find(container => container.items.find(item => item.id === id))`: the first container holding that item. */
  function FindHolder(cs: seq<Container>, id: Option<Id>): (r: Option<Container>)
    ensures r.None? <==> forall k :: 0 <= k < |cs| ==> !HoldsItem(cs[k], id)
    ensures r.Some? ==> exists k :: 0 <= k < |cs| && cs[k] == r.value && HoldsItem(cs[k], id) &&
                                    forall j :: 0 <= j < k ==> !HoldsItem(cs[j], id)
  {
    var i := HolderIndex(cs, id);
    if i < 0 then None else Some(cs[i])
  }

  /**
   * `findValueOfItems(id, type)`: for 'container' the first container with
   * that id, for 'item' the first container holding an item with that id,
   * and nothing for any other type.
   */
  function FindValueOfItems(cs: seq<Container>, id: Option<Id>, kind: string): (r: Option<Container>)
    ensures kind != "container" && kind != "item" ==> r.None?
    ensures kind == "container" ==> (r.None? <==> forall k :: 0 <= k < |cs| ==> Some(cs[k].id) != id)
    ensures kind == "item" ==> (r.None? <==> forall k :: 0 <= k < |cs| ==> !HoldsItem(cs[k], id))
    ensures kind == "container" && r.Some? ==> exists k :: 0 <= k < |cs| && cs[k] == r.value && Some(cs[k].id) == id &&
                                                          forall j :: 0 <= j < k ==> Some(cs[j].id) != id
    ensures kind == "item" && r.Some? ==> exists k :: 0 <= k < |cs| && cs[k] == r.value && HoldsItem(cs[k], id) &&
                                                     forall j :: 0 <= j < k ==> !HoldsItem(cs[j], id)
  {
    if kind == "container" then FindContainer(cs, id)
    else if kind == "item" then FindHolder(cs, id)
    else None
  }

  /** `findItemTitle(id)`: the title of the first item with that id in the first container holding one, or ''. */
  function FindItemTitle(cs: seq<Container>, id: Option<Id>): (r: string)
    ensures (forall k :: 0 <= k < |cs| ==> !HoldsItem(cs[k], id)) ==> r == ""
    ensures (exists k :: 0 <= k < |cs| && HoldsItem(cs[k], id)) ==>
      exists k, j :: 0 <= k < |cs| && 0 <= j < |cs[k].items| && Some(cs[k].items[j].id) == id && r == cs[k].items[j].title
  {
    match FindValueOfItems(cs, id, "item")
    case None => ""
    case Some(c) =>
      var j := ItemIndex(c.items, id);
      if j < 0 then "" else c.items[j].title
  }

  /**
   * The index handleDragMove uses for the container holding item `id`: the
   * container `findValueOfItems(id, 'item')` finds, looked up again with
   * `containers.findIndex` by its own id; -1 when no container holds the item.
   */
  function ContainerIndexOfItem(cs: seq<Container>, id: Id): (r: int)
    requires DistinctIds(cs)
    ensures -1 <= r < |cs|
    ensures r == -1 <==> forall k :: 0 <= k < |cs| ==> !HoldsItem(cs[k], Some(id))
    ensures 0 <= r ==> HoldsItem(cs[r], Some(id)) && forall k :: 0 <= k < r ==> !HoldsItem(cs[k], Some(id))
  {
    match FindValueOfItems(cs, Some(id), "item")
    case None => -1
    case Some(c) =>
      var r := ContainerIndex(cs, Some(c.id));
      assert cs[r] == c by {
        var k :| 0 <= k < |cs| && cs[k] == c && HoldsItem(cs[k], Some(id)) &&
                 forall j :: 0 <= j < k ==> !HoldsItem(cs[j], Some(id));
        assert r <= k;
      }
      r
  }

  /** Replacing the items of container `i` swaps their multiset in the board's. */
  lemma {:induction false} BoardItemsUpdate(cs: seq<Container>, i: nat, items: seq<Item>)
    requires i < |cs|
    ensures BoardItems(cs[i := cs[i].(items := items)]) + multiset(cs[i].items) == BoardItems(cs) + multiset(items)
  {
    var cs' := cs[i := cs[i].(items := items)];
    assert BoardItems(cs) == multiset(cs[0].items) + BoardItems(cs[1..]);
    assert BoardItems(cs') == multiset(cs'[0].items) + BoardItems(cs'[1..]);
    if i == 0 {
      assert cs'[1..] == cs[1..];
    } else {
      assert cs'[0] == cs[0];
      assert cs[1..][i - 1] == cs[i];
      assert cs'[1..] == cs[1..][i - 1 := cs[i].(items := items)];
      BoardItemsUpdate(cs[1..], i - 1, items);
      forall e ensures (BoardItems(cs') + multiset(cs[i].items))[e] == (BoardItems(cs) + multiset(items))[e] {
        assert (BoardItems(cs'[1..]) + multiset(cs[i].items))[e] == (BoardItems(cs[1..]) + multiset(items))[e];
      }
    }
  }

  /** Replacing the items of container `i` changes nothing else on the board. */
  lemma UpdateItems(cs: seq<Container>, i: nat, items: seq<Item>)
    requires i < |cs|
    ensures OnlyItemsDiffer(cs, cs[i := cs[i].(items := items)])
    ensures DistinctIds(cs) ==> DistinctIds(cs[i := cs[i].(items := items)])
    ensures BoardItems(cs[i := cs[i].(items := items)]) + multiset(cs[i].items) == BoardItems(cs) + multiset(items)
    ensures multiset(items) == multiset(cs[i].items) ==> BoardItems(cs[i := cs[i].(items := items)]) == BoardItems(cs)
  {
    var r := cs[i := cs[i].(items := items)];
    BoardItemsUpdate(cs, i, items);
    if multiset(items) == multiset(cs[i].items) {
      forall x ensures BoardItems(r)[x] == BoardItems(cs)[x] {
        assert (BoardItems(r) + multiset(cs[i].items))[x] == (BoardItems(cs) + multiset(items))[x];
      }
    }
  }

  /** Taking `x` out of container `fc` and adding it to container `tc` keeps the board's items. */
  lemma MoveKeepsBoardItems(cs: seq<Container>, fc: nat, left: seq<Item>, tc: nat, right: seq<Item>, x: Item)
    requires fc < |cs| && tc < |cs|
    requires multiset(left) + multiset{x} == multiset(cs[fc].items)
    requires multiset(right) == multiset(cs[fc := cs[fc].(items := left)][tc].items) + multiset{x}
    ensures var cs1 := cs[fc := cs[fc].(items := left)];
            BoardItems(cs1[tc := cs1[tc].(items := right)]) == BoardItems(cs)
  {
    var cs1 := cs[fc := cs[fc].(items := left)];
    var r := cs1[tc := cs1[tc].(items := right)];
    BoardItemsUpdate(cs, fc, left);
    BoardItemsUpdate(cs1, tc, right);
    forall e ensures BoardItems(r)[e] == BoardItems(cs)[e] {
      assert (BoardItems(cs1) + multiset(cs[fc].items))[e] == (BoardItems(cs) + multiset(left))[e];
      assert (BoardItems(r) + multiset(cs1[tc].items))[e] == (BoardItems(cs1) + multiset(right))[e];
      assert (multiset(left) + multiset{x})[e] == multiset(cs[fc].items)[e];
      assert multiset(right)[e] == (multiset(cs1[tc].items) + multiset{x})[e];
    }
  }

  /**
   * The same-container case of handleDragMove: `arrayMove` within container
   * `i`. The container keeps its items as a permutation, the dragged item
   * lands at `to`, and every other container is untouched.
   */
  function SameContainerMove(cs: seq<Container>, i: nat, from: nat, to: nat): (r: seq<Container>)
    requires i < |cs| && from < |cs[i].items| && to < |cs[i].items|
    ensures OnlyItemsDiffer(cs, r)
    ensures forall k :: 0 <= k < |cs| && k != i ==> r[k] == cs[k]
    ensures |r[i].items| == |cs[i].items| && multiset(r[i].items) == multiset(cs[i].items)
    ensures r[i].items[to] == cs[i].items[from]
    ensures RemoveAt(r[i].items, to) == RemoveAt(cs[i].items, from)
    ensures BoardItems(r) == BoardItems(cs)
  {
    var moved := ArrayMove(cs[i].items, from, to);
    UpdateItems(cs, i, moved);
    cs[i := cs[i].(items := moved)]
  }

  /** Replacing the items of container `fc`, then those of container `tc`, changes nothing else. */
  lemma TwoItemUpdates(cs: seq<Container>, fc: nat, left: seq<Item>, tc: nat, right: seq<Item>)
    requires fc < |cs| && tc < |cs|
    ensures var cs1 := cs[fc := cs[fc].(items := left)];
      var r := cs1[tc := cs1[tc].(items := right)];
      && OnlyItemsDiffer(cs, r)
      && (forall k :: 0 <= k < |cs| && k != fc && k != tc ==> r[k] == cs[k])
      && r[tc].items == right && (fc != tc ==> r[fc].items == left)
      && cs1[tc].items == (if fc == tc then left else cs[tc].items)
  {
    var cs1 := cs[fc := cs[fc].(items := left)];
    UpdateItems(cs, fc, left);
    UpdateItems(cs1, tc, right);
    OnlyItemsDifferTrans(cs, cs1, cs1[tc := cs1[tc].(items := right)]);
  }

  /**
   * The cross-container case of handleDragMove: `splice` the dragged item
   * out of container `fc` and `splice` it into container `tc` at `ti`.
   * Putting it back where it was restores the source; taking it out of the
   * target restores the target.
   */
  function CrossContainerMove(cs: seq<Container>, fc: nat, fi: nat, tc: nat, ti: nat): (r: seq<Container>)
    requires fc < |cs| && tc < |cs| && fc != tc
    requires fi < |cs[fc].items| && ti <= |cs[tc].items|
    ensures OnlyItemsDiffer(cs, r)
    ensures forall k :: 0 <= k < |cs| && k != fc && k != tc ==> r[k] == cs[k]
    ensures |r[fc].items| == |cs[fc].items| - 1 && InsertAt(r[fc].items, fi, cs[fc].items[fi]) == cs[fc].items
    ensures |r[tc].items| == |cs[tc].items| + 1 && r[tc].items[ti] == cs[fc].items[fi]
    ensures RemoveAt(r[tc].items, ti) == cs[tc].items
    ensures BoardItems(r) == BoardItems(cs)
  {
    var x := cs[fc].items[fi];
    var left := RemoveAt(cs[fc].items, fi);
    var cs1 := cs[fc := cs[fc].(items := left)];
    var right := InsertAt(cs1[tc].items, ti, x);
    InsertRemoveInverse(cs[fc].items, fi);
    RemoveInsertInverse(cs[tc].items, ti, x);
    TwoItemUpdates(cs, fc, left, tc, right);
    MoveKeepsBoardItems(cs, fc, left, tc, right, x);
    cs1[tc := cs1[tc].(items := right)]
  }

  /**
   * The drop-onto-a-container case of handleDragMove: `splice` the dragged
   * item out of container `fc` and `push` it onto container `tc` (which may
   * be the same container): it ends as the target's last item.
   */
  function DropIntoContainer(cs: seq<Container>, fc: nat, fi: nat, tc: nat): (r: seq<Container>)
    requires fc < |cs| && tc < |cs| && fi < |cs[fc].items|
    ensures OnlyItemsDiffer(cs, r)
    ensures forall k :: 0 <= k < |cs| && k != fc && k != tc ==> r[k] == cs[k]
    ensures |r[tc].items| > 0 && r[tc].items[|r[tc].items| - 1] == cs[fc].items[fi]
    ensures fc != tc ==> r[tc].items[..|r[tc].items| - 1] == cs[tc].items
    ensures fc != tc ==> |r[fc].items| == |cs[fc].items| - 1 && InsertAt(r[fc].items, fi, cs[fc].items[fi]) == cs[fc].items
    ensures fc == tc ==> r[tc].items == RemoveAt(cs[fc].items, fi) + [cs[fc].items[fi]]
    ensures BoardItems(r) == BoardItems(cs)
  {
    var x := cs[fc].items[fi];
    var left := RemoveAt(cs[fc].items, fi);
    var cs1 := cs[fc := cs[fc].(items := left)];
    var right := cs1[tc].items + [x];
    InsertRemoveInverse(cs[fc].items, fi);
    TwoItemUpdates(cs, fc, left, tc, right);
    assert right[..|right| - 1] == cs1[tc].items;
    MoveKeepsBoardItems(cs, fc, left, tc, right, x);
    cs1[tc := cs1[tc].(items := right)]
  }

  /** The guard of handleDragMove's first block: an item is dragged over another item. */
  predicate ItemOverItem(activeId: Id, over: Option<Id>) {
    Includes(activeId, "item") && over.Some? && Includes(over.value, "item") && activeId != over.value
  }

  /** The guard of handleDragMove's second block: an item is dragged over a container. */
  predicate ItemOverContainer(activeId: Id, over: Option<Id>) {
    Includes(activeId, "item") && over.Some? && Includes(over.value, "container") && activeId != over.value
  }

  /**
   * handleDragMove's first block: nothing when it returns early because the
   * active or the over item is in no container, otherwise the board after
   * the same-container or the cross-container move.
   */
  function MoveOverItem(cs: seq<Container>, activeId: Id, overId: Id): (r: Option<seq<Container>>)
    requires DistinctIds(cs)
    ensures r.None? <==> ContainerIndexOfItem(cs, activeId) < 0 || ContainerIndexOfItem(cs, overId) < 0
    ensures r.Some? ==> OnlyItemsDiffer(cs, r.value) && BoardItems(r.value) == BoardItems(cs)
  {
    var aci := ContainerIndexOfItem(cs, activeId);
    var oci := ContainerIndexOfItem(cs, overId);
    if aci < 0 || oci < 0 then None
    else
      var ai := ItemIndex(cs[aci].items, Some(activeId));
      var oi := ItemIndex(cs[oci].items, Some(overId));
      if aci == oci then Some(SameContainerMove(cs, aci, ai, oi))
      else Some(CrossContainerMove(cs, aci, ai, oci, oi))
  }

  /**
   * handleDragMove's second block: nothing when it returns early because the
   * active item or the over container is missing, otherwise the board after
   * the drop into the container.
   */
  function MoveOverContainer(cs: seq<Container>, activeId: Id, overId: Id): (r: Option<seq<Container>>)
    requires DistinctIds(cs)
    ensures r.None? <==> ContainerIndexOfItem(cs, activeId) < 0 || ContainerIndex(cs, Some(overId)) < 0
    ensures r.Some? ==> OnlyItemsDiffer(cs, r.value) && BoardItems(r.value) == BoardItems(cs)
  {
    var aci := ContainerIndexOfItem(cs, activeId);
    var oci := ContainerIndex(cs, Some(overId));
    if aci < 0 || oci < 0 then None
    else
      var ai := ItemIndex(cs[aci].items, Some(activeId));
      Some(DropIntoContainer(cs, aci, ai, oci))
  }

  /**
   * handleDragMove's first block, guard included: nothing when it returns
   * early, otherwise the board it commits (the board itself when its guard
   * is false).
   */
  function SortItems(cs: seq<Container>, activeId: Id, over: Option<Id>): (r: Option<seq<Container>>)
    requires DistinctIds(cs)
    ensures r.None? ==> ItemOverItem(activeId, over)
    ensures r.Some? ==> OnlyItemsDiffer(cs, r.value) && DistinctIds(r.value) && BoardItems(r.value) == BoardItems(cs)
  {
    if ItemOverItem(activeId, over) then
      var r := MoveOverItem(cs, activeId, over.value);
      if r.Some? then OnlyItemsDifferKeepsIds(cs, r.value); r else r
    else
      Some(cs)
  }

  /** handleDragMove's second block, guard included: the board it commits, or the board itself. */
  function DropItem(cs: seq<Container>, activeId: Id, over: Option<Id>): (r: seq<Container>)
    requires DistinctIds(cs)
    ensures OnlyItemsDiffer(cs, r) && DistinctIds(r) && BoardItems(r) == BoardItems(cs)
  {
    if ItemOverContainer(activeId, over) then
      var second := MoveOverContainer(cs, activeId, over.value);
      if second.Some? then OnlyItemsDifferKeepsIds(cs, second.value); second.value else cs
    else
      cs
  }

  /**
   * The board after one `handleDragMove` event. The two blocks run one after
   * the other: the second reads the container objects the first changed in
   * place, and an early return in the first skips the second.
   */
  function DragMove(cs: seq<Container>, activeId: Id, over: Option<Id>): (r: seq<Container>)
    requires DistinctIds(cs)
    ensures OnlyItemsDiffer(cs, r) && DistinctIds(r)
    ensures BoardItems(r) == BoardItems(cs)
    ensures over.None? || over == Some(activeId) || !Includes(activeId, "item") ==> r == cs
  {
    match SortItems(cs, activeId, over)
    case None => cs
    case Some(cs1) =>
      var r := DropItem(cs1, activeId, over);
      OnlyItemsDifferTrans(cs, cs1, r);
      r
  }

  /** Container `i` is the first one holding an item with id `id`: the one `findValueOfItems(id, 'item')` returns. */
  ghost predicate FirstHolder(cs: seq<Container>, i: nat, id: Id) {
    i < |cs| && HoldsItem(cs[i], Some(id)) && forall k :: 0 <= k < i ==> !HoldsItem(cs[k], Some(id))
  }

  /** The first holder is the container handleDragMove works on. */
  lemma FirstHolderIndex(cs: seq<Container>, i: nat, id: Id)
    requires DistinctIds(cs) && FirstHolder(cs, i, id)
    ensures ContainerIndexOfItem(cs, id) == i
    ensures 0 <= ItemIndex(cs[i].items, Some(id))
  {
    var r := ContainerIndexOfItem(cs, id);
    assert r != -1;
  }

  /**
   * `findItemTitle(id)` reads the title of the first item with that id in
   * the first container that holds one.
   */
  lemma ItemTitleOfFirstHolder(cs: seq<Container>, i: nat, j: nat, id: Id)
    requires FirstHolder(cs, i, id)
    requires j < |cs[i].items| && cs[i].items[j].id == id
    requires forall k :: 0 <= k < j ==> cs[i].items[k].id != id
    ensures FindItemTitle(cs, Some(id)) == cs[i].items[j].title
  {
    var found := FindValueOfItems(cs, Some(id), "item");
    assert found.Some?;
    var k :| 0 <= k < |cs| && HoldsItem(cs[k], Some(id)) && found.value == cs[k]
             && forall k' :: 0 <= k' < k ==> !HoldsItem(cs[k'], Some(id));
    assert k == i;
  }

  /** A drag of an item that no container holds leaves the board as it is. */
  lemma DragMoveOfUnknownItem(cs: seq<Container>, activeId: Id, over: Option<Id>)
    requires DistinctIds(cs)
    requires forall k :: 0 <= k < |cs| ==> !HoldsItem(cs[k], Some(activeId))
    ensures DragMove(cs, activeId, over) == cs
  {
  }

  /** A drag over an item that no container holds returns early: the board stays as it is, whatever the over id also contains. */
  lemma DragMoveOverUnknownItem(cs: seq<Container>, activeId: Id, overId: Id)
    requires DistinctIds(cs) && ItemOverItem(activeId, Some(overId))
    requires forall k :: 0 <= k < |cs| ==> !HoldsItem(cs[k], Some(overId))
    ensures DragMove(cs, activeId, Some(overId)) == cs
  {
  }

  /** A drop onto a container id that no container has leaves the board as it is. */
  lemma DragMoveOverUnknownContainer(cs: seq<Container>, activeId: Id, overId: Id)
    requires DistinctIds(cs) && ItemOverContainer(activeId, Some(overId)) && !Includes(overId, "item")
    requires forall k :: 0 <= k < |cs| ==> cs[k].id != overId
    ensures DragMove(cs, activeId, Some(overId)) == cs
  {
  }

  /** The second block leaves the board alone when its guard fails. */
  lemma DropItemSkipped(cs: seq<Container>, activeId: Id, over: Option<Id>)
    requires DistinctIds(cs) && !ItemOverContainer(activeId, over)
    ensures DropItem(cs, activeId, over) == cs
  {
  }

  /**
   * The over id gives the second block nothing to drop into: it does not
   * contain 'container', or no container has it as its id.
   */
  ghost predicate NoDropTarget(cs: seq<Container>, overId: Id) {
    !Includes(overId, "container") || forall k :: 0 <= k < |cs| ==> cs[k].id != overId
  }

  /** When the first block's guard holds and it does not return early, the second block runs on the board it leaves. */
  lemma DragMoveAfterSort(cs: seq<Container>, activeId: Id, overId: Id)
    requires DistinctIds(cs) && ItemOverItem(activeId, Some(overId))
    requires MoveOverItem(cs, activeId, overId).Some?
    ensures DistinctIds(MoveOverItem(cs, activeId, overId).value)
    ensures DragMove(cs, activeId, Some(overId)) == DropItem(MoveOverItem(cs, activeId, overId).value, activeId, Some(overId))
  {
    var moved := MoveOverItem(cs, activeId, overId).value;
    assert SortItems(cs, activeId, Some(overId)) == Some(moved);
  }

  /** The second block does nothing when the over id gives it nothing to drop into. */
  lemma DropItemWithoutTarget(cs: seq<Container>, activeId: Id, overId: Id)
    requires DistinctIds(cs) && NoDropTarget(cs, overId)
    ensures DropItem(cs, activeId, Some(overId)) == cs
  {
    if ItemOverContainer(activeId, Some(overId)) {
      assert ContainerIndex(cs, Some(overId)) < 0;
    }
  }

  /** Changing only item lists keeps the container ids, so an over id with no drop target keeps having none. */
  lemma NoDropTargetKept(cs: seq<Container>, moved: seq<Container>, overId: Id)
    requires OnlyItemsDiffer(cs, moved) && NoDropTarget(cs, overId)
    ensures NoDropTarget(moved, overId)
  {
    OnlyItemsDifferKeepsIds(cs, moved);
  }

  /** When the first block's guard holds and it does not return early, the second block does nothing. */
  lemma DragMoveOverFoundItem(cs: seq<Container>, activeId: Id, overId: Id)
    requires DistinctIds(cs) && ItemOverItem(activeId, Some(overId)) && NoDropTarget(cs, overId)
    requires MoveOverItem(cs, activeId, overId).Some?
    ensures DragMove(cs, activeId, Some(overId)) == MoveOverItem(cs, activeId, overId).value
  {
    var moved := MoveOverItem(cs, activeId, overId).value;
    DragMoveAfterSort(cs, activeId, overId);
    NoDropTargetKept(cs, moved, overId);
    DropItemWithoutTarget(moved, activeId, overId);
  }

  /** An item is on the board exactly when some container holds it. */
  lemma {:induction false} InBoardItems(cs: seq<Container>, x: Item)
    ensures x in BoardItems(cs) <==> exists k :: 0 <= k < |cs| && x in cs[k].items
  {
    if |cs| > 0 {
      InBoardItems(cs[1..], x);
      if x in cs[0].items {
        assert x in BoardItems(cs);
      } else if x in BoardItems(cs) {
        var k :| 0 <= k < |cs[1..]| && x in cs[1..][k].items;
        assert x in cs[k + 1].items;
      } else {
        forall k | 0 <= k < |cs| ensures x !in cs[k].items {
          if k > 0 {
            assert cs[k] == cs[1..][k - 1];
          }
        }
      }
    }
  }

  /** A board with the same items still holds an item with the id. */
  lemma ItemStillHeld(cs: seq<Container>, moved: seq<Container>, id: Id)
    requires BoardItems(moved) == BoardItems(cs)
    requires exists k :: 0 <= k < |cs| && HoldsItem(cs[k], Some(id))
    ensures exists k :: 0 <= k < |moved| && HoldsItem(moved[k], Some(id))
  {
    var k :| 0 <= k < |cs| && HoldsItem(cs[k], Some(id));
    var j :| 0 <= j < |cs[k].items| && Some(cs[k].items[j].id) == Some(id);
    var x := cs[k].items[j];
    InBoardItems(cs, x);
    InBoardItems(moved, x);
    var k' :| 0 <= k' < |moved| && x in moved[k'].items;
    var j' :| 0 <= j' < |moved[k'].items| && moved[k'].items[j'] == x;
    assert HoldsItem(moved[k'], Some(id));
  }

  /** The second block, its guard holding and nothing missing, is the drop into the over container. */
  lemma DropItemWithTarget(cs: seq<Container>, activeId: Id, overId: Id)
    requires DistinctIds(cs) && ItemOverContainer(activeId, Some(overId))
    requires ContainerIndexOfItem(cs, activeId) >= 0
    requires exists k :: 0 <= k < |cs| && cs[k].id == overId
    ensures MoveOverContainer(cs, activeId, overId).Some?
    ensures DropItem(cs, activeId, Some(overId)) == MoveOverContainer(cs, activeId, overId).value
  {
    assert ContainerIndex(cs, Some(overId)) >= 0;
  }

  /**
   * An over id that contains both 'item' and 'container' and names both a
   * held item and a container passes both guards: the first block moves the
   * item next to the over item, then the second block takes it from there
   * and drops it at the end of the container with that id.
   */
  lemma DragMoveOverItemAndContainer(cs: seq<Container>, activeId: Id, overId: Id)
    requires DistinctIds(cs) && ItemOverItem(activeId, Some(overId)) && Includes(overId, "container")
    requires MoveOverItem(cs, activeId, overId).Some?
    requires exists k :: 0 <= k < |cs| && cs[k].id == overId
    ensures DistinctIds(MoveOverItem(cs, activeId, overId).value)
    ensures MoveOverContainer(MoveOverItem(cs, activeId, overId).value, activeId, overId).Some?
    ensures DragMove(cs, activeId, Some(overId)) ==
            MoveOverContainer(MoveOverItem(cs, activeId, overId).value, activeId, overId).value
  {
    var moved := MoveOverItem(cs, activeId, overId).value;
    DragMoveAfterSort(cs, activeId, overId);
    OnlyItemsDifferKeepsIds(cs, moved);
    var k :| 0 <= k < |cs| && cs[k].id == overId;
    assert moved[k].id == overId;
    assert ContainerIndexOfItem(moved, activeId) >= 0 by {
      ItemStillHeld(cs, moved, activeId);
    }
    DropItemWithTarget(moved, activeId, overId);
  }

  /**
   * Dragging item `activeId` over item `overId` of the same container `i`
   * is the same-container move from the dragged item's index to the over
   * item's index (see SameContainerMove for what that keeps).
   */
  lemma DragWithinContainer(cs: seq<Container>, activeId: Id, overId: Id, i: nat)
    requires DistinctIds(cs) && ItemOverItem(activeId, Some(overId)) && NoDropTarget(cs, overId)
    requires FirstHolder(cs, i, activeId) && FirstHolder(cs, i, overId)
    ensures ItemIndex(cs[i].items, Some(activeId)) >= 0 && ItemIndex(cs[i].items, Some(overId)) >= 0
    ensures DragMove(cs, activeId, Some(overId)) ==
            SameContainerMove(cs, i, ItemIndex(cs[i].items, Some(activeId)), ItemIndex(cs[i].items, Some(overId)))
  {
    FirstHolderIndex(cs, i, activeId);
    FirstHolderIndex(cs, i, overId);
    var moved := SameContainerMove(cs, i, ItemIndex(cs[i].items, Some(activeId)), ItemIndex(cs[i].items, Some(overId)));
    assert MoveOverItem(cs, activeId, overId) == Some(moved);
    DragMoveOverFoundItem(cs, activeId, overId);
  }

  /**
   * Dragging item `activeId` of container `fc` over item `overId` of another
   * container `tc` is the cross-container move to the over item's index
   * (see CrossContainerMove for what that keeps).
   */
  lemma DragAcrossContainers(cs: seq<Container>, activeId: Id, overId: Id, fc: nat, tc: nat)
    requires DistinctIds(cs) && ItemOverItem(activeId, Some(overId)) && NoDropTarget(cs, overId)
    requires FirstHolder(cs, fc, activeId) && FirstHolder(cs, tc, overId) && fc != tc
    ensures ItemIndex(cs[fc].items, Some(activeId)) >= 0 && ItemIndex(cs[tc].items, Some(overId)) >= 0
    ensures DragMove(cs, activeId, Some(overId)) ==
            CrossContainerMove(cs, fc, ItemIndex(cs[fc].items, Some(activeId)), tc, ItemIndex(cs[tc].items, Some(overId)))
  {
    FirstHolderIndex(cs, fc, activeId);
    FirstHolderIndex(cs, tc, overId);
    var moved := CrossContainerMove(cs, fc, ItemIndex(cs[fc].items, Some(activeId)), tc, ItemIndex(cs[tc].items, Some(overId)));
    assert MoveOverItem(cs, activeId, overId) == Some(moved);
    DragMoveOverFoundItem(cs, activeId, overId);
  }

  /**
   * Dropping item `activeId` of container `fc` onto the container with id
   * `overId` moves it to the end of that container (see DropIntoContainer).
   */
  lemma DropOntoContainer(cs: seq<Container>, activeId: Id, overId: Id, fc: nat)
    requires DistinctIds(cs) && ItemOverContainer(activeId, Some(overId)) && !Includes(overId, "item")
    requires FirstHolder(cs, fc, activeId)
    requires exists k :: 0 <= k < |cs| && cs[k].id == overId
    ensures ItemIndex(cs[fc].items, Some(activeId)) >= 0 && ContainerIndex(cs, Some(overId)) >= 0
    ensures cs[ContainerIndex(cs, Some(overId))].id == overId
    ensures DragMove(cs, activeId, Some(overId)) ==
            DropIntoContainer(cs, fc, ItemIndex(cs[fc].items, Some(activeId)), ContainerIndex(cs, Some(overId)))
  {
    FirstHolderIndex(cs, fc, activeId);
    var moved := DropIntoContainer(cs, fc, ItemIndex(cs[fc].items, Some(activeId)), ContainerIndex(cs, Some(overId)));
    assert SortItems(cs, activeId, Some(overId)) == Some(cs);
    assert MoveOverContainer(cs, activeId, overId) == Some(moved);
    assert DropItem(cs, activeId, Some(overId)) == moved;
  }

  /**
   * The App component's state: the board, the id of the item being dragged,
   * and the boards sent to the server with the socket's 'updatedItems' event.
   */
  class App {
    var containers: seq<Container>
    var activeId: Option<Id>
    var emitted: seq<seq<Container>>

    ghost predicate Valid()
      reads this
    {
      DistinctIds(containers)
    }

    /** `useState<ContainerType[]>([])` and `useState(null)`: no board, nothing dragged, nothing sent. */
    constructor ()
      ensures Valid() && containers == [] && activeId.None? && emitted == []
    {
      containers := [];
      activeId := None;
      emitted := [];
    }

    /**
     * `setContainers(data)` in the socket's 'initialData' and 'dataUpdated'
     * handlers: the server's board replaces the current one. Its container
     * ids are taken to be distinct.
     */
    method Load(data: seq<Container>)
      requires DistinctIds(data)
      modifies this
      ensures Valid()
      ensures containers == data && activeId == old(activeId) && emitted == old(emitted)
    {
      containers := data;
    }

    /** `handleDragStart`: remember the dragged item. */
    method HandleDragStart(id: Id)
      requires Valid()
      modifies this
      ensures Valid()
      ensures activeId == Some(id) && containers == old(containers) && emitted == old(emitted)
    {
      activeId := Some(id);
    }

    /**
     * `handleDragEnd`: with no over target nothing happens; otherwise the
     * current board is sent to the server and the dragged item forgotten.
     */
    method HandleDragEnd(over: Option<Id>)
      requires Valid()
      modifies this
      ensures Valid() && containers == old(containers)
      ensures over.None? ==> activeId == old(activeId) && emitted == old(emitted)
      ensures over.Some? ==> activeId.None? && emitted == old(emitted) + [containers]
    {
      if over.None? {
        return;
      }
      emitted := emitted + [containers];
      activeId := None;
    }

    /** `handleDragMove`: the dragged item `activeId` is over `over` (absent when over nothing). */
    method HandleDragMove(activeId: Id, over: Option<Id>)
      requires Valid()
      modifies this
      ensures Valid()
      ensures containers == DragMove(old(containers), activeId, over)
      ensures this.activeId == old(this.activeId) && emitted == old(emitted)
    {
      var returned := SortItemsBlock(activeId, over);
      if returned {
        return;
      }
      DropItemBlock(activeId, over);
    }

    /** handleDragMove's first block (items sorting); `returned` when it leaves the whole handler early. */
    method SortItemsBlock(activeId: Id, over: Option<Id>) returns (returned: bool)
      requires Valid()
      modifies this
      ensures Valid()
      ensures SortItems(old(containers), activeId, over) == if returned then None else Some(containers)
      ensures returned ==> containers == old(containers)
      ensures this.activeId == old(this.activeId) && emitted == old(emitted)
    {
      var newItems;
      returned, newItems := SortItemsStep(containers, activeId, over);
      containers := newItems;
    }

    /** handleDragMove's second block (an item dropped into a container). */
    method DropItemBlock(activeId: Id, over: Option<Id>)
      requires Valid()
      modifies this
      ensures Valid()
      ensures containers == DropItem(old(containers), activeId, over)
      ensures this.activeId == old(this.activeId) && emitted == old(emitted)
    {
      containers := DropItemStep(containers, activeId, over);
    }
  }

  /**
   * One drag gesture on a freshly loaded board: `handleDragStart`, one
   * `handleDragMove` and a `handleDragEnd` over the same target. What is sent
   * to the server is the moved board, which holds the same items under the
   * same container ids, and the dragged item is forgotten.
   */
  method DragGesture(data: seq<Container>, activeId: Id, over: Id) returns (sent: seq<seq<Container>>, dragged: Option<Id>)
    requires DistinctIds(data)
    ensures sent == [DragMove(data, activeId, Some(over))]
    ensures OnlyItemsDiffer(data, sent[0]) && BoardItems(sent[0]) == BoardItems(data)
    ensures dragged.None?
  {
    var app := new App();
    app.Load(data);
    app.HandleDragStart(activeId);
    app.HandleDragMove(activeId, Some(over));
    app.HandleDragEnd(Some(over));
    sent := app.emitted;
    dragged := app.activeId;
  }

  /**
   * The statements of handleDragMove's first block on the board `cs`:
   * `returned` when they leave the handler early, and the board they commit
   * (`cs` itself when the guard fails or they return).
   */
  method SortItemsStep(cs: seq<Container>, activeId: Id, over: Option<Id>) returns (returned: bool, newItems: seq<Container>)
    requires DistinctIds(cs)
    ensures SortItems(cs, activeId, over) == if returned then None else Some(newItems)
    ensures returned ==> newItems == cs
    ensures DistinctIds(newItems)
  {
    returned, newItems := false, cs;
    if ItemOverItem(activeId, over) {
      var activeContainerIndex := ContainerIndexOfItem(cs, activeId);
      var overContainerIndex := ContainerIndexOfItem(cs, over.value);
      if activeContainerIndex < 0 || overContainerIndex < 0 {
        return true, cs;
      }
      var activeItemIndex := ItemIndex(cs[activeContainerIndex].items, Some(activeId));
      var overItemIndex := ItemIndex(cs[overContainerIndex].items, over);
      if activeContainerIndex == overContainerIndex {
        newItems := SameContainerMove(cs, activeContainerIndex, activeItemIndex, overItemIndex);
      } else {
        newItems := CrossContainerMove(cs, activeContainerIndex, activeItemIndex, overContainerIndex, overItemIndex);
      }
      OnlyItemsDifferKeepsIds(cs, newItems);
    }
  }

  /** The statements of handleDragMove's second block on the board `cs`: the board they commit. */
  method DropItemStep(cs: seq<Container>, activeId: Id, over: Option<Id>) returns (newItems: seq<Container>)
    requires DistinctIds(cs)
    ensures newItems == DropItem(cs, activeId, over)
    ensures DistinctIds(newItems)
  {
    newItems := cs;
    if ItemOverContainer(activeId, over) {
      var activeContainerIndex := ContainerIndexOfItem(cs, activeId);
      var overContainerIndex := ContainerIndex(cs, over);
      if activeContainerIndex < 0 || overContainerIndex < 0 {
        return;
      }
      var activeItemIndex := ItemIndex(cs[activeContainerIndex].items, Some(activeId));
      newItems := DropIntoContainer(cs, activeContainerIndex, activeItemIndex, overContainerIndex);
      assert MoveOverContainer(cs, activeId, over.value) == Some(newItems);
      OnlyItemsDifferKeepsIds(cs, newItems);
    }
  }
}
