/** The board's data model and its two transitions as functions on values:
    the reorder/transfer performed when a drag ends, and the append of a
    new task to a list. */
module Kanban {
  import opened Splice
  import opened ItemIds

  datatype Option<T> = None | Some(value: T)

  /** A card. */
  datatype Item = Item(id: string, content: string)

  /** A column: its id (also the droppable id), its title and its cards in
      display order. */
  datatype List = List(id: string, title: string, items: seq<Item>)

  /** Where a drag started or ended: a droppable (list) id and a position. */
  datatype Location = Location(droppableId: string, index: nat)

  /** What the drag-and-drop layer reports when a drag ends; no
      destination means the item was dropped outside every list. */
  datatype DropResult = DropResult(source: Location, destination: Option<Location>)

  /** `lists.find(list => list.id === id)`, as a position: the first list
      with that id, if any. */
  function FindList(lists: seq<List>, id: string): (r: Option<nat>)
    ensures r.Some? ==> r.value < |lists| && lists[r.value].id == id
    ensures r.Some? ==> forall j :: 0 <= j < r.value ==> lists[j].id != id
    ensures r.None? <==> forall j :: 0 <= j < |lists| ==> lists[j].id != id
  {
    if lists == [] then None
    else if lists[0].id == id then Some(0)
    else match FindList(lists[1..], id)
      case None => None
      case Some(k) => Some(k + 1)
  }

  /** Every item on the board, with multiplicity. */
  function BoardItems(lists: seq<List>): multiset<Item>
  {
    if lists == [] then multiset{} else multiset(lists[0].items) + BoardItems(lists[1..])
  }

  /** The number of items on the board, list by list. */
  function ItemCount(lists: seq<List>): nat
  {
    if lists == [] then 0 else |lists[0].items| + ItemCount(lists[1..])
  }

  lemma {:induction false} ItemCountIsSize(lists: seq<List>)
    ensures ItemCount(lists) == |BoardItems(lists)|
  {
    if lists != [] {
      ItemCountIsSize(lists[1..]);
    }
  }

  /** Replacing the items of one list swaps that list's items in the
      board's multiset and leaves the rest of it alone. */
  lemma {:induction false} BoardItemsUpdate(lists: seq<List>, i: nat, items: seq<Item>)
    requires i < |lists|
    ensures BoardItems(lists[i := lists[i].(items := items)]) + multiset(lists[i].items)
         == BoardItems(lists) + multiset(items)
  {
    var updated := lists[i := lists[i].(items := items)];
    if i > 0 {
      var tail := lists[1..];
      assert updated[0] == lists[0];
      assert tail[i - 1] == lists[i];
      assert updated[1..] == tail[i - 1 := tail[i - 1].(items := items)];
      BoardItemsUpdate(tail, i - 1, items);
      assert BoardItems(updated) == multiset(lists[0].items) + BoardItems(updated[1..]);
      assert BoardItems(lists) == multiset(lists[0].items) + BoardItems(tail);
      var lhs := BoardItems(updated) + multiset(lists[i].items);
      var rhs := BoardItems(lists) + multiset(items);
      forall x ensures lhs[x] == rhs[x] {
        assert (BoardItems(updated[1..]) + multiset(lists[i].items))[x]
            == (BoardItems(tail) + multiset(items))[x];
      }
      assert lhs == rhs;
    } else {
      assert updated[1..] == lists[1..];
    }
  }

  // ---------------------------------------------------------------------
  // onDragEnd

  /** `const [removed] = items.splice(from, 1); items.splice(to, 0, removed)`
      when `from` is a position of `items`. */
  function Reorder(items: seq<Item>, from: nat, to: nat): (r: seq<Item>)
    requires from < |items|
    ensures |r| == |items|
    ensures r[Min(to, |items| - 1)] == items[from]
  {
    InsertAt(RemoveAt(items, from), to, items[from])
  }

  /** A reorder keeps every item, puts the dragged one at
      `min(to, |items| - 1)`, and keeps the others in their relative order. */
  lemma ReorderMovesOne(items: seq<Item>, from: nat, to: nat)
    requires from < |items|
    ensures |Reorder(items, from, to)| == |items|
    ensures multiset(Reorder(items, from, to)) == multiset(items)
    ensures Reorder(items, from, to)[Min(to, |items| - 1)] == items[from]
    ensures RemoveAt(Reorder(items, from, to), Min(to, |items| - 1)) == RemoveAt(items, from)
  {
    RemoveAtMultiset(items, from);
    InsertAtMultiset(RemoveAt(items, from), to, items[from]);
    RemoveAfterInsert(RemoveAt(items, from), to, items[from]);
  }

  /** Dropping an item back where it was picked up changes nothing. */
  lemma ReorderInPlace(items: seq<Item>, i: nat)
    requires i < |items|
    ensures Reorder(items, i, i) == items
  {
    InsertAfterRemove(items, i);
  }

  /** The same-list branch: list `i`'s items are reordered. */
  function ReorderInList(lists: seq<List>, i: nat, from: nat, to: nat): (r: seq<List>)
    requires i < |lists| && from < |lists[i].items|
    ensures |r| == |lists|
    ensures r[i].id == lists[i].id && r[i].title == lists[i].title
    ensures |r[i].items| == |lists[i].items|
    ensures r[i].items[Min(to, |lists[i].items| - 1)] == lists[i].items[from]
    ensures forall k :: 0 <= k < |lists| && k != i ==> r[k] == lists[k]
  {
    lists[i := lists[i].(items := Reorder(lists[i].items, from, to))]
  }

  /** The cross-list branch: the item at `from` leaves list `s` and is
      inserted into list `d` at `to`. */
  function Transfer(lists: seq<List>, s: nat, d: nat, from: nat, to: nat): (r: seq<List>)
    requires s < |lists| && d < |lists| && s != d && from < |lists[s].items|
    ensures |r| == |lists|
    ensures r[s].id == lists[s].id && r[s].title == lists[s].title
    ensures r[d].id == lists[d].id && r[d].title == lists[d].title
    ensures |r[s].items| == |lists[s].items| - 1
    ensures |r[d].items| == |lists[d].items| + 1
    ensures r[d].items[Min(to, |lists[d].items|)] == lists[s].items[from]
    ensures forall k :: 0 <= k < |lists| && k != s && k != d ==> r[k] == lists[k]
  {
    var item := lists[s].items[from];
    lists[s := lists[s].(items := RemoveAt(lists[s].items, from))]
         [d := lists[d].(items := InsertAt(lists[d].items, to, item))]
  }

  /** The board after `onDragEnd(result)`. A same-list drag whose source
      index is not a position of the list is ignored, as the cross-list
      branch ignores one; see ReorderAsWritten for what the unguarded code
      does instead. */
  function DragEnd(lists: seq<List>, result: DropResult): (r: seq<List>)
    ensures |r| == |lists|
    ensures forall k :: 0 <= k < |r| ==> r[k].id == lists[k].id && r[k].title == lists[k].title
  {
    match result.destination
    case None => lists
    case Some(dest) =>
      var from := result.source.index;
      if result.source.droppableId == dest.droppableId then
        match FindList(lists, result.source.droppableId)
        case None => lists
        case Some(i) =>
          if from < |lists[i].items| then ReorderInList(lists, i, from, dest.index) else lists
      else
        match (FindList(lists, result.source.droppableId), FindList(lists, dest.droppableId))
        case (Some(s), Some(d)) =>
          if from < |lists[s].items| then Transfer(lists, s, d, from, dest.index) else lists
        case _ => lists
  }

  /** A drag that fails any of its lookups leaves the board exactly as it
      was: no destination, an unknown list, or no item at the source index. */
  lemma DragEndNoOp(lists: seq<List>, result: DropResult)
    ensures result.destination.None? ==> DragEnd(lists, result) == lists
    ensures result.destination.Some? && FindList(lists, result.source.droppableId).None?
      ==> DragEnd(lists, result) == lists
    ensures result.destination.Some? && FindList(lists, result.destination.value.droppableId).None?
      ==> DragEnd(lists, result) == lists
    ensures (FindList(lists, result.source.droppableId).Some? &&
             result.source.index >= |lists[FindList(lists, result.source.droppableId).value].items|)
      ==> DragEnd(lists, result) == lists
  {
  }

  /** Same-list reorder: only list `i`'s items change, and they change by
      moving the dragged item to `min(destination index, length - 1)`. */
  lemma DragEndSameList(lists: seq<List>, result: DropResult, i: nat)
    requires result.destination.Some?
    requires result.destination.value.droppableId == result.source.droppableId
    requires FindList(lists, result.source.droppableId) == Some(i)
    requires result.source.index < |lists[i].items|
    ensures var r := DragEnd(lists, result);
      var items, from, to := lists[i].items, result.source.index, result.destination.value.index;
      && r[i].items == Reorder(items, from, to)
      && |r[i].items| == |items|
      && multiset(r[i].items) == multiset(items)
      && r[i].items[Min(to, |items| - 1)] == items[from]
      && RemoveAt(r[i].items, Min(to, |items| - 1)) == RemoveAt(items, from)
      && (forall k :: 0 <= k < |lists| && k != i ==> r[k] == lists[k])
  {
    ReorderMovesOne(lists[i].items, result.source.index, result.destination.value.index);
  }

  /** Cross-list move: the source list loses exactly the dragged item, the
      destination list gains that same item at `min(destination index,
      old length)`, and every other list is unchanged. */
  lemma DragEndTransfer(lists: seq<List>, result: DropResult, s: nat, d: nat)
    requires result.destination.Some?
    requires result.destination.value.droppableId != result.source.droppableId
    requires FindList(lists, result.source.droppableId) == Some(s)
    requires FindList(lists, result.destination.value.droppableId) == Some(d)
    requires result.source.index < |lists[s].items|
    ensures var r := DragEnd(lists, result);
      var from, to := result.source.index, result.destination.value.index;
      var item := lists[s].items[from];
      && s != d
      && r[s].items == RemoveAt(lists[s].items, from)
      && |r[s].items| == |lists[s].items| - 1
      && multiset(r[s].items) + multiset{item} == multiset(lists[s].items)
      && |r[d].items| == |lists[d].items| + 1
      && r[d].items[Min(to, |lists[d].items|)] == item
      && RemoveAt(r[d].items, Min(to, |lists[d].items|)) == lists[d].items
      && (forall k :: 0 <= k < |lists| && k != s && k != d ==> r[k] == lists[k])
  {
    var from, to := result.source.index, result.destination.value.index;
    RemoveAtMultiset(lists[s].items, from);
    RemoveAfterInsert(lists[d].items, to, lists[s].items[from]);
  }

  lemma ReorderInListConserves(lists: seq<List>, i: nat, from: nat, to: nat)
    requires i < |lists| && from < |lists[i].items|
    ensures BoardItems(ReorderInList(lists, i, from, to)) == BoardItems(lists)
  {
    var updated := ReorderInList(lists, i, from, to);
    ReorderMovesOne(lists[i].items, from, to);
    BoardItemsUpdate(lists, i, Reorder(lists[i].items, from, to));
    forall x ensures BoardItems(updated)[x] == BoardItems(lists)[x] {
      assert (BoardItems(updated) + multiset(lists[i].items))[x]
          == (BoardItems(lists) + multiset(Reorder(lists[i].items, from, to)))[x];
    }
  }

  lemma TransferConserves(lists: seq<List>, s: nat, d: nat, from: nat, to: nat)
    requires s < |lists| && d < |lists| && s != d && from < |lists[s].items|
    ensures BoardItems(Transfer(lists, s, d, from, to)) == BoardItems(lists)
  {
    var item := lists[s].items[from];
    var removed := RemoveAt(lists[s].items, from);
    var inserted := InsertAt(lists[d].items, to, item);
    var once := lists[s := lists[s].(items := removed)];
    RemoveAtMultiset(lists[s].items, from);
    InsertAtMultiset(lists[d].items, to, item);
    BoardItemsUpdate(lists, s, removed);
    assert once[d] == lists[d];
    var twice := once[d := once[d].(items := inserted)];
    BoardItemsUpdate(once, d, inserted);
    assert Transfer(lists, s, d, from, to) == twice;
    forall x ensures BoardItems(twice)[x] == BoardItems(lists)[x] {
      assert (BoardItems(once) + multiset(lists[s].items))[x]
          == (BoardItems(lists) + multiset(removed))[x];
      assert (BoardItems(twice) + multiset(lists[d].items))[x]
          == (BoardItems(once) + multiset(inserted))[x];
      assert (multiset(removed) + multiset{item})[x] == multiset(lists[s].items)[x];
      assert multiset(inserted)[x] == (multiset(lists[d].items) + multiset{item})[x];
    }
  }

  /** Every drag conserves the board's items: none is lost, none is
      duplicated, and the item count stays the same. */
  lemma DragEndConservesItems(lists: seq<List>, result: DropResult)
    ensures BoardItems(DragEnd(lists, result)) == BoardItems(lists)
    ensures ItemCount(DragEnd(lists, result)) == ItemCount(lists)
  {
    var r := DragEnd(lists, result);
    if r != lists {
      var dest := result.destination.value;
      var from := result.source.index;
      if result.source.droppableId == dest.droppableId {
        var i := FindList(lists, result.source.droppableId).value;
        ReorderInListConserves(lists, i, from, dest.index);
      } else {
        var s := FindList(lists, result.source.droppableId).value;
        var d := FindList(lists, dest.droppableId).value;
        TransferConserves(lists, s, d, from, dest.index);
      }
    }
    ItemCountIsSize(r);
    ItemCountIsSize(lists);
  }

  /** `[...] splice` as the same-list branch runs it without checking the
      source index, on array slots where None stands for `undefined`: an
      out-of-range `from` removes nothing and then inserts `undefined`. */
  function ReorderAsWritten(items: seq<Item>, from: nat, to: nat): (r: seq<Option<Item>>)
    ensures |r| == if from < |items| then |items| else |items| + 1
  {
    var (rest, removed) := DeleteOne(items, from);
    InsertAt(Slots(rest), to, if removed == [] then None else Some(removed[0]))
  }

  /** Items as array slots that all hold an item. */
  function Slots(items: seq<Item>): (r: seq<Option<Item>>)
    ensures |r| == |items| && forall k :: 0 <= k < |r| ==> r[k] == Some(items[k])
  {
    seq(|items|, k requires 0 <= k < |items| => Some(items[k]))
  }

  /** For a source index inside the list the unguarded code is the reorder;
      past the end it inserts an `undefined` slot at `min(to, |items|)` and
      keeps every item, in order, around it. */
  lemma ReorderAsWrittenInsertsHole(items: seq<Item>, from: nat, to: nat)
    ensures from < |items| ==> ReorderAsWritten(items, from, to) == Slots(Reorder(items, from, to))
    ensures |items| <= from ==>
      && |ReorderAsWritten(items, from, to)| == |items| + 1
      && ReorderAsWritten(items, from, to)[Min(to, |items|)] == None
      && (forall k :: 0 <= k < Min(to, |items|) ==> ReorderAsWritten(items, from, to)[k] == Some(items[k]))
      && (forall k :: Min(to, |items|) <= k < |items| ==> ReorderAsWritten(items, from, to)[k + 1] == Some(items[k]))
  {
    if from < |items| {
      var a, b := ReorderAsWritten(items, from, to), Slots(Reorder(items, from, to));
      assert forall k :: 0 <= k < |a| ==> a[k] == b[k];
    } else {
      var (rest, removed) := DeleteOne(items, from);
      assert rest == items by {
        assert rest[..|items|] + removed + rest[|items|..] == items;
      }
      assert ReorderAsWritten(items, from, to) == InsertAt(Slots(items), to, None);
    }
  }

  /** The unguarded code on `[A]` with source index 1 and destination
      index 0 leaves `[undefined, A]`. */
  lemma ReorderAsWrittenPastEnd(a: Item)
    ensures ReorderAsWritten([a], 1, 0) == [None, Some(a)]
  {
    ReorderAsWrittenInsertsHole([a], 1, 0);
  }

  /** The board of the source's initial state. */
  function InitialLists(): (r: seq<List>)
    ensures |r| == 3
    ensures forall i, j :: 0 <= i < j < |r| ==> r[i].id != r[j].id
    ensures ItemCount(r) == 4
  {
    [ List("list1", "To Do", [Item("item1", "Task 1"), Item("item2", "Task 2")]),
      List("list2", "In Progress", [Item("item3", "Task 3")]),
      List("list3", "Done", [Item("item4", "Task 4")]) ]
  }

  /** Reorder and transfer on small boards: moving A from the front to
      index 3 of [A,B,C,D] gives [B,C,D,A]; moving C to the front gives
      [C,A,B,D]; moving the first item of [A,B] into an empty list leaves
      [B] and [A]; a destination index equal to the length appends. */
  lemma DragEndExamples(a: Item, b: Item, c: Item, d: Item)
    ensures var l := [List("L", "T", [a, b, c, d])];
      DragEnd(l, DropResult(Location("L", 0), Some(Location("L", 3))))[0].items == [b, c, d, a]
    ensures var l := [List("L", "T", [a, b, c, d])];
      DragEnd(l, DropResult(Location("L", 2), Some(Location("L", 0))))[0].items == [c, a, b, d]
    ensures var l := [List("todo", "To Do", [a, b]), List("done", "Done", [])];
      var r := DragEnd(l, DropResult(Location("todo", 0), Some(Location("done", 0))));
      r[0].items == [b] && r[1].items == [a]
    ensures var l := [List("todo", "To Do", [a, b]), List("done", "Done", [c])];
      var r := DragEnd(l, DropResult(Location("todo", 0), Some(Location("done", 1))));
      r[0].items == [b] && r[1].items == [c, a]
  {
    var l := [List("L", "T", [a, b, c, d])];
    assert FindList(l, "L") == Some(0);
    var two := [List("todo", "To Do", [a, b]), List("done", "Done", [])];
    assert FindList(two, "todo") == Some(0);
    assert FindList(two, "done") == Some(1);
    var three := [List("todo", "To Do", [a, b]), List("done", "Done", [c])];
    assert FindList(three, "todo") == Some(0);
    assert FindList(three, "done") == Some(1);
  }

  // ---------------------------------------------------------------------
  // handleAddTask

  /** `{ ...list, items: [...list.items, newItem] }` with the new item's id
      `item${list.items.length + 1}` and the content as typed. */
  function AppendTask(list: List, content: string): (r: List)
    ensures r.id == list.id && r.title == list.title
    ensures |r.items| == |list.items| + 1 && r.items[..|list.items|] == list.items
    ensures r.items[|list.items|].content == content
    ensures r.items[|list.items|].id == NewItemId(|list.items| + 1)
  {
    list.(items := list.items + [Item(NewItemId(|list.items| + 1), content)])
  }

  /** `lists.map(...)` of handleAddTask: every list whose id is `listId`
      gets the new item; the others are returned as they are. */
  function AddTask(lists: seq<List>, listId: string, content: string): (r: seq<List>)
    ensures |r| == |lists|
  {
    if lists == [] then []
    else [if lists[0].id == listId then AppendTask(lists[0], content) else lists[0]]
         + AddTask(lists[1..], listId, content)
  }

  /** A matching list gains one item at its end, with the minted id and
      the untrimmed content; every other list is unchanged; ids, titles
      and list order stay as they were. */
  lemma {:induction false} AddTaskAppends(lists: seq<List>, listId: string, content: string, k: nat)
    requires k < |lists|
    ensures var r := AddTask(lists, listId, content);
      && r[k].id == lists[k].id && r[k].title == lists[k].title
      && (lists[k].id != listId ==> r[k] == lists[k])
      && (lists[k].id == listId ==>
           && |r[k].items| == |lists[k].items| + 1
           && r[k].items[..|lists[k].items|] == lists[k].items
           && r[k].items[|lists[k].items|] == Item(NewItemId(|lists[k].items| + 1), content))
  {
    if k > 0 {
      AddTaskAppends(lists[1..], listId, content, k - 1);
    }
  }

  /** An id that names no list leaves the board as it was. */
  lemma {:induction false} AddTaskUnknownList(lists: seq<List>, listId: string, content: string)
    requires FindList(lists, listId).None?
    ensures AddTask(lists, listId, content) == lists
  {
    if lists != [] {
      AddTaskUnknownList(lists[1..], listId, content);
    }
  }

  /** How many lists carry the id `id`. */
  function ListsWithId(lists: seq<List>, id: string): nat
  {
    if lists == [] then 0 else (if lists[0].id == id then 1 else 0) + ListsWithId(lists[1..], id)
  }

  /** The board grows by one item per list that carries `listId`. */
  lemma {:induction false} AddTaskCount(lists: seq<List>, listId: string, content: string)
    ensures ItemCount(AddTask(lists, listId, content)) == ItemCount(lists) + ListsWithId(lists, listId)
  {
    if lists != [] {
      AddTaskCount(lists[1..], listId, content);
      assert AddTask(lists, listId, content)[1..] == AddTask(lists[1..], listId, content);
    }
  }

  /** When list ids are distinct, appending to an existing list adds
      exactly one item to the board. */
  lemma {:induction false} AddTaskAddsOne(lists: seq<List>, listId: string, content: string)
    requires forall i, j :: 0 <= i < j < |lists| ==> lists[i].id != lists[j].id
    requires FindList(lists, listId).Some?
    ensures ItemCount(AddTask(lists, listId, content)) == ItemCount(lists) + 1
  {
    AddTaskCount(lists, listId, content);
    UniqueIdCountsOnce(lists, listId);
  }

  lemma {:induction false} UniqueIdCountsOnce(lists: seq<List>, id: string)
    requires forall i, j :: 0 <= i < j < |lists| ==> lists[i].id != lists[j].id
    requires FindList(lists, id).Some?
    ensures ListsWithId(lists, id) == 1
  {
    if lists[0].id == id {
      NoListWithId(lists[1..], id);
    } else {
      UniqueIdCountsOnce(lists[1..], id);
    }
  }

  lemma {:induction false} NoListWithId(lists: seq<List>, id: string)
    requires forall j :: 0 <= j < |lists| ==> lists[j].id != id
    ensures ListsWithId(lists, id) == 0
  {
    if lists != [] {
      NoListWithId(lists[1..], id);
    }
  }

  /** The minted id is not unique across the board: adding a task to
      "In Progress" on the initial board mints "item2", which "To Do"
      already holds. */
  lemma MintedIdCanCollide(content: string)
    ensures var r := AddTask(InitialLists(), "list2", content);
      |r[1].items| == 2 && r[1].items[1].id == "item2" && r[0].items[1].id == "item2"
  {
    assert Decimal(2) == "2";
    AddTaskAppends(InitialLists(), "list2", content, 0);
    AddTaskAppends(InitialLists(), "list2", content, 1);
  }
}
