/** The Board component's state (`lists` and `newTaskContent`) and the two
    handlers that change it, `onDragEnd` and `handleAddTask`. A React state
    update is modelled as an assignment to the field. */
module BoardState {
  import opened Splice
  import opened Whitespace
  import opened Kanban

  /** `lists.find(list => list.id === id)`: a scan from the front that
      stops at the first list carrying the id. */
  method FindListIndex(lists: seq<List>, id: string) returns (found: Option<nat>)
    ensures found == FindList(lists, id)
  {
    var i := 0;
    while i < |lists|
      invariant i <= |lists|
      invariant forall j :: 0 <= j < i ==> lists[j].id != id
    {
      if lists[i].id == id {
        return Some(i);
      }
      i := i + 1;
    }
    return None;
  }

  /** `const [removed] = items.splice(from, 1); items.splice(to, 0, removed)`
      on a list that has an item at `from`. */
  method SpliceMove(items: seq<Item>, from: nat, to: nat) returns (moved: seq<Item>)
    requires from < |items|
    ensures moved == Reorder(items, from, to)
  {
    var (rest, removed) := DeleteOne(items, from);
    assert rest == RemoveAt(items, from) && removed == [items[from]];
    moved := InsertAt(rest, to, removed[0]);
  }

  class Board {
    var lists: seq<List>
    var newTaskContent: string

    /** The component's initial state: the three seeded lists and an empty
        input. */
    constructor ()
      ensures lists == InitialLists() && newTaskContent == ""
    {
      lists := InitialLists();
      newTaskContent := "";
    }

    /** `setNewTaskContent`: the text typed into an input. */
    method SetNewTaskContent(text: string)
      modifies this
      ensures newTaskContent == text && lists == old(lists)
    {
      newTaskContent := text;
    }

    /** `onDragEnd`: find the list(s) named by the drop result, then splice
        the dragged item out of its list and into its destination. */
    method OnDragEnd(result: DropResult)
      modifies this
      ensures lists == DragEnd(old(lists), result)
      ensures BoardItems(lists) == BoardItems(old(lists))
      ensures newTaskContent == old(newTaskContent)
    {
      DragEndConservesItems(lists, result);
      if result.destination.None? {
        return;
      }
      var source, destination := result.source, result.destination.value;
      var updatedLists := lists;
      if source.droppableId == destination.droppableId {
        var found := FindListIndex(updatedLists, source.droppableId);
        if found.Some? {
          var i := found.value;
          var items := updatedLists[i].items;
          if source.index < |items| {
            items := SpliceMove(items, source.index, destination.index);
            updatedLists := updatedLists[i := updatedLists[i].(items := items)];
            lists := updatedLists;
          }
        }
      } else {
        var sourceList := FindListIndex(updatedLists, source.droppableId);
        var destinationList := FindListIndex(updatedLists, destination.droppableId);
        if sourceList.Some? && destinationList.Some? &&
           source.index < |updatedLists[sourceList.value].items| {
          var s, d := sourceList.value, destinationList.value;
          var draggedItem := updatedLists[s].items[source.index];
          updatedLists := updatedLists[s := updatedLists[s].(items := RemoveAt(updatedLists[s].items, source.index))];
          updatedLists := updatedLists[d := updatedLists[d].(items := InsertAt(updatedLists[d].items, destination.index, draggedItem))];
          lists := updatedLists;
        }
      }
    }

    /** `handleAddTask`: unless the typed text is blank, append it as a new
        item to every list with id `listId`, then clear the input. */
    method HandleAddTask(listId: string)
      modifies this
      ensures IsBlank(old(newTaskContent)) ==>
        lists == old(lists) && newTaskContent == old(newTaskContent)
      ensures !IsBlank(old(newTaskContent)) ==>
        lists == AddTask(old(lists), listId, old(newTaskContent)) && newTaskContent == ""
    {
      if IsBlank(newTaskContent) {
        return;
      }
      lists := AddTask(lists, listId, newTaskContent);
      newTaskContent := "";
    }
  }
}
