# Kanban board state model

This project models the state logic of a Trello-like board component. The
board is an ordered sequence of lists. Each list has an id, a title and an
ordered sequence of items, and each item has an id and a content string. The
component keeps two pieces of state: `lists`, and `newTaskContent` (the text in
the "Add new task" input). It changes them in two handlers:

- `onDragEnd` runs when a drag ends. It reorders an item within its list, or
  moves it to another list. Both are built on `Array.prototype.splice` (ECMA-262,
  section 23.1.3.31 in the ES2023 numbering). An insert position past the end is
  clamped to the length, so the item is appended.
- `handleAddTask` appends the typed text to a list as a new item with the id
  `item${length + 1}`, then clears the input. Text that trims to the empty
  string is ignored.

Modules:

- `Splice` (splice.dfy) models the two splice calls, "remove one at i" and
  "insert x at start". It proves that they are inverses of each other and what
  they do to the multiset of elements.
- `Whitespace` (whitespace.dfy) models `String.prototype.trim` with the
  ECMAScript WhiteSpace and LineTerminator characters. It proves that text is
  blank exactly when every character is whitespace.
- `ItemIds` (ids.dfy) models how a number is written into the minted id
  `item${n}`. It proves that reading the numeral back gives the number, so
  distinct numbers give distinct ids.
- `Kanban` (kanban.dfy) holds the datatypes and the two transitions as
  functions on values: `DragEnd` and `AddTask`. It proves lemmas about them:
  items are conserved, exactly one item moves, lists that are not touched stay
  the same, and failed lookups change nothing.
- `BoardState` (board.dfy) holds the class `Board` with the fields `lists` and
  `newTaskContent`. Its methods `OnDragEnd` and `HandleAddTask` update them. A
  React state update is modelled as a field assignment. `OnDragEnd` performs
  `find` as a linear search (`FindListIndex`) and is proved to produce
  `DragEnd` of the old board.

The model follows the code, not a stricter design, in these places:

- A destination list that cannot be found is silently ignored, not reported
  (src/components/Board.tsx:60).
- An append to an unknown list id leaves every list as it was and raises no
  error; the input is still cleared (src/components/Board.tsx:72, 82-83).
- The appended content is stored untrimmed (src/components/Board.tsx:75).
- Minted ids are not unique across the board. `Kanban.MintedIdCanCollide`
  exhibits a collision on the initial board.
- `handleAddTask` updates every list whose id matches, because `lists.map`
  visits them all. `onDragEnd` uses only the first match, because that is what
  `find` returns.

## Model

| member | source | states |
|---|---|---|
| `Splice.RemoveAt` | src/components/Board.tsx:61 | removing position i shortens the array by one; elements before i stay and elements after i shift down by one |
| `Splice.DeleteOne` | src/components/Board.tsx:50 | `splice(start, 1)` splits the array into what is left and what was removed: one element removed exactly when start is in range, none past the end; putting the removed part back at min(start, length) rebuilds the input, and together the two parts hold exactly the input's elements |
| `Splice.InsertAt` | src/components/Board.tsx:62 | inserting grows the array by one and places x at min(start, length); the elements before keep their place and the elements after shift up by one |
| `Splice.RemoveAtMultiset` | src/components/Board.tsx:61 | removal loses exactly the removed element and nothing else |
| `Splice.InsertAtMultiset` | src/components/Board.tsx:62 | insertion adds exactly the inserted element |
| `Splice.InsertAfterRemove` | src/components/Board.tsx:50-51 | putting a removed element back at its old index restores the array |
| `Splice.RemoveAfterInsert` | src/components/Board.tsx:61-62 | removing an inserted element from its clamped position restores the array |
| `Whitespace.TrimStart` | src/components/Board.tsx:69 | the result is a suffix of the input, only whitespace was dropped, and the result does not start with whitespace |
| `Whitespace.TrimEnd` | src/components/Board.tsx:69 | the result is a prefix of the input, only whitespace was dropped, and the result does not end with whitespace |
| `Whitespace.Trim` | src/components/Board.tsx:69 | `trim()` is no longer than its input and neither starts nor ends with whitespace (`Whitespace.TrimIsInnerSlice` says which slice of the input it is) |
| `Whitespace.TrimIsInnerSlice` | src/components/Board.tsx:69 | trim returns the contiguous slice of the input that starts at the first non-whitespace character, with only whitespace on either side of it |
| `Whitespace.TrimEmptyIffAllWhitespace` | src/components/Board.tsx:69 | trimming leaves the empty string exactly when every character is whitespace, in both directions |
| `Whitespace.IsBlank` | src/components/Board.tsx:69 | the guard `newTaskContent.trim() === ""` holds exactly when every character is whitespace |
| `ItemIds.Decimal` | src/components/Board.tsx:74 | a number's numeral is non-empty, made only of digits, one digit long exactly when the number is below 10, and starts with '0' only for zero (no leading zeros) |
| `ItemIds.ParseDecimalInverse` | src/components/Board.tsx:74 | reading the numeral back yields the number it was written from |
| `ItemIds.NewItemId` | src/components/Board.tsx:74 | `item${n}` is "item" followed by the decimal numeral of n: digits that read back as n, with no leading zero except in "item0" (`ItemIds.NewItemIdInjective` says distinct numbers give distinct ids) |
| `ItemIds.NewItemIdInjective` | src/components/Board.tsx:74 | two minted ids are equal exactly when their numbers are equal |
| `Kanban.FindList` | src/components/Board.tsx:48 | the result is the first list carrying the id, or none exactly when no list carries it |
| `Kanban.Reorder` | src/components/Board.tsx:50-51 | the reordered items keep the list's length and hold the dragged item at min(destination, length - 1) (`Kanban.ReorderMovesOne` adds the multiset and the order of the rest) |
| `Kanban.ReorderMovesOne` | src/components/Board.tsx:50-51 | a reorder keeps the length and the multiset of items, puts the dragged item at min(destination, length - 1), and leaves the other items in their old relative order |
| `Kanban.ReorderInPlace` | src/components/Board.tsx:50-51 | dropping an item at its own index leaves the list unchanged |
| `Kanban.ReorderInList` | src/components/Board.tsx:48-52 | only list i changes; it keeps its id, title and length and holds the dragged item at min(destination, length - 1); every other list is unchanged (`Kanban.DragEndSameList` gives the list's items in full) |
| `Kanban.Transfer` | src/components/Board.tsx:56-62 | the source list shrinks by one and the destination list grows by one, holding the dragged item at min(destination, old length); both keep id and title; every other list is unchanged (`Kanban.DragEndTransfer` gives both lists' items in full) |
| `Kanban.DragEnd` | src/components/Board.tsx:40-66 | every drag keeps the number of lists, their order, their ids and their titles |
| `Kanban.DragEndNoOp` | src/components/Board.tsx:41-60 | no destination, an unknown source or destination list, or no item at the source index leaves the board exactly as it was; for a same-list drag the last case is the model's guard, since lines 50-51 insert `undefined` instead (see Findings) |
| `Kanban.DragEndSameList` | src/components/Board.tsx:46-52 | a same-list drag changes only the matched list's items, to the old items with the dragged one moved to min(destination, length - 1); the length and the multiset are unchanged |
| `Kanban.DragEndTransfer` | src/components/Board.tsx:56-63 | the source list loses exactly the dragged item and shrinks by one; the destination list gains that same item at min(destination, old length) and grows by one; every other list is unchanged |
| `Kanban.ReorderInListConserves` | src/components/Board.tsx:48-52 | a same-list reorder keeps the board's multiset of items |
| `Kanban.TransferConserves` | src/components/Board.tsx:56-63 | a cross-list move keeps the board's multiset of items |
| `Kanban.DragEndConservesItems` | src/components/Board.tsx:40-66 | no drag loses or duplicates an item: the board's multiset of items and its item count are unchanged |
| `Kanban.ReorderAsWritten` | src/components/Board.tsx:50-51 | the unguarded splices keep the length for an in-range source index and add one slot past the end (`Kanban.ReorderAsWrittenInsertsHole` says the slot is `undefined`) |
| `Kanban.ReorderAsWrittenInsertsHole` | src/components/Board.tsx:50-51 | the unguarded same-list splices equal the reorder for an in-range source index; for an index past the end they insert an `undefined` slot at min(destination, length), with every old item kept in order before and after it |
| `Kanban.ReorderAsWrittenPastEnd` | src/components/Board.tsx:50-51 | on `[A]` with source index 1 and destination index 0 the unguarded splices leave `[undefined, A]` |
| `Kanban.InitialLists` | src/components/Board.tsx:15-34 | the seeded board has three lists with distinct ids and four items |
| `Kanban.DragEndExamples` | src/components/Board.tsx:40-66 | [A,B,C,D] with 0 moved to 3 gives [B,C,D,A], and with 2 moved to 0 gives [C,A,B,D]; moving the first of [A,B] to an empty list gives [B] and [A]; a destination equal to the length appends |
| `Kanban.AppendTask` | src/components/Board.tsx:73-77 | the list keeps its id, title and items, followed by one new item with id `item${old length + 1}` and the given content |
| `Kanban.AddTask` | src/components/Board.tsx:71-80 | the board keeps its number of lists (`Kanban.AddTaskAppends` says what each list becomes) |
| `Kanban.AddTaskAppends` | src/components/Board.tsx:71-80 | a matching list gets its old items followed by one item with id `item${old length + 1}` and the untrimmed content; other lists are unchanged; ids and titles are kept |
| `Kanban.AddTaskUnknownList` | src/components/Board.tsx:71-80 | a list id that names no list leaves every list unchanged |
| `Kanban.AddTaskCount` | src/components/Board.tsx:71-80 | the item count rises by the number of lists carrying the id |
| `Kanban.AddTaskAddsOne` | src/components/Board.tsx:71-80 | with distinct list ids, an append to an existing list adds exactly one item to the board |
| `Kanban.MintedIdCanCollide` | src/components/Board.tsx:74 | on the initial board, appending to "In Progress" mints "item2", which "To Do" already holds, so minted ids are not unique |
| `BoardState.FindListIndex` | src/components/Board.tsx:56-57 | the scan returns the first list with the id, or none when no list has it |
| `BoardState.SpliceMove` | src/components/Board.tsx:50-51 | the remove-then-insert splice pair yields the reorder of the list, on a source index the caller has checked |
| `BoardState.Board.constructor` | src/components/Board.tsx:15-38 | the initial state is the three seeded lists and an empty input |
| `BoardState.Board.SetNewTaskContent` | src/components/Board.tsx:38 | the input holds the typed text and the lists are unchanged |
| `BoardState.Board.OnDragEnd` | src/components/Board.tsx:40-66 | the new lists are `DragEnd` of the old lists, the board's items are conserved, and the input is untouched |
| `BoardState.Board.HandleAddTask` | src/components/Board.tsx:68-84 | blank input changes nothing and leaves the input as it was; otherwise the lists become `AddTask` of the old lists with the untrimmed text and the input is cleared |

## Left out

- Rendering is not modelled: the JSX, `DragDropContext`, `Droppable`, `Draggable` and the input's `onChange` wiring (src/components/Board.tsx:86-126). The setter that `onChange` calls is modelled as `SetNewTaskContent`.
- src/App.tsx is not part of this model. It only renders the board inside a page.
- React's `useState` scheduling, batching and re-rendering are not modelled. A state update is an assignment.
- `[...lists]` is a shallow copy, so the splices also change the list objects of the previous snapshot. The model describes the new board only.
- Negative splice indices are not modelled. The drag layer reports non-negative positions, so indices are `nat`.
- The drop result's other fields (`draggableId`, `type`, `reason`, `mode`, `combine`) are not modelled. The handler does not read them.
- `Kanban.DragEnd`, `Kanban.DragEndNoOp`, `Kanban.DragEndConservesItems`, `BoardState.Board.OnDragEnd` and `BoardState.SpliceMove`: an out-of-range source index in a same-list drag is treated as no change (`SpliceMove` is only called after that check). The code as written inserts `undefined` instead (see Findings and `Kanban.ReorderAsWritten`). Rendering that `undefined` item would then fail; that is also not modelled. `Kanban.Reorder`, `Kanban.ReorderMovesOne`, `Kanban.ReorderInList`, `Kanban.DragEndSameList` and `Kanban.ReorderInListConserves` require `from < |items|`: they state the in-range half of the same-list branch, and `Kanban.ReorderAsWritten` covers every source index.
- `Whitespace.IsWhitespace`: the Space_Separator characters are listed as they stand in the current Unicode version. The model treats strings as sequences of code points, not UTF-16 units. Every trimmed character is in the Basic Multilingual Plane, so this does not change what trim removes.
- Board-wide uniqueness of item ids is not claimed, because the code does not provide it (see `Kanban.MintedIdCanCollide`).

## Findings

| source | as written | input that shows it | evidently intended | confidence | as-written member | corrected member |
|---|---|---|---|---|---|---|
| src/components/Board.tsx:50-51 | the same-list branch splices without checking `source.index`; an index past the end removes nothing, `removed` is `undefined`, and `undefined` is then inserted | list `[A]`, source index 1, destination index 0: the items become `[undefined, A]` | ignore the drag, as the cross-list branch does when `draggedItem` is missing (lines 58-60); then every drag conserves the board's items | low (the drag layer only reports positions of rendered items); not executed | `Kanban.ReorderAsWrittenInsertsHole` | `Kanban.DragEndConservesItems` |
