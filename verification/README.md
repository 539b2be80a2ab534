# Kanban board state, modelled in Dafny

A model of the state logic of a small React Kanban board. The board maps a
column key (`todo`, `in-progress`, `done`) to a column. A column has a title
and an ordered list of task cards. Each card carries coloured tags.

Two operations change the board:

- **Drag end** (`handelDragEnd`). The drag library reports a source location
  and an optional destination. The card is spliced out of the source list.
  A copy is then spliced into the destination list, which is read after the
  removal.
- **Add item** (`addItem`). A name that is blank after `trim()` is ignored.
  Any other name becomes a new card at the head of `todo`. The card has one
  VERSION tag named `1.3-alpha`.

The card view maps each tag type to a colour (BUG red, WARNING yellow,
everything else teal). It renders one badge per tag, with the colour built
into three Tailwind classes.

All state is immutable. Each operation is a pure function from board to
board. Fresh ids from `uuidv4()` and the time from `Date.now()` are
parameters supplied by the caller.

Files and modules:

- `options.dfy` (`Options`): the optional-value datatype.
- `lists.dfy` (`Lists`): `splice` as a value-level function, plus the
  remove/insert pair the drag handler uses.
- `text.dfy` (`Text`): `String.prototype.trim` over the ECMAScript
  whitespace and line-terminator code points.
- `cards.dfy` (`Cards`): `TagType`, `Tag`, `Item`, the colour switch and its
  inverse, and badge rendering.
- `board.dfy` (`Board`): `Column` and `Board`, and the board-wide bag of
  cards and of card ids. A ghost fold over the key set computes them.
- `drag.dfy` (`Drag`): the drag-end handler and its properties.
- `add_item.dfy` (`NewTask`): the add-task action and its properties.
- `seed.dfy` (`Seed`): the initial board and two worked scenarios.

Points where the model follows the code's exact behaviour:

- Adding a card retitles the `todo` column to `Todo`. The seed title is
  `ToDo`, so the first add changes the visible title (`Seed.AddAfterDrag`).
- Nothing in the code keeps tag ids unique within a card, so the model
  does not require it either.

What the drag handler does on a location the drag library never reports,
which the model leaves out:

- An unknown source column throws a TypeError in the handler itself, when
  `columns[source.droppableId].items` is read at src/App.tsx:68.
- An unknown destination column throws a TypeError later, inside the
  state-update callback, at `prev[destination.droppableId].items` on
  src/App.tsx:73. By then line 72 has already spliced the source array in
  place, because line 71 copies only the outer record.
- A bad index raises no error.
  - An out-of-range source index reads `undefined`, and `{...undefined}` is
    an empty object. So `{}` is inserted at the destination.
  - A source index at or past the end removes nothing. A negative source
    index -k removes the card k places from the end, or the first card
    when k exceeds the length.
  - A destination index above the list's length appends the card. A
    negative one counts from the end, or means the front when it reaches
    past it.
- `Drag.DragEnd` takes a valid move as a precondition instead of modelling
  these outcomes. `Drag.TryDragEnd` is a fail-fast variant that the code
  does not have. It names each case that precondition excludes and rejects
  it with `InvalidMove`.

## Model

| member | source | states |
|---|---|---|
| Lists.Splice | src/App.tsx:72-73 | `splice(start, n, ...items)` keeps the prefix before `start`, puts `items` there, and shifts the tail after the deleted run by the number inserted minus `n` |
| Lists.RemoveAt | src/App.tsx:72 | `splice(i, 1)` shortens the list by one. Elements before `i` stay, later ones move down one, and the bag loses exactly `s[i]` |
| Lists.InsertAt | src/App.tsx:73 | `splice(i, 0, x)` puts `x` at `i`. Earlier elements stay, later ones move up one, and the bag gains exactly `x` |
| Lists.InsertRemovedRestores | src/App.tsx:72-73 | re-inserting the removed element at its old index gives back the original list |
| Lists.RemoveInsertedRestores | src/App.tsx:72-73 | removing an element just inserted gives back the original list |
| Text.Trim | src/App.tsx:80 | `trim()` returns a contiguous slice of the input. Everything before it and everything after it is whitespace, and the slice neither starts nor ends with whitespace, so exactly the leading and trailing whitespace runs are removed. The result is empty exactly when every character is whitespace |
| Cards.TagColour | src/components/DraggableItem.tsx:42-52 | the switch is total over the enum and lands in {red, yellow, teal}. Red iff BUG, yellow iff WARNING, and teal (the default) iff VERSION |
| Cards.ColourRoundTrip | src/components/DraggableItem.tsx:42-52 | the colour determines the tag type: reading the type back from the colour gives the original |
| Cards.BadgeShowsTagColour | src/components/DraggableItem.tsx:53-67 | the badge, dot and caption classes lead with `bg-<c>-50`, `text-<c>-500` and `text-<c>-400` for the tag's colour `c`. The tag type can be read back from the badge |
| Cards.RenderTags | src/components/DraggableItem.tsx:41-68 | one badge per tag, in tag order. Each badge is that tag's badge: keyed by the tag id, captioned with the tag name, with badge, dot and caption classes all built from the tag type's colour, which can be read back from the badge |
| Board.StandardItemCount | src/App.tsx:7-12 | on a board with the three standard columns, the card count is the sum of the three column lengths |
| Drag.Relocate | src/App.tsx:67-75 | the two splices keep every key and title, touch no third column, and leave the moved card at the destination index. Lengths: unchanged for one column, -1/+1 across two |
| Drag.DragEnd | src/App.tsx:63-77 | no destination, or a drop back in the same slot, leaves the board equal. Otherwise the card lands at the destination index. Keys, titles and all other columns never change |
| Drag.CrossColumnMove | src/App.tsx:67-73 | across columns, the source list is the old one minus the source index and the destination list is the old one plus the card at the destination index. With unique ids the card's id leaves the source column |
| Drag.SameColumnMove | src/App.tsx:72-73 | within one column, the result is remove-then-insert with the destination index read on the shortened list. The card sits exactly at the destination index, the cards in between shift one step toward the vacated slot, and the rest stay put |
| Drag.DropInPlaceIsIdentity | src/App.tsx:65 | running the two splices for a drop back in place would also leave the board unchanged, so the early return only saves work |
| Drag.DragEndPreservesContents | src/App.tsx:67-75 | a move keeps the bag of cards, the bag of card ids and the card count, and keeps ids unique exactly when they were |
| Drag.DragBackRestores | src/App.tsx:72-73 | the reverse drag is always valid and restores the original board, within one column and across two |
| Drag.TryDragEnd | src/App.tsx:63-77 | a drop that is not an early return is rejected with `InvalidMove` exactly when a column is unknown, the source index is outside the source list, or the destination index is negative or past the end of the destination list after removal. An accepted drop keeps the keys, the bag of cards and the bag of ids. An early return leaves the board equal, and otherwise the source card lands at the destination index |
| NewTask.AddItem | src/App.tsx:79-105 | a blank name leaves the board equal. Otherwise `todo` grows by one and is titled `Todo`, and the new card comes first. It has the untrimmed name, the given id and time, and one VERSION tag `1.3-alpha`. The old `todo` cards follow in order and the other columns stay equal |
| NewTask.WhitespaceNameIsNoOp | src/App.tsx:80 | an empty or whitespace-only name changes nothing |
| NewTask.VisibleNameIsAdded | src/App.tsx:80-102 | any name with a non-whitespace character puts the new card in front of the old `todo` cards |
| NewTask.AddItemContents | src/App.tsx:81-102 | adding puts exactly the new card on the board and the card count grows by one |
| NewTask.AddItemIds | src/App.tsx:81-102 | adding puts exactly the new id on the board; a fresh id keeps all ids unique |
| Seed.InitialColumns | src/App.tsx:15-59 | the seed has the three standard keys, titled `ToDo`, `In Progress` and `Completed`, with one, one and zero cards |
| Seed.InitialColumnsContents | src/App.tsx:15-59 | the seed holds exactly the two seed cards |
| Seed.InitialColumnsIds | src/App.tsx:15-59 | the seed's ids are the two card ids, unique exactly when those differ |
| Seed.DragTodoToDone | src/App.tsx:46-77 | dragging `todo`[0] to `done`[0] on the seed leaves `todo` empty, keeps the in-progress card, and moves the card to `done` |
| Seed.AddAfterDrag | src/App.tsx:79-102 | adding "Ship release" after that drag leaves only the new card in `todo`, named "Ship release", under the title `Todo` |

## Left out

- React rendering, JSX, `useState`/`useMemo`, and `_.map` over the columns are view plumbing. So are the input's `onChange`, the button, and clearing the input after an add (`setNewTodo('')`).
- The drag library's components (`DragDropContext`, `Droppable`, `Draggable`, `provided`/`snapshot`) are left out. Only the source and destination it reports are modelled.
- `uuidv4()` and `Date.now()` are foreign and nondeterministic. They become parameters. Freshness of the new card id is a hypothesis of `NewTask.AddItemIds`.
- `formatDistance` (relative creation time on a card) is a date library function and is not modelled. Neither are the avatar image, the dragging highlight, or the non-colour Tailwind styling.
- The setter works on a shallow copy, `{...prev}`, and splices the column arrays in place. The copied card is also read from the `columns` of the last render, not from `prev`. The model gives the intended pure transformation and does not model this aliasing.
- Drag.DragEnd: requires a known source and destination column, a source index that holds a card, and a destination index no greater than the destination list's length after removal. It does not model what the code does outside that: the TypeError from an unknown column, the empty object `{}` inserted for an out-of-range source index, the card k places from the end (or the first card) removed for a source index -k, and a destination index that appends when above the length and counts from the end when negative. The drag library only reports valid locations.
- `newTodo || ''` is modelled as `newTodo`. It only runs once `newTodo` is non-blank, so it is never empty there.
- Text.Trim: works on Dafny characters, not UTF-16 code units. Every ECMAScript whitespace code point is in the Basic Multilingual Plane, so the result is the same.
- Cards.TagColour: a TypeScript numeric enum can hold numbers other than its three members, and those fall into the default (teal) branch. The Dafny enum is closed, so only the three members are modelled.
- NewTask.AddItem: requires the `todo` key when the name is not blank, and does not model the TypeError `columns.todo.items` throws at src/App.tsx:98 without it. That cannot happen: the seed has the key, and `Drag.DragEnd` and `NewTask.AddItem` both keep the key set.
