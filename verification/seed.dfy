/**
 The board the app starts with, and the two worked scenarios over it: a
 drag from `todo` to `done`, then adding a card.
 */
module Seed {
  import opened Options
  import opened Cards
  import opened Board
  import opened Drag
  import opened NewTask

  /** The ids and creation times the seed cards receive at start-up. */
  datatype SeedValues = SeedValues(
    deployId: string, deployTagId: string, deployCreatedAt: int,
    renderId: string, renderBugTagId: string, renderVersionTagId: string, renderCreatedAt: int)

  /** `item1`: the in-progress card. */
  function DeployCard(v: SeedValues): Item {
    Item(v.deployId, "Check for deploy", v.deployCreatedAt, [Tag(v.deployTagId, "1.2", Version)])
  }

  /** `item2`: the todo card. */
  function RenderCard(v: SeedValues): Item {
    Item(v.renderId, "Unable to render Item", v.renderCreatedAt,
      [Tag(v.renderBugTagId, "bug", Bug), Tag(v.renderVersionTagId, "1.2.1", Version)])
  }

  /** `initialColumns`: the three standard columns, with the render card in
      `todo`, the deploy card in progress and nothing done. */
  function InitialColumns(v: SeedValues): (b: Board)
    ensures HasStandardColumns(b)
    ensures b[TodoKey].title == "ToDo" && b[InProgressKey].title == "In Progress" && b[DoneKey].title == "Completed"
    ensures |b[TodoKey].items| == 1 && |b[InProgressKey].items| == 1 && |b[DoneKey].items| == 0
  {
    map[
      TodoKey := Column("ToDo", [RenderCard(v)]),
      InProgressKey := Column("In Progress", [DeployCard(v)]),
      DoneKey := Column("Completed", [])]
  }

  /** The seed holds exactly the two seed cards. */
  lemma {:induction false} InitialColumnsContents(v: SeedValues)
    ensures Contents(InitialColumns(v)) == multiset{RenderCard(v), DeployCard(v)}
    ensures ItemCount(InitialColumns(v)) == 2
  {
    var b := InitialColumns(v);
    GatherStandard(b, ColumnItems);
    assert ColumnItems(b[TodoKey]) == multiset{RenderCard(v)};
    assert ColumnItems(b[InProgressKey]) == multiset{DeployCard(v)};
    assert ColumnItems(b[DoneKey]) == multiset{};
  }

  /** The seed's card ids are unique exactly when the two card ids differ. */
  lemma {:induction false} InitialColumnsIds(v: SeedValues)
    ensures BoardIds(InitialColumns(v)) == multiset{v.renderId, v.deployId}
    ensures UniqueIds(InitialColumns(v)) <==> v.renderId != v.deployId
  {
    var b := InitialColumns(v);
    GatherStandard(b, ColumnIds);
    assert IdsOf([RenderCard(v)]) == [v.renderId];
    assert IdsOf([DeployCard(v)]) == [v.deployId];
    assert ColumnIds(b[TodoKey]) == multiset{v.renderId};
    assert ColumnIds(b[InProgressKey]) == multiset{v.deployId};
    assert ColumnIds(b[DoneKey]) == multiset{};
    var ids := BoardIds(b);
    assert ids == multiset{v.renderId, v.deployId};
    if v.renderId == v.deployId {
      assert ids[v.renderId] == 2;
    } else {
      forall id
        ensures ids[id] <= 1
      {
        if id == v.renderId {
          assert ids[id] == 1;
        }
      }
    }
  }

  /** Dragging the `todo` card to the top of `done` empties `todo`, leaves
      the in-progress column alone and puts the card in `done`. */
  lemma DragTodoToDone(v: SeedValues)
    ensures var d := DropResult(Location(TodoKey, 0), Some(Location(DoneKey, 0)));
      && CanApply(InitialColumns(v), d)
      && var r := DragEnd(InitialColumns(v), d);
      && r[TodoKey].items == []
      && r[InProgressKey].items == [DeployCard(v)]
      && r[DoneKey].items == [RenderCard(v)]
  {
    var b := InitialColumns(v);
    var src, dst := Location(TodoKey, 0), Location(DoneKey, 0);
    CrossColumnMove(b, src, dst);
  }

  /** Adding "Ship release" after that drag leaves exactly the new card in
      `todo`, and the column's seed title `ToDo` is replaced by `Todo`. */
  lemma AddAfterDrag(v: SeedValues, itemId: string, tagId: string, now: int)
    ensures var d := DropResult(Location(TodoKey, 0), Some(Location(DoneKey, 0)));
      && CanApply(InitialColumns(v), d)
      && var r := AddItem(DragEnd(InitialColumns(v), d), "Ship release", itemId, tagId, now);
      && r[TodoKey].title == "Todo"
      && r[TodoKey].items == [NewItem("Ship release", itemId, tagId, now)]
      && r[TodoKey].items[0].name == "Ship release"
  {
    DragTodoToDone(v);
    var d := DropResult(Location(TodoKey, 0), Some(Location(DoneKey, 0)));
    var m := DragEnd(InitialColumns(v), d);
    assert "Ship release"[0] == 'S';
    VisibleNameIsAdded(m, "Ship release", itemId, tagId, now, 0);
  }
}
