/**
 The drag-end handler: the drag library reports where a card was picked up
 and where (if anywhere) it was dropped, and the board moves the card by
 splicing it out of the source column and into the destination column.
 */
module Drag {
  import opened Options
  import opened Lists
  import opened Board

  /** A drag location as the drag library reports it: the droppable (a
      column key) and an index into that column's list. */
  datatype Location = Location(droppableId: string, index: int)

  /** The part of the drag library's drop report the handler reads; an
      absent destination means the drop landed outside every column. */
  datatype DropResult = DropResult(source: Location, destination: Option<Location>)

  /** The handler returns early: the drop was cancelled, or the card was
      dropped back into the slot it came from. */
  predicate IsNoOp(d: DropResult) {
    || d.destination.None?
    || (d.destination.value.index == d.source.index
        && d.destination.value.droppableId == d.source.droppableId)
  }

  /** Both locations name columns of the board, the source index holds a
      card, and the destination index is a slot of the destination list as
      it stands once the card has been taken out. */
  predicate IsValidMove(b: Board, src: Location, dst: Location) {
    && src.droppableId in b
    && dst.droppableId in b
    && 0 <= src.index < |b[src.droppableId].items|
    && 0 <= dst.index
    && dst.index <= |b[dst.droppableId].items| - (if src.droppableId == dst.droppableId then 1 else 0)
  }

  /** A drop report the handler can apply to `b`. */
  predicate CanApply(b: Board, d: DropResult) {
    IsNoOp(d) || IsValidMove(b, d.source, d.destination.value)
  }

  /** The two splices of the handler, in order: take the card out of the
      source list, then insert the copy into the destination list as it
      stands after the removal. When both are one column, the second splice
      sees the shortened list. */
  function Relocate(b: Board, src: Location, dst: Location): (r: Board)
    requires IsValidMove(b, src, dst)
    ensures r.Keys == b.Keys
    ensures forall k :: k in b ==> r[k].title == b[k].title
    ensures forall k :: k in b && k != src.droppableId && k != dst.droppableId ==> r[k] == b[k]
    ensures src.droppableId == dst.droppableId ==>
      |r[src.droppableId].items| == |b[src.droppableId].items|
    ensures src.droppableId != dst.droppableId ==>
      && |r[src.droppableId].items| == |b[src.droppableId].items| - 1
      && |r[dst.droppableId].items| == |b[dst.droppableId].items| + 1
    ensures dst.index < |r[dst.droppableId].items|
    ensures r[dst.droppableId].items[dst.index] == b[src.droppableId].items[src.index]
  {
    var itemCopy := b[src.droppableId].items[src.index];
    var removed := WithItems(b, src.droppableId, RemoveAt(b[src.droppableId].items, src.index));
    WithItems(removed, dst.droppableId, InsertAt(removed[dst.droppableId].items, dst.index, itemCopy))
  }

  /** `handelDragEnd`: nothing changes on a cancelled drop or a drop back in
      place; otherwise the card moves. Keys and titles never change, and
      no column other than the source and destination is touched. */
  function DragEnd(b: Board, d: DropResult): (r: Board)
    requires CanApply(b, d)
    ensures IsNoOp(d) ==> r == b
    ensures r.Keys == b.Keys
    ensures forall k :: k in b ==> r[k].title == b[k].title
    ensures forall k :: (k in b && k != d.source.droppableId
      && (d.destination.None? || k != d.destination.value.droppableId)) ==> r[k] == b[k]
    ensures !IsNoOp(d) ==>
      && d.destination.value.index < |r[d.destination.value.droppableId].items|
      && r[d.destination.value.droppableId].items[d.destination.value.index]
         == b[d.source.droppableId].items[d.source.index]
  {
    if IsNoOp(d) then b else Relocate(b, d.source, d.destination.value)
  }

  /** Across columns, the source list loses exactly the entry at the source
      index and the destination list gains the card at the destination
      index; under unique ids the card's id is gone from the source column. */
  lemma CrossColumnMove(b: Board, src: Location, dst: Location)
    requires IsValidMove(b, src, dst) && src.droppableId != dst.droppableId
    ensures var r := Relocate(b, src, dst);
      && r[src.droppableId].items == RemoveAt(b[src.droppableId].items, src.index)
      && r[dst.droppableId].items == InsertAt(b[dst.droppableId].items, dst.index, b[src.droppableId].items[src.index])
    ensures UniqueIds(b) ==>
      b[src.droppableId].items[src.index].id !in IdsOf(Relocate(b, src, dst)[src.droppableId].items)
  {
    var s := b[src.droppableId].items;
    var x := s[src.index];
    if UniqueIds(b) {
      GatherSplit(b, src.droppableId, ColumnIds);
      assert BoardIds(b)[x.id] <= 1;
      MapRemoveAt(ItemId, s, src.index);
      assert IdsOf(s)[src.index] == x.id;
      assert multiset(IdsOf(RemoveAt(s, src.index)))[x.id] == 0;
    }
  }

  /** Within one column the move is remove-then-insert on one list, with the
      destination index read against the shortened list; the card ends
      exactly at the destination index, the cards between the two indices
      shift by one toward the vacated slot, and the rest stay put. */
  lemma SameColumnMove(b: Board, src: Location, dst: Location)
    requires IsValidMove(b, src, dst) && src.droppableId == dst.droppableId
    ensures var s := b[src.droppableId].items;
      var t := Relocate(b, src, dst)[src.droppableId].items;
      && t == InsertAt(RemoveAt(s, src.index), dst.index, s[src.index])
      && |t| == |s|
      && t[dst.index] == s[src.index]
      && (forall k :: 0 <= k < |s| && (k < src.index || k > dst.index) && (k < dst.index || k > src.index) ==> t[k] == s[k])
      && (forall k :: src.index <= k < dst.index ==> t[k] == s[k + 1])
      && (forall k :: dst.index < k <= src.index ==> t[k] == s[k - 1])
  {
  }

  /** Applying the remove-then-insert to a drop back in place would leave
      the board as it is: the early return saves a re-render, not a change. */
  lemma {:induction false} DropInPlaceIsIdentity(b: Board, loc: Location)
    requires IsValidMove(b, loc, loc)
    ensures Relocate(b, loc, loc) == b
  {
    var c := b[loc.droppableId];
    InsertRemovedRestores(c.items, loc.index);
    assert Relocate(b, loc, loc)[loc.droppableId] == c;
  }

  /** The two splices keep the bag of cards. */
  lemma {:induction false} RelocateKeepsContents(b: Board, src: Location, dst: Location)
    requires IsValidMove(b, src, dst)
    ensures Contents(Relocate(b, src, dst)) == Contents(b)
  {
    var s := b[src.droppableId].items;
    var x := s[src.index];
    var removed := WithItems(b, src.droppableId, RemoveAt(s, src.index));
    var t := removed[dst.droppableId].items;
    assert Relocate(b, src, dst) == WithItems(removed, dst.droppableId, InsertAt(t, dst.index, x));
    GatherShrink(b, src.droppableId, removed[src.droppableId], ColumnItems, multiset{x});
    GatherGrow(removed, dst.droppableId, Column(removed[dst.droppableId].title, InsertAt(t, dst.index, x)), ColumnItems, multiset{x});
  }

  /** The two splices keep the bag of card ids. */
  lemma {:induction false} RelocateKeepsIds(b: Board, src: Location, dst: Location)
    requires IsValidMove(b, src, dst)
    ensures BoardIds(Relocate(b, src, dst)) == BoardIds(b)
  {
    var s := b[src.droppableId].items;
    var x := s[src.index];
    var removed := WithItems(b, src.droppableId, RemoveAt(s, src.index));
    var t := removed[dst.droppableId].items;
    assert Relocate(b, src, dst) == WithItems(removed, dst.droppableId, InsertAt(t, dst.index, x));
    MapRemoveAt(ItemId, s, src.index);
    assert IdsOf(s)[src.index] == x.id;
    GatherShrink(b, src.droppableId, removed[src.droppableId], ColumnIds, multiset{x.id});
    MapInsertAt(ItemId, t, dst.index, x);
    GatherGrow(removed, dst.droppableId, Column(removed[dst.droppableId].title, InsertAt(t, dst.index, x)), ColumnIds, multiset{x.id});
  }

  /** A move neither creates nor loses cards: the bag of cards, the bag of
      card ids and the card count are unchanged, so unique ids stay unique. */
  lemma {:induction false} DragEndPreservesContents(b: Board, d: DropResult)
    requires CanApply(b, d)
    ensures Contents(DragEnd(b, d)) == Contents(b)
    ensures BoardIds(DragEnd(b, d)) == BoardIds(b)
    ensures ItemCount(DragEnd(b, d)) == ItemCount(b)
    ensures UniqueIds(DragEnd(b, d)) <==> UniqueIds(b)
  {
    if !IsNoOp(d) {
      RelocateKeepsContents(b, d.source, d.destination.value);
      RelocateKeepsIds(b, d.source, d.destination.value);
    }
  }

  /** Within one column, dragging the card back undoes the move. */
  lemma {:induction false} SameColumnBack(b: Board, src: Location, dst: Location)
    requires IsValidMove(b, src, dst) && src.droppableId == dst.droppableId
    ensures IsValidMove(Relocate(b, src, dst), dst, src)
    ensures Relocate(Relocate(b, src, dst), dst, src) == b
  {
    var c := src.droppableId;
    var s := b[c].items;
    var x := s[src.index];
    var u := RemoveAt(s, src.index);
    var t := InsertAt(u, dst.index, x);
    WithItemsTwice(b, c, u, t);
    var r := WithItems(b, c, t);
    assert Relocate(b, src, dst) == r;
    RemoveInsertedRestores(u, dst.index, x);
    InsertRemovedRestores(s, src.index);
    WithItemsTwice(r, c, u, s);
    WithItemsTwice(b, c, t, s);
    WithItemsOwn(b, c);
    assert Relocate(r, dst, src) == WithItems(WithItems(r, c, u), c, s);
  }

  /** Across columns, dragging the card back undoes the move. */
  lemma {:induction false} CrossColumnBack(b: Board, src: Location, dst: Location)
    requires IsValidMove(b, src, dst) && src.droppableId != dst.droppableId
    ensures IsValidMove(Relocate(b, src, dst), dst, src)
    ensures Relocate(Relocate(b, src, dst), dst, src) == b
  {
    var sc, dc := src.droppableId, dst.droppableId;
    var s, d := b[sc].items, b[dc].items;
    var x := s[src.index];
    var u := RemoveAt(s, src.index);
    var e := InsertAt(d, dst.index, x);
    var r := WithItems(WithItems(b, sc, u), dc, e);
    assert Relocate(b, src, dst) == r;
    RemoveInsertedRestores(d, dst.index, x);
    InsertRemovedRestores(s, src.index);
    var back := WithItems(WithItems(r, dc, d), sc, s);
    assert Relocate(r, dst, src) == back;
    WithItemsTwice(WithItems(b, sc, u), dc, e, d);
    WithItemsCommute(b, sc, u, dc, d);
    WithItemsTwice(WithItems(b, dc, d), sc, u, s);
    WithItemsOwn(b, dc);
    WithItemsOwn(b, sc);
  }

  /** Dragging the card back from where it landed to where it came from
      restores the board. */
  lemma DragBackRestores(b: Board, src: Location, dst: Location)
    requires IsValidMove(b, src, dst)
    ensures IsValidMove(Relocate(b, src, dst), dst, src)
    ensures Relocate(Relocate(b, src, dst), dst, src) == b
  {
    if src.droppableId == dst.droppableId {
      SameColumnBack(b, src, dst);
    } else {
      CrossColumnBack(b, src, dst);
    }
  }

  /** Why a drop report cannot be applied. */
  datatype MoveError = InvalidMove

  datatype Outcome = Moved(board: Board) | Rejected(error: MoveError)

  /** The handler with its failure cases made explicit. A drop that is not
      an early return is rejected with `InvalidMove` exactly when it names an
      unknown column, its source index holds no card, or its destination
      index lies outside the destination list as it stands after removal.
      An accepted drop keeps the keys, the cards and the card ids. */
  function TryDragEnd(b: Board, d: DropResult): (r: Outcome)
    ensures r.Rejected? <==>
      && !IsNoOp(d)
      && var src, dst := d.source, d.destination.value;
      || src.droppableId !in b
      || dst.droppableId !in b
      || src.index < 0
      || src.index >= |b[src.droppableId].items|
      || dst.index < 0
      || (src.droppableId != dst.droppableId && dst.index > |b[dst.droppableId].items|)
      || (src.droppableId == dst.droppableId && dst.index >= |b[dst.droppableId].items|)
    ensures r.Moved? ==>
      && r.board.Keys == b.Keys
      && Contents(r.board) == Contents(b)
      && BoardIds(r.board) == BoardIds(b)
    ensures r.Moved? && IsNoOp(d) ==> r.board == b
    ensures r.Moved? && !IsNoOp(d) ==>
      && d.destination.value.index < |r.board[d.destination.value.droppableId].items|
      && r.board[d.destination.value.droppableId].items[d.destination.value.index]
         == b[d.source.droppableId].items[d.source.index]
  {
    if CanApply(b, d) then
      DragEndPreservesContents(b, d);
      Moved(DragEnd(b, d))
    else Rejected(InvalidMove)
  }
}
