/**
 The add-task action: a non-blank name becomes a new card at the head of
 the `todo` column. The fresh card id, the fresh tag id and the current time
 are supplied by the caller.
 */
module NewTask {
  import opened Cards
  import opened Text
  import opened Lists
  import opened Board

  /** The label of the placeholder tag every new card carries. */
  const PlaceholderTag := "1.3-alpha"

  /** The title the `todo` column is given whenever a card is added. */
  const TodoTitle := "Todo"

  /** The card built from the typed name (kept untrimmed). */
  function NewItem(name: string, itemId: string, tagId: string, now: int): Item {
    Item(itemId, name, now, [Tag(tagId, PlaceholderTag, Version)])
  }

  /** `addItem`: a blank name leaves the board as it is; otherwise the new
      card goes first in `todo`, the old `todo` cards follow in their order,
      the column is retitled, and every other column is untouched. */
  function AddItem(b: Board, newTodo: string, itemId: string, tagId: string, now: int): (r: Board)
    requires !IsBlank(newTodo) ==> TodoKey in b
    ensures IsBlank(newTodo) ==> r == b
    ensures !IsBlank(newTodo) ==>
      && r.Keys == b.Keys
      && r[TodoKey].title == "Todo"
      && |r[TodoKey].items| == |b[TodoKey].items| + 1
      && r[TodoKey].items[1..] == b[TodoKey].items
      && (forall k :: k in b && k != TodoKey ==> r[k] == b[k])
    ensures !IsBlank(newTodo) ==>
      var x := r[TodoKey].items[0];
      && x.id == itemId
      && x.name == newTodo
      && x.createdAt == now
      && |x.tags| == 1
      && x.tags[0].id == tagId
      && x.tags[0].name == "1.3-alpha"
      && x.tags[0].tagType == Version
  {
    if IsBlank(newTodo) then b
    else
      b[TodoKey := Column(TodoTitle, [NewItem(newTodo, itemId, tagId, now)] + b[TodoKey].items)]
  }

  /** A name made only of whitespace (the empty name included) adds nothing. */
  lemma WhitespaceNameIsNoOp(b: Board, newTodo: string, itemId: string, tagId: string, now: int)
    requires forall i :: 0 <= i < |newTodo| ==> IsWhitespace(newTodo[i])
    ensures AddItem(b, newTodo, itemId, tagId, now) == b
  {
  }

  /** A name with a non-whitespace character is always added. */
  lemma VisibleNameIsAdded(b: Board, newTodo: string, itemId: string, tagId: string, now: int, i: nat)
    requires TodoKey in b
    requires i < |newTodo| && !IsWhitespace(newTodo[i])
    ensures AddItem(b, newTodo, itemId, tagId, now)[TodoKey].items
            == [NewItem(newTodo, itemId, tagId, now)] + b[TodoKey].items
  {
  }

  /** Adding a card puts exactly that card on the board: the bag of cards
      gains that one card and the card count grows by one. */
  lemma {:induction false} AddItemContents(b: Board, newTodo: string, itemId: string, tagId: string, now: int)
    requires TodoKey in b && !IsBlank(newTodo)
    ensures Contents(AddItem(b, newTodo, itemId, tagId, now))
            == Contents(b) + multiset{NewItem(newTodo, itemId, tagId, now)}
    ensures ItemCount(AddItem(b, newTodo, itemId, tagId, now)) == ItemCount(b) + 1
  {
    var x := NewItem(newTodo, itemId, tagId, now);
    var s := b[TodoKey].items;
    var c := Column(TodoTitle, [x] + s);
    assert AddItem(b, newTodo, itemId, tagId, now) == b[TodoKey := c];
    assert [x] + s == InsertAt(s, 0, x);
    GatherGrow(b, TodoKey, c, ColumnItems, multiset{x});
  }

  /** The bag of card ids gains exactly the new id, so a fresh id keeps
      ids unique. */
  lemma {:induction false} AddItemIds(b: Board, newTodo: string, itemId: string, tagId: string, now: int)
    requires TodoKey in b && !IsBlank(newTodo)
    ensures BoardIds(AddItem(b, newTodo, itemId, tagId, now)) == BoardIds(b) + multiset{itemId}
    ensures UniqueIds(b) && itemId !in BoardIds(b) ==> UniqueIds(AddItem(b, newTodo, itemId, tagId, now))
  {
    var x := NewItem(newTodo, itemId, tagId, now);
    var s := b[TodoKey].items;
    var c := Column(TodoTitle, [x] + s);
    var r := AddItem(b, newTodo, itemId, tagId, now);
    assert r == b[TodoKey := c];
    assert [x] + s == InsertAt(s, 0, x);
    MapInsertAt(ItemId, s, 0, x);
    GatherGrow(b, TodoKey, c, ColumnIds, multiset{itemId});
    if UniqueIds(b) && itemId !in BoardIds(b) {
      forall id
        ensures BoardIds(r)[id] <= 1
      {
        assert BoardIds(r)[id] == BoardIds(b)[id] + multiset{itemId}[id];
      }
    }
  }
}
