/**
 The board: a record from column key to column, each column a title and an
 ordered list of cards, together with the board-wide bag of cards and of
 card ids used to state what the operations preserve.
 */
module Board {
  import opened Cards
  import opened Lists

  /** `ColumnData`: order of `items` is display and drag-index order. */
  datatype Column = Column(title: string, items: seq<Item>)

  /** `Columns = Record<string, ColumnData>`. */
  type Board = map<string, Column>

  const TodoKey := "todo"
  const InProgressKey := "in-progress"
  const DoneKey := "done"

  /** The three columns the board is seeded with; no operation adds or removes a key. */
  predicate HasStandardColumns(b: Board) {
    b.Keys == {TodoKey, InProgressKey, DoneKey}
  }

  function ItemId(x: Item): string {
    x.id
  }

  /** The ids of a list of cards, in list order. */
  function IdsOf(items: seq<Item>): seq<string> {
    Map(ItemId, items)
  }

  /** Some key of a non-empty board; fixed per board, so lemmas can name
      the same choice the fold below makes. */
  ghost function AnyKey(b: Board): (k: string)
    requires b != map[]
    ensures k in b
  {
    var k :| k in b.Keys;
    k
  }

  /** The sum over all columns of `f` applied to each column. */
  ghost function Gather<T>(b: Board, f: Column -> multiset<T>): multiset<T>
    decreases |b|
  {
    if b == map[] then multiset{}
    else
      var k := AnyKey(b);
      assert |b - {k}| < |b| by {
        assert (b - {k}).Keys == b.Keys - {k};
      }
      f(b[k]) + Gather(b - {k}, f)
  }

  /** Any one column can be split off the sum. */
  lemma {:induction false} GatherSplit<T>(b: Board, k: string, f: Column -> multiset<T>)
    requires k in b
    ensures Gather(b, f) == f(b[k]) + Gather(b - {k}, f)
    decreases |b|
  {
    var j := AnyKey(b);
    if j != k {
      assert (b - {j}).Keys == b.Keys - {j};
      assert (b - {k}).Keys == b.Keys - {k};
      GatherSplit(b - {j}, k, f);
      GatherSplit(b - {k}, j, f);
      assert b - {j} - {k} == b - {k} - {j};
    }
  }

  /** Replacing one column changes the sum by exactly that column's share. */
  lemma GatherUpdate<T>(b: Board, k: string, c: Column, f: Column -> multiset<T>)
    requires k in b
    ensures Gather(b[k := c], f) + f(b[k]) == Gather(b, f) + f(c)
  {
    GatherSplit(b[k := c], k, f);
    GatherSplit(b, k, f);
    assert b[k := c] - {k} == b - {k};
  }

  /** The board with column `k`'s list replaced by `xs`, its title kept. */
  function WithItems(b: Board, k: string, xs: seq<Item>): (r: Board)
    requires k in b
    ensures r.Keys == b.Keys
    ensures r[k] == Column(b[k].title, xs)
    ensures forall j :: j in b && j != k ==> r[j] == b[j]
  {
    b[k := Column(b[k].title, xs)]
  }

  /** Writing a column twice keeps only the second write. */
  lemma WithItemsTwice(b: Board, k: string, xs: seq<Item>, ys: seq<Item>)
    requires k in b
    ensures WithItems(WithItems(b, k, xs), k, ys) == WithItems(b, k, ys)
  {
  }

  /** Writing back a column's own list changes nothing. */
  lemma WithItemsOwn(b: Board, k: string)
    requires k in b
    ensures WithItems(b, k, b[k].items) == b
  {
  }

  /** Writes to two different columns commute. */
  lemma WithItemsCommute(b: Board, k1: string, xs: seq<Item>, k2: string, ys: seq<Item>)
    requires k1 in b && k2 in b && k1 != k2
    ensures WithItems(WithItems(b, k1, xs), k2, ys) == WithItems(WithItems(b, k2, ys), k1, xs)
  {
  }

  lemma MultisetCancel<T>(a: multiset<T>, b: multiset<T>, c: multiset<T>)
    requires a + c == b + c
    ensures a == b
  {
    forall e
      ensures a[e] == b[e]
    {
      assert (a + c)[e] == (b + c)[e];
    }
  }

  /** Replacing a column by one that lacks `lost` removes exactly `lost` from the sum. */
  lemma GatherShrink<T>(b: Board, k: string, c: Column, f: Column -> multiset<T>, lost: multiset<T>)
    requires k in b
    requires f(b[k]) == f(c) + lost
    ensures Gather(b[k := c], f) + lost == Gather(b, f)
  {
    GatherUpdate(b, k, c, f);
    assert Gather(b[k := c], f) + lost + f(c) == Gather(b, f) + f(c);
    MultisetCancel(Gather(b[k := c], f) + lost, Gather(b, f), f(c));
  }

  /** Replacing a column by one with `gained` in addition adds exactly `gained` to the sum. */
  lemma GatherGrow<T>(b: Board, k: string, c: Column, f: Column -> multiset<T>, gained: multiset<T>)
    requires k in b
    requires f(c) == f(b[k]) + gained
    ensures Gather(b[k := c], f) == Gather(b, f) + gained
  {
    GatherUpdate(b, k, c, f);
    assert Gather(b[k := c], f) + f(b[k]) == Gather(b, f) + gained + f(b[k]);
    MultisetCancel(Gather(b[k := c], f), Gather(b, f) + gained, f(b[k]));
  }

  /** On the standard board the sum is the three columns' shares. */
  lemma {:induction false} GatherStandard<T>(b: Board, f: Column -> multiset<T>)
    requires HasStandardColumns(b)
    ensures Gather(b, f) == f(b[TodoKey]) + f(b[InProgressKey]) + f(b[DoneKey])
  {
    GatherSplit(b, TodoKey, f);
    GatherSplit(b - {TodoKey}, InProgressKey, f);
    GatherSplit(b - {TodoKey} - {InProgressKey}, DoneKey, f);
    assert (b - {TodoKey} - {InProgressKey} - {DoneKey}).Keys == {};
    assert b - {TodoKey} - {InProgressKey} - {DoneKey} == map[];
  }

  function ColumnItems(c: Column): multiset<Item> {
    multiset(c.items)
  }

  function ColumnIds(c: Column): multiset<string> {
    multiset(IdsOf(c.items))
  }

  /** Every card on the board, with multiplicity. */
  ghost function Contents(b: Board): multiset<Item> {
    Gather(b, ColumnItems)
  }

  /** Every card id on the board, with multiplicity. */
  ghost function BoardIds(b: Board): multiset<string> {
    Gather(b, ColumnIds)
  }

  /** The number of cards on the board. */
  ghost function ItemCount(b: Board): nat {
    |Contents(b)|
  }

  /** No card id occurs twice anywhere on the board. */
  ghost predicate UniqueIds(b: Board) {
    forall id :: BoardIds(b)[id] <= 1
  }

  /** Each column contributes its own length to the card count. */
  lemma {:induction false} ItemCountSplit(b: Board, k: string)
    requires k in b
    ensures ItemCount(b) == |b[k].items| + ItemCount(b - {k})
  {
    GatherSplit(b, k, ColumnItems);
  }

  /** On the standard board the card count is the sum of the three column lengths. */
  lemma {:induction false} StandardItemCount(b: Board)
    requires HasStandardColumns(b)
    ensures ItemCount(b) == |b[TodoKey].items| + |b[InProgressKey].items| + |b[DoneKey].items|
  {
    var b1 := b - {TodoKey};
    var b2 := b1 - {InProgressKey};
    ItemCountSplit(b, TodoKey);
    ItemCountSplit(b1, InProgressKey);
    ItemCountSplit(b2, DoneKey);
    assert (b2 - {DoneKey}).Keys == {};
    assert b2 - {DoneKey} == map[];
  }
}
