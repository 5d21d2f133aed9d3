/**
 * The two-column card grids of app.py (summary points at lines 322-341,
 * flashcards at lines 349-365): items are taken two at a time, the first of
 * each pair in the left column and the second, when there is one, in the
 * right column. A summary card shows its 1-based position (`#{i+1}`).
 */
module CardGrid {
  import opened Wrappers

  /** An item with its 1-based position. */
  datatype Card<T> = Card(number: nat, item: T)

  /** One `st.columns(2)` row: a left card and, except perhaps in the last row, a right card. */
  datatype Row<T> = Row(left: Card<T>, right: Option<Card<T>>)

  /** The items numbered from 1, in order. */
  function Numbered<T>(items: seq<T>): (r: seq<Card<T>>)
    ensures |r| == |items|
    ensures forall k :: 0 <= k < |items| ==> r[k] == Card(k + 1, items[k])
  {
    seq(|items|, k requires 0 <= k < |items| => Card(k + 1, items[k]))
  }

  function RowCards<T>(row: Row<T>): seq<Card<T>>
  {
    match row.right
    case None => [row.left]
    case Some(c) => [row.left, c]
  }

  /** The cards of the grid read row by row, left column first. */
  function Flatten<T>(rows: seq<Row<T>>): seq<Card<T>>
  {
    if |rows| == 0 then [] else Flatten(rows[..|rows| - 1]) + RowCards(rows[|rows| - 1])
  }

  /** The loop `for i in range(0, len(items), 2)` that lays out the grid. */
  method LayoutPairs<T>(items: seq<T>) returns (rows: seq<Row<T>>)
    ensures Flatten(rows) == Numbered(items)
    ensures |rows| == (|items| + 1) / 2
    ensures forall r :: 0 <= r < |rows| - 1 ==> rows[r].right.Some?
  {
    rows := [];
    var i := 0;
    while i < |items|
      invariant i % 2 == 0 && i == 2 * |rows|
      invariant i <= |items| + 1
      invariant Flatten(rows) == Numbered(items)[..if i <= |items| then i else |items|]
      invariant forall r :: 0 <= r < |rows| - 1 ==> rows[r].right.Some?
      invariant i <= |items| ==> forall r :: 0 <= r < |rows| ==> rows[r].right.Some?
    {
      var left := Card(i + 1, items[i]);
      var right := if i + 1 < |items| then Some(Card(i + 2, items[i + 1])) else None;
      assert (rows + [Row(left, right)])[..|rows|] == rows;
      rows := rows + [Row(left, right)];
      i := i + 2;
    }
  }
}
