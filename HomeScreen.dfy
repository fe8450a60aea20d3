/**
 * The home screen's two-column grid: how many rows the lazy column shows, what each row holds,
 * and which rows ask the view-model for another load.
 */
module HomeScreen {
  import opened PokedexEntries

  /** Rows of the lazy column: half the entries, one more when there is an odd one out. */
  function ItemCount(size: nat): (rows: nat)
    ensures rows == (size + 1) / 2
    ensures size <= 2 * rows <= size + 1
  {
    if size % 2 == 0 then size / 2 else size / 2 + 1
  }

  /** The right-hand cell of a row: an entry, or a spacer when the entries have run out. */
  datatype Slot = Entry(entry: PokedexList) | Spacer

  datatype Row = Row(left: PokedexList, right: Slot)

  /**
   * `PokedexRow(rowIndex, entries)`: entries 2i and 2i + 1 side by side. The row shows exactly
   * that slice of the entries, and has a spacer on the right exactly when it is the last row
   * and the number of entries is odd.
   */
  function PokedexRow(entries: seq<PokedexList>, rowIndex: nat): (row: Row)
    requires rowIndex < ItemCount(|entries|)
    ensures Shown(row) == entries[rowIndex * 2..if rowIndex * 2 + 2 <= |entries| then rowIndex * 2 + 2 else |entries|]
    ensures row.right.Spacer? <==> rowIndex == ItemCount(|entries|) - 1 && |entries| % 2 == 1
  {
    Row(entries[rowIndex * 2],
        if rowIndex * 2 + 1 < |entries| then Entry(entries[rowIndex * 2 + 1]) else Spacer)
  }

  /** Every row the lazy column composes, top to bottom. */
  function Rows(entries: seq<PokedexList>): (rows: seq<Row>)
    ensures |rows| == ItemCount(|entries|)
  {
    seq(ItemCount(|entries|), i requires 0 <= i < ItemCount(|entries|) => PokedexRow(entries, i))
  }

  /** The entries a row shows, left to right. */
  function Shown(row: Row): (shown: seq<PokedexList>) {
    [row.left] + if row.right.Entry? then [row.right.entry] else []
  }

  /** The entries a run of rows shows, top to bottom and left to right. */
  function ShownInRows(rows: seq<Row>): (shown: seq<PokedexList>) {
    if |rows| == 0 then [] else ShownInRows(rows[..|rows| - 1]) + Shown(rows[|rows| - 1])
  }

  /** Every row's first index is in bounds, so the row can always show its left entry. */
  lemma LeftIndexInBounds(size: nat, rowIndex: nat)
    requires rowIndex < ItemCount(size)
    ensures rowIndex * 2 < size
  {
  }

  /** Entry j sits in row j / 2, on the left when j is even and on the right when j is odd. */
  lemma EntryPosition(entries: seq<PokedexList>, j: nat)
    requires j < |entries|
    ensures j / 2 < ItemCount(|entries|)
    ensures var row := PokedexRow(entries, j / 2);
      if j % 2 == 0 then row.left == entries[j] else row.right == Entry(entries[j])
  {
  }

  /** The first k rows show the first 2k entries (or all of them once they run out). */
  lemma {:induction false} RowsPrefixShown(entries: seq<PokedexList>, k: nat)
    requires k <= ItemCount(|entries|)
    ensures ShownInRows(Rows(entries)[..k]) == entries[..if 2 * k <= |entries| then 2 * k else |entries|]
  {
    var rows := Rows(entries);
    if k == 0 {
      assert rows[..0] == [];
    } else {
      RowsPrefixShown(entries, k - 1);
      assert rows[..k][..k - 1] == rows[..k - 1];
      var i := k - 1;
      var end := if 2 * k <= |entries| then 2 * k else |entries|;
      if 2 * i + 1 < |entries| {
        assert Shown(rows[i]) == [entries[2 * i], entries[2 * i + 1]];
        assert entries[..end] == entries[..2 * i] + [entries[2 * i], entries[2 * i + 1]];
      } else {
        assert Shown(rows[i]) == [entries[2 * i]];
        assert entries[..end] == entries[..2 * i] + [entries[2 * i]];
      }
    }
  }

  /** Read top to bottom and left to right, the rows show every entry exactly once, in order. */
  lemma RowsShowEveryEntryOnce(entries: seq<PokedexList>)
    ensures ShownInRows(Rows(entries)) == entries
  {
    var rows := Rows(entries);
    RowsPrefixShown(entries, |rows|);
    assert rows[..|rows|] == rows;
    assert entries[..|entries|] == entries;
  }

  /** The condition under which composing row `rowIndex` asks for another load. */
  predicate TriggersLoad(rowIndex: nat, itemCount: nat, isLoading: bool, isSearching: bool) {
    rowIndex >= itemCount - 1 && !isLoading && !isSearching
  }

  /**
   * Of the rows the column composes, only the last one asks for a load, and only while nothing
   * is loading and no search is shown; with no entries there is no row and so no load from rows.
   * Whether the end was reached plays no part.
   */
  lemma LoadTriggeringRows(size: nat, isLoading: bool, isSearching: bool)
    ensures (set i | 0 <= i < ItemCount(size) && TriggersLoad(i, ItemCount(size), isLoading, isSearching)) ==
            if size > 0 && !isLoading && !isSearching then {ItemCount(size) - 1} else {}
  {
    var n := ItemCount(size);
    var triggering := set i | 0 <= i < n && TriggersLoad(i, n, isLoading, isSearching);
    if size > 0 && !isLoading && !isSearching {
      assert n - 1 in triggering;
    }
  }
}
