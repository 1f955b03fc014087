/**
  `df[part_number_column].dropna().unique().tolist()` in `load_part_numbers`:
  the non-null cells of the part-number column, duplicates removed, in the
  order of first appearance. A cell is None where the CSV cell is empty
  (pandas NaN).
*/
module PartNumbers {
  import opened Sequences

  /** The distinct non-null values of `cells`, each where it first appears. */
  function Unique(cells: seq<Option<string>>): seq<string>
    decreases |cells|
  {
    if cells == [] then []
    else
      var seen := Unique(cells[..|cells| - 1]);
      var last := cells[|cells| - 1];
      if last.Some? && last.value !in seen then seen + [last.value] else seen
  }

  /** Every non-null cell value is kept, and nothing else. */
  lemma {:induction false} UniqueMember(cells: seq<Option<string>>, p: string)
    ensures p in Unique(cells) <==> Some(p) in cells
    decreases |cells|
  {
    if cells != [] {
      var init := cells[..|cells| - 1];
      UniqueMember(init, p);
      assert cells == init + [cells[|cells| - 1]];
    }
  }

  /** No value is listed twice. */
  lemma {:induction false} UniqueDistinct(cells: seq<Option<string>>)
    ensures Distinct(Unique(cells))
    decreases |cells|
  {
    if cells != [] {
      UniqueDistinct(cells[..|cells| - 1]);
    }
  }

  /** Some cell holds `x` while `y` has not appeared in any cell up to it. */
  ghost predicate AppearsFirst(cells: seq<Option<string>>, x: string, y: string) {
    exists a :: 0 <= a < |cells| && cells[a] == Some(x) && Some(y) !in cells[..a + 1]
  }

  /**
    Values are listed in the order of their first appearance: wherever a value
    is listed before another, some cell holds the first while the second has
    not yet appeared.
  */
  lemma {:induction false} UniqueFirstAppearance(cells: seq<Option<string>>)
    ensures forall i, j :: 0 <= i < j < |Unique(cells)| ==>
      AppearsFirst(cells, Unique(cells)[i], Unique(cells)[j])
    decreases |cells|
  {
    if cells != [] {
      var n := |cells| - 1;
      var init := cells[..n];
      var seen := Unique(init);
      var r := Unique(cells);
      UniqueFirstAppearance(init);
      assert cells == init + [cells[n]];
      assert r == seen || (r == seen + [cells[n].value] && cells[n].Some? && cells[n].value !in seen);
      forall i, j | 0 <= i < j < |r| ensures AppearsFirst(cells, r[i], r[j]) {
        if j < |seen| {
          assert r[i] == seen[i] && r[j] == seen[j];
          assert AppearsFirst(init, seen[i], seen[j]);
          var a :| 0 <= a < |init| && init[a] == Some(seen[i]) && Some(seen[j]) !in init[..a + 1];
          assert cells[..a + 1] == init[..a + 1];
          assert cells[a] == Some(r[i]);
        } else {
          // r[j] is the last cell's value, absent from every earlier cell
          assert r[j] == cells[n].value && r[j] !in seen;
          UniqueMember(init, r[j]);
          UniqueMember(init, r[i]);
          assert r[i] in seen;
          var a :| 0 <= a < |init| && init[a] == Some(r[i]);
          assert cells[..a + 1] == init[..a + 1];
          assert Some(r[j]) !in init;
          assert forall b :: 0 <= b < a + 1 ==> init[..a + 1][b] == init[b];
        }
      }
    } else {
      assert Unique(cells) == [];
    }
  }
}
