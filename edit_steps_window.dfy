/**
 * The step editor: a grid of a recipe's stored rows with a case-insensitive
 * search on the tag name, and in-place editing of a row's value.
 */
module EditStepsWindow {
  import opened PyStr
  import opened PyValue

  /** A fetched row: (unit_id, tag_name, tag_value, tag_datatype, unit_name). */
  datatype RecipeRow = RecipeRow(unitId: Value, tagName: string, tagValue: Value, tagType: Value, unitName: Value)

  /** The values of a grid item: (unit_name, tag_name, tag_value, unit_id). */
  datatype Shown = Shown(unitName: Value, tagName: string, tagValue: Value, unitId: Value)

  /** A grid item: the id the grid gave it and its values. */
  datatype Item = Item(id: nat, values: Shown)

  function Display(row: RecipeRow): (v: Shown)
    ensures v.unitName == row.unitName && v.tagName == row.tagName && v.tagValue == row.tagValue && v.unitId == row.unitId
  {
    Shown(row.unitName, row.tagName, row.tagValue, row.unitId)
  }

  /** `search_term.lower() in tag_name.lower()`. */
  predicate Matches(row: RecipeRow, term: string) {
    Contains(Lower(row.tagName), Lower(term))
  }

  /** The rows a search shows, in the order of the fetched rows. */
  function Matching(rows: seq<RecipeRow>, term: string): (shown: seq<Shown>)
    ensures |shown| <= |rows|
  {
    if rows == [] then []
    else Matching(rows[..|rows| - 1], term) + (if Matches(rows[|rows| - 1], term) then [Display(rows[|rows| - 1])] else [])
  }

  /** Shown values are exactly the displays of matching rows. */
  lemma {:induction false} MatchingMembers(rows: seq<RecipeRow>, term: string, v: Shown)
    ensures v in Matching(rows, term) <==> exists k :: 0 <= k < |rows| && Matches(rows[k], term) && Display(rows[k]) == v
  {
    if rows != [] {
      var init := rows[..|rows| - 1];
      MatchingMembers(init, term, v);
      assert forall k :: 0 <= k < |init| ==> init[k] == rows[k];
    }
  }

  /** The empty term matches every row, so clearing the search shows the whole recipe. */
  lemma {:induction false} EmptySearchShowsAll(rows: seq<RecipeRow>)
    ensures |Matching(rows, "")| == |rows|
    ensures forall k :: 0 <= k < |rows| ==> Matching(rows, "")[k] == Display(rows[k])
  {
    if rows != [] {
      EmptySearchShowsAll(rows[..|rows| - 1]);
      assert OccursAt(Lower(rows[|rows| - 1].tagName), Lower(""), 0);
    }
  }

  predicate DistinctIds(grid: seq<Item>) {
    forall i, j :: 0 <= i < j < |grid| ==> grid[i].id != grid[j].id
  }

  /** The grid's item ids are distinct and below the next id it will hand out. */
  predicate WellNumbered(grid: seq<Item>, nextId: nat) {
    DistinctIds(grid) && forall k :: 0 <= k < |grid| ==> grid[k].id < nextId
  }

  function Values(grid: seq<Item>): (vs: seq<Shown>)
    ensures |vs| == |grid| && forall k :: 0 <= k < |grid| ==> vs[k] == grid[k].values
  {
    seq(|grid|, k requires 0 <= k < |grid| => grid[k].values)
  }

  /** item(selected_item, values=(values[0], tag_name, edited_tag_value, unit_id)) on the item with that id. */
  function Edited(grid: seq<Item>, id: nat, tagName: string, edited: Value, unitId: Value): (r: seq<Item>)
    ensures |r| == |grid|
    ensures forall k :: 0 <= k < |grid| ==> r[k].id == grid[k].id
    ensures forall k :: 0 <= k < |grid| && grid[k].id != id ==> r[k] == grid[k]
    ensures forall k :: 0 <= k < |grid| && grid[k].id == id ==>
      r[k].values == Shown(grid[k].values.unitName, tagName, edited, unitId)
  {
    seq(|grid|, k requires 0 <= k < |grid| =>
      if grid[k].id == id then Item(id, Shown(grid[k].values.unitName, tagName, edited, unitId)) else grid[k])
  }

  /**
   * Saving with the tag name and unit id read from the selected item when it
   * was double-clicked changes only that item's value column.
   */
  lemma SaveKeepsOtherColumns(grid: seq<Item>, k: nat, edited: Value)
    requires k < |grid| && DistinctIds(grid)
    ensures var r := Edited(grid, grid[k].id, grid[k].values.tagName, edited, grid[k].values.unitId);
      r[k].values == grid[k].values.(tagValue := edited) &&
      forall j :: 0 <= j < |grid| && j != k ==> r[j] == grid[j]
  {
  }

  /** The editor window: the fetched rows, the grid's items and its id counter. */
  class EditStepsWindow {
    const rows: seq<RecipeRow>
    var grid: seq<Item>
    var nextId: nat

    ghost predicate Valid()
      reads this
    {
      WellNumbered(grid, nextId)
    }

    /** __init__ and edit_recipe_grid: every fetched row is shown. */
    constructor(rows: seq<RecipeRow>)
      ensures Valid() && this.rows == rows
      ensures Values(grid) == Matching(rows, "")
    {
      this.rows := rows;
      grid := [];
      nextId := 0;
      new;
      EmptySearchShowsAll(rows);
      UpdateTreeview("");
    }

    /** treeview.insert("", "end", values=v). */
    method Insert(v: Shown)
      requires Valid()
      modifies this
      ensures Valid()
      ensures grid == old(grid) + [Item(old(nextId), v)] && nextId == old(nextId) + 1
    {
      grid := grid + [Item(nextId, v)];
      nextId := nextId + 1;
    }

    /**
     * update_treeview: delete every item, then insert each row whose tag
     * name contains the search term, ignoring case.
     */
    method UpdateTreeview(searchTerm: string)
      requires Valid()
      modifies this
      ensures Valid()
      ensures Values(grid) == Matching(rows, searchTerm)
    {
      grid := [];
      var i := 0;
      while i < |rows|
        invariant 0 <= i <= |rows|
        invariant Valid()
        invariant Values(grid) == Matching(rows[..i], searchTerm)
      {
        assert rows[..i + 1][..i] == rows[..i];
        var row := rows[i];
        if Contains(Lower(row.tagName), Lower(searchTerm)) {
          Insert(Shown(row.unitName, row.tagName, row.tagValue, row.unitId));
        }
        i := i + 1;
      }
      assert rows[..i] == rows;
    }

    /** The grid update of save_changes: the selected item gets (its unit name, tag_name, the edited value, unit_id). */
    method SaveChanges(selected: nat, tagName: string, unitId: Value, edited: Value)
      requires Valid()
      modifies this
      ensures Valid() && nextId == old(nextId)
      ensures grid == Edited(old(grid), selected, tagName, edited, unitId)
    {
      grid := Edited(grid, selected, tagName, edited, unitId);
    }
  }
}
