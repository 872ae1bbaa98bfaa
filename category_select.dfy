/**
 * The category select several Arabic sources put in their filter sheet, and
 * the walk `searchAnimeRequest` makes over the sheet: the first category
 * select set above 0 decides the listing.
 */
module CategorySelect {
  import opened Wrappers

  /** A filter of the sheet: the category select, or a filter of another kind. */
  datatype Filter = CategoryList(state: nat) | OtherFilter

  predicate Selected(f: Filter)
  {
    f.CategoryList? && f.state > 0
  }

  /** The first category select set above 0, at or after `i`. */
  function FirstSelected(fs: seq<Filter>, i: nat): (r: Option<nat>)
    requires i <= |fs|
    ensures r.Some? ==> i <= r.value < |fs| && Selected(fs[r.value])
    ensures forall k :: i <= k < |fs| && (r.None? || k < r.value) ==> !Selected(fs[k])
    decreases |fs| - i
  {
    if i == |fs| then None
    else if Selected(fs[i]) then Some(i)
    else FirstSelected(fs, i + 1)
  }

  /** The sheet walked: `getFilterList()` (the select at its first entry) when the given list is empty. */
  function Sheet(filters: seq<Filter>): seq<Filter>
  {
    if |filters| == 0 then [CategoryList(0)] else filters
  }

  /** The state of the first selected category of the sheet, if any. */
  function ChosenCategory(filters: seq<Filter>): (r: Option<nat>)
    ensures r.Some? ==> r.value > 0
  {
    var fs := Sheet(filters);
    match FirstSelected(fs, 0)
    case None => None
    case Some(k) => Some(fs[k].state)
  }

  /** The first selected category decides; nothing after it is read. */
  lemma FirstSelectedWins(fs: seq<Filter>, k: nat)
    requires k < |fs| && Selected(fs[k])
    requires forall j :: 0 <= j < k ==> !Selected(fs[j])
    ensures ChosenCategory(fs) == Some(fs[k].state)
  {
    var r := FirstSelected(fs, 0);
    assert r.Some?;
  }

  /** With no category set above 0, and for the empty list, no category is chosen. */
  lemma NothingSelected(fs: seq<Filter>)
    requires forall j :: 0 <= j < |fs| ==> !Selected(fs[j])
    ensures ChosenCategory(fs) == None
  {
    assert forall j :: 0 <= j < |Sheet(fs)| ==> !Selected(Sheet(fs)[j]);
  }
}
