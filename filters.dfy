/** client/src/components/Filters.jsx: the filter panel's state and the
    handlers that return its next value, and the count of active filters
    shown on the toggle. */
module Filters {
  import opened Js
  import opened Seqs

  /** The `filters` object; `eligibility` may be missing. */
  datatype FilterState = FilterState(search: string, org: string, mode: string,
                                     eligibility: Option<seq<string>>, upcoming: bool)

  /** `DEFAULT_FILTERS` of the app. */
  const Default := FilterState("", "", "", Some([]), true)

  function HandleSearch(f: FilterState, value: string): (r: FilterState)
    ensures r.search == value && r.(search := f.search) == f
  {
    f.(search := value)
  }

  function HandleOrg(f: FilterState, value: string): (r: FilterState)
    ensures r.org == value && r.(org := f.org) == f
  {
    f.(org := value)
  }

  function HandleUpcoming(f: FilterState, checked: bool): (r: FilterState)
    ensures r.upcoming == checked && r.(upcoming := f.upcoming) == f
  {
    f.(upcoming := checked)
  }

  /** `e.target.value || ''`: a missing selection is stored as ''. */
  function HandleMode(f: FilterState, value: Option<string>): (r: FilterState)
    ensures value.Some? ==> r.mode == value.value
    ensures value.None? ==> r.mode == ""
    ensures r.(mode := f.mode) == f
  {
    f.(mode := StrOr(value, ""))
  }

  function Current(f: FilterState): seq<string> {
    if f.eligibility.Some? then f.eligibility.value else []
  }

  /** `current.filter(t => t !== tag)`. */
  function Without(tags: seq<string>, tag: string): seq<string> {
    Filter(tags, NotTag(tag))
  }

  function NotTag(tag: string): string -> bool {
    t => t != tag
  }

  /** `handleEligibility(tag, checked)`: checking appends the tag, even a
      second time; unchecking drops every copy of it. */
  function HandleEligibility(f: FilterState, tag: string, checked: bool): (r: FilterState)
    ensures r.eligibility.Some? && r.(eligibility := f.eligibility) == f
    ensures checked ==> r.eligibility.value == Current(f) + [tag]
    ensures !checked ==> tag !in r.eligibility.value
    ensures !checked ==> forall t :: t in r.eligibility.value <==> t in Current(f) && t != tag
  {
    if checked then f.(eligibility := Some(Current(f) + [tag]))
    else f.(eligibility := Some(Without(Current(f), tag)))
  }

  /** Unchecking keeps the other tags in their order: it is the identity on
      a list without the tag. */
  lemma {:induction false} UncheckAbsent(tags: seq<string>, tag: string)
    requires tag !in tags
    ensures Without(tags, tag) == tags
  {
    FilterAll(tags, NotTag(tag));
  }

  /** Checking a tag that was not selected and unchecking it again restores
      the selection. */
  lemma CheckThenUncheck(f: FilterState, tag: string)
    requires tag !in Current(f)
    ensures HandleEligibility(HandleEligibility(f, tag, true), tag, false).eligibility == Some(Current(f))
  {
    var tags := Current(f);
    var g := HandleEligibility(f, tag, true);
    assert Current(g) == tags + [tag];
    FilterSnoc(tags, tag, NotTag(tag));
    assert !NotTag(tag)(tag);
    assert Without(tags + [tag], tag) == Without(tags, tag);
    UncheckAbsent(tags, tag);
  }

  /** `activeCount`: truthy search, org and mode, a non-empty eligibility
      list and a cleared `upcoming` each count one. */
  function ActiveCount(f: FilterState): (r: nat)
    ensures r <= 5
    ensures r == 0 <==> f.search == "" && f.org == "" && f.mode == "" && |Current(f)| == 0 && f.upcoming
  {
    (if f.search != "" then 1 else 0) + (if f.org != "" then 1 else 0) + (if f.mode != "" then 1 else 0)
    + (if |Current(f)| > 0 then 1 else 0) + (if !f.upcoming then 1 else 0)
  }

  /** Checking a tag makes the eligibility filter count, and typing a
      search term raises the count by at most one. */
  lemma HandlersAndCount(f: FilterState, tag: string, term: string)
    ensures ActiveCount(HandleEligibility(f, tag, true)) >= 1
    ensures ActiveCount(f) <= ActiveCount(HandleSearch(f, term)) + 1
    ensures ActiveCount(HandleSearch(f, term)) <= ActiveCount(f) + 1
  {
  }
}
