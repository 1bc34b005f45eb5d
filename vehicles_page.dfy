// The vehicles page (src/app/vehicles/page.tsx): the catalogue filtered by
// the chosen category button and by a case-insensitive search term.
module VehiclesPage {
  import opened Wrappers
  import opened Text
  import opened Seqs
  import opened Theme

  const All: string := "전체"

  function Names(cats: seq<VehicleCategory>): (r: seq<string>)
    ensures |r| == |cats| && forall i :: 0 <= i < |cats| ==> r[i] == cats[i].name
  {
    seq(|cats|, i requires 0 <= i < |cats| => cats[i].name)
  }

  /** The buttons: '전체', then the theme's categories in order. */
  function Categories(cats: seq<VehicleCategory>): (r: seq<string>)
    ensures |r| == |cats| + 1 && r[0] == All
    ensures forall i :: 0 <= i < |cats| ==> r[i + 1] == cats[i].name
  {
    [All] + Names(cats)
  }

  /** '전체' matches everything, a named category applies its rule, and
      any other name matches nothing. */
  predicate MatchesCategory(active: string, v: ThemeVehicle) {
    active == All || (IsNamedCategory(active) && SelectedBy(active, v))
  }

  /** The term, lower-cased, occurs in the lower-cased name or category. */
  predicate MatchesSearch(term: string, v: ThemeVehicle) {
    Includes(Lower(v.name), Lower(term)) || Includes(Lower(v.category), Lower(term))
  }

  function Keeps(active: string, term: string): ThemeVehicle -> bool {
    (v: ThemeVehicle) => MatchesCategory(active, v) && MatchesSearch(term, v)
  }

  /** filteredVehicles */
  function FilteredVehicles(vehicles: seq<ThemeVehicle>, active: string, term: string): (r: seq<ThemeVehicle>)
    ensures IsSubsequence(r, vehicles)
  {
    FilterIsSubsequence(vehicles, Keeps(active, term));
    Filter(vehicles, Keeps(active, term))
  }

  /** A vehicle is listed iff it is in the catalogue and matches both the
      category and the search. */
  lemma FilteredMembership(vehicles: seq<ThemeVehicle>, active: string, term: string, v: ThemeVehicle)
    ensures v in FilteredVehicles(vehicles, active, term) <==>
      v in vehicles && MatchesCategory(active, v) && MatchesSearch(term, v)
  {
    FilterMembership(vehicles, Keeps(active, term), v);
  }

  /** An empty search matches every vehicle. */
  lemma EmptySearchMatches(v: ThemeVehicle)
    ensures MatchesSearch("", v)
  {
    IncludesEmpty(Lower(v.name));
  }

  /** '전체' with an empty search lists the whole catalogue in order. */
  lemma AllWithoutSearch(vehicles: seq<ThemeVehicle>)
    ensures FilteredVehicles(vehicles, All, "") == vehicles
  {
    forall i | 0 <= i < |vehicles|
      ensures Keeps(All, "")(vehicles[i])
    {
      EmptySearchMatches(vehicles[i]);
    }
    FilterKeepsAll(vehicles, Keeps(All, ""));
  }

  /** A category name outside the five buttons lists nothing. */
  lemma UnknownCategoryListsNothing(vehicles: seq<ThemeVehicle>, active: string, term: string)
    requires active != All && !IsNamedCategory(active)
    ensures FilteredVehicles(vehicles, active, term) == []
  {
    FilterNone(vehicles, Keeps(active, term));
  }

  /** The search ignores the case of the term. */
  lemma SearchIgnoresCase(vehicles: seq<ThemeVehicle>, active: string, term: string)
    ensures FilteredVehicles(vehicles, active, Lower(term)) == FilteredVehicles(vehicles, active, term)
  {
    LowerIdempotent(term);
    FilterCongruent(vehicles, Keeps(active, Lower(term)), Keeps(active, term));
  }
}
