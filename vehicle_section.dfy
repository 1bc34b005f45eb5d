// The home page's vehicle section (src/components/layout/VehicleSection.tsx):
// the initially chosen category and the vehicles shown for it.
module VehicleSection {
  import opened Wrappers
  import opened Seqs
  import opened Theme
  import VehiclesPage

  /** `categories.find(cat => cat.active)` */
  function FirstActive(cats: seq<VehicleCategory>): (r: Option<nat>)
    ensures r.Some? ==> (r.value < |cats| && cats[r.value].active
      && forall i :: 0 <= i < r.value ==> !cats[i].active)
    ensures r.None? ==> forall i :: 0 <= i < |cats| ==> !cats[i].active
  {
    if cats == [] then None
    else if cats[0].active then Some(0)
    else
      var k := FirstActive(cats[1..]);
      if k.Some? then Some(k.value + 1) else None
  }

  /** The initial category: the first active one's name, or, when there is
      none or its name is empty, the first category's name; undefined when
      there are no categories. */
  function InitialCategory(cats: seq<VehicleCategory>): (r: Option<string>)
    ensures r.None? <==> cats == []
    ensures r.Some? ==> exists i :: 0 <= i < |cats| && cats[i].name == r.value
    ensures forall i :: (0 <= i < |cats| && cats[i].active && cats[i].name != ""
      && (forall j :: 0 <= j < i ==> !cats[j].active)) ==> r == Some(cats[i].name)
    ensures (forall i :: 0 <= i < |cats| ==> !cats[i].active) && cats != [] ==> r == Some(cats[0].name)
  {
    var found := FirstActive(cats);
    if found.Some? && cats[found.value].name != "" then Some(cats[found.value].name)
    else if cats != [] then Some(cats[0].name)
    else None
  }

  /** A named category applies its rule; anything else, undefined
      included, shows every vehicle. */
  function SectionKeeps(active: Option<string>): ThemeVehicle -> bool {
    (v: ThemeVehicle) => if active.Some? && IsNamedCategory(active.value) then SelectedBy(active.value, v) else true
  }

  /** filteredVehicles */
  function SectionVehicles(vehicles: seq<ThemeVehicle>, active: Option<string>): (r: seq<ThemeVehicle>)
    ensures IsSubsequence(r, vehicles)
  {
    FilterIsSubsequence(vehicles, SectionKeeps(active));
    Filter(vehicles, SectionKeeps(active))
  }

  /** Any category without a rule shows the whole catalogue in order. */
  lemma OtherCategoryShowsAll(vehicles: seq<ThemeVehicle>, active: Option<string>)
    requires active.None? || !IsNamedCategory(active.value)
    ensures SectionVehicles(vehicles, active) == vehicles
  {
    FilterKeepsAll(vehicles, SectionKeeps(active));
  }

  /** For the four named categories the section shows what the vehicles
      page lists for the same category with an empty search. */
  lemma SameRulesAsVehiclesPage(vehicles: seq<ThemeVehicle>, c: string)
    requires IsNamedCategory(c)
    ensures SectionVehicles(vehicles, Some(c)) == VehiclesPage.FilteredVehicles(vehicles, c, "")
  {
    forall i | 0 <= i < |vehicles|
      ensures SectionKeeps(Some(c))(vehicles[i]) == VehiclesPage.Keeps(c, "")(vehicles[i])
    {
      VehiclesPage.EmptySearchMatches(vehicles[i]);
    }
    FilterCongruent(vehicles, SectionKeeps(Some(c)), VehiclesPage.Keeps(c, ""));
  }
}
