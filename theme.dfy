// The static vehicle catalogue of the theme (src/types/theme.ts) and the
// selection rule that both the vehicles page and the home page's vehicle
// section apply for the four named categories.
module Theme {
  import opened Wrappers

  /** A catalogue entry; an absent `isPromoted` is false. */
  datatype ThemeVehicle = ThemeVehicle(
    name: string, category: string, price: string, badge: Option<string>, isPromoted: bool)

  /** A category button; an absent `active` flag is false. */
  datatype VehicleCategory = VehicleCategory(name: string, active: bool)

  const Popular: string := "인기차량 베스트"
  const Premium: string := "프리미엄 차량"
  const Economy: string := "경제형 차량"
  const Electric: string := "전기차 라인업"

  predicate IsNamedCategory(c: string) {
    c == Popular || c == Premium || c == Economy || c == Electric
  }

  /** The rule of each named category: promoted or badged '인기'; 프리미엄 or
      신차; 소형차 or 중형차; 전기차. */
  predicate SelectedBy(c: string, v: ThemeVehicle)
    requires IsNamedCategory(c)
  {
    if c == Popular then v.isPromoted || v.badge == Some("인기")
    else if c == Premium then v.category == "프리미엄" || v.category == "신차"
    else if c == Economy then v.category == "소형차" || v.category == "중형차"
    else v.category == "전기차"
  }

  /** The premium, economy and electric categories select disjoint sets of
      vehicles. */
  lemma CategoryRulesDisjoint(v: ThemeVehicle, a: string, b: string)
    requires a in {Premium, Economy, Electric} && b in {Premium, Economy, Electric} && a != b
    ensures !(SelectedBy(a, v) && SelectedBy(b, v))
  {
  }
}
