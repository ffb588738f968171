/** The filtering step of `Menu.renderMenuItems` in script.js: which dishes
    are rendered for the chosen category button. */
module Menu {
  import opened Sequences

  /** A dish of the static catalog; `price` in integer cents. */
  datatype MenuItem = MenuItem(id: int, name: string, price: int, category: string,
                               description: string, image: string)

  const AllCategories: string := "all"

  function InCategory(category: string): MenuItem -> bool
  {
    (m: MenuItem) => m.category == category
  }

  /** The dishes rendered for `category`: the whole menu for "all", else
      `filter(item => item.category === category)`. */
  function FilteredItems(menu: seq<MenuItem>, category: string): (r: seq<MenuItem>)
    ensures |r| <= |menu|
    ensures forall i :: 0 <= i < |r| ==> r[i] in menu && (category == AllCategories || r[i].category == category)
  {
    if category == AllCategories then menu else Filter(menu, InCategory(category))
  }

  /** "all" renders the full menu, in catalog order. */
  lemma AllIsIdentity(menu: seq<MenuItem>)
    ensures FilteredItems(menu, AllCategories) == menu
  {
  }

  /** Any other category renders exactly the dishes of that category, and in
      catalog order, each dish as many times as the menu lists it. */
  lemma CategoryShowsExactly(menu: seq<MenuItem>, category: string)
    requires category != AllCategories
    ensures var r := FilteredItems(menu, category);
      (forall i :: 0 <= i < |r| ==> r[i].category == category && r[i] in menu) &&
      (forall i :: 0 <= i < |menu| && menu[i].category == category ==> menu[i] in r) &&
      IsSubsequence(r, menu) &&
      (forall x :: multiset(r)[x] == if x.category == category then multiset(menu)[x] else 0)
  {
    FilterCounts(menu, InCategory(category));
    FilterComplete(menu, InCategory(category));
    FilterIsSubsequence(menu, InCategory(category));
  }
}
