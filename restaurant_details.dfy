/**
 * The restaurant page's menu: the distinct categories of the items shown, in
 * the order each first appears, and one section per category listing that
 * category's items.
 */
module RestaurantDetails {
  import opened Wrappers
  import opened Arrays
  import opened Types
  import AppSpec

  /** One rendered category: its heading and the item cards below it. */
  datatype MenuSection = MenuSection(category: string, items: seq<MenuItem>)

  /** `menuItems.map((item) => item.category)`. */
  function CategoryList(items: seq<MenuItem>): seq<string> {
    seq(|items|, i requires 0 <= i < |items| => items[i].category)
  }

  /** The category headings of the menu. */
  function Categories(items: seq<MenuItem>): seq<string> {
    Dedup(CategoryList(items))
  }

  function InCategory(category: string): MenuItem -> bool {
    (m: MenuItem) => m.category == category
  }

  /** The cards of one section: the items of its category, in menu order. */
  function SectionItems(items: seq<MenuItem>, category: string): seq<MenuItem> {
    Filter(items, InCategory(category))
  }

  function SectionsFor(items: seq<MenuItem>, categories: seq<string>): seq<MenuSection> {
    seq(|categories|, i requires 0 <= i < |categories| => MenuSection(categories[i], SectionItems(items, categories[i])))
  }

  /** The menu as rendered: one section per category heading. */
  function Sections(items: seq<MenuItem>): seq<MenuSection> {
    SectionsFor(items, Categories(items))
  }

  /** All cards of the menu, top to bottom. */
  function Listed(sections: seq<MenuSection>): seq<MenuItem> {
    if |sections| == 0 then [] else Listed(sections[..|sections| - 1]) + sections[|sections| - 1].items
  }

  /** The add button of a card: the id handed to the add-to-cart handler. */
  function AddTarget(card: MenuItem): string {
    card.id
  }

  /**
   * The headings have no repeats, name exactly the items' categories, and
   * come in the order each category first appears among the items.
   */
  lemma CategoriesSpec(items: seq<MenuItem>)
    ensures Distinct(Categories(items))
    ensures forall c :: c in Categories(items) <==> exists i :: 0 <= i < |items| && items[i].category == c
    ensures forall i, j :: 0 <= i < j < |Categories(items)| ==>
              FirstPos(CategoryList(items), Categories(items)[i]) < FirstPos(CategoryList(items), Categories(items)[j])
  {
    var cs := CategoryList(items);
    var r := Categories(items);
    forall c | c in r
      ensures exists i :: 0 <= i < |items| && items[i].category == c
    {
      var k :| 0 <= k < |r| && r[k] == c;
      var i :| 0 <= i < |cs| && cs[i] == c;
    }
    forall c | exists i :: 0 <= i < |items| && items[i].category == c
      ensures c in r
    {
      var i :| 0 <= i < |items| && items[i].category == c;
      assert cs[i] == c;
    }
    DedupOrder(cs);
  }

  /** Each section lists only items of its own category, and every such item, keeping menu order. */
  lemma SectionSpec(items: seq<MenuItem>, category: string, m: MenuItem)
    ensures forall k :: 0 <= k < |SectionItems(items, category)| ==> SectionItems(items, category)[k].category == category
    ensures m in items && m.category == category ==> m in SectionItems(items, category)
  {
    if m in items && m.category == category {
      var j :| 0 <= j < |items| && items[j] == m;
    }
  }

  lemma SectionsForPrefix(items: seq<MenuItem>, categories: seq<string>, k: nat)
    requires k <= |categories|
    ensures SectionsFor(items, categories)[..k] == SectionsFor(items, categories[..k])
  {
  }

  /** The items whose category is among the given ones. */
  function InCategories(categories: seq<string>): MenuItem -> bool {
    (m: MenuItem) => m.category in categories
  }

  /** Sections for distinct categories list each item of those categories exactly once. */
  lemma {:induction false} ListedForDistinct(items: seq<MenuItem>, categories: seq<string>)
    requires Distinct(categories)
    ensures multiset(Listed(SectionsFor(items, categories))) == multiset(Filter(items, InCategories(categories)))
  {
    var n := |categories|;
    if n == 0 {
      FilterNone(items, InCategories(categories));
    } else {
      var init, c := categories[..n - 1], categories[n - 1];
      var sections := SectionsFor(items, categories);
      SectionsForPrefix(items, categories, n - 1);
      assert sections[..n - 1] == SectionsFor(items, init);
      ListedForDistinct(items, init);
      assert c !in init;
      assert Listed(sections) == Listed(SectionsFor(items, init)) + SectionItems(items, c);
      FilterUnion(items, InCategories(init), InCategory(c), InCategories(categories));
    }
  }

  lemma FilterNone(items: seq<MenuItem>, p: MenuItem -> bool)
    requires forall m :: !p(m)
    ensures Filter(items, p) == []
  {
  }

  /** Every menu item appears exactly once on the page, so the sections are a rearrangement of the menu. */
  lemma EachItemListedOnce(items: seq<MenuItem>)
    ensures multiset(Listed(Sections(items))) == multiset(items)
  {
    var categories := Categories(items);
    CategoriesSpec(items);
    ListedForDistinct(items, categories);
    forall k | 0 <= k < |items|
      ensures InCategories(categories)(items[k])
    {
      assert CategoryList(items)[k] == items[k].category;
    }
    FilterKeepsAll(items, InCategories(categories));
  }

  /** The add button on a card of a catalog with unique ids resolves to that very item. */
  lemma AddTargetFindsItem(catalog: seq<MenuItem>, card: MenuItem)
    requires AppSpec.UniqueIds(catalog) && card in catalog
    ensures Find(catalog, AppSpec.ItemWithId(AddTarget(card))) == Some(card)
  {
    var k :| 0 <= k < |catalog| && catalog[k] == card;
    FindFirst(catalog, AppSpec.ItemWithId(card.id), k);
  }
}
