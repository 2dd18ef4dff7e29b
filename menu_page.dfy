/**
 * The menu page (src/app/menu/page.tsx): the available items are grouped into
 * one section per category, categories in order of first appearance
 * (`[...new Set(...)]` keeps insertion order), items in their original order.
 */
module MenuPage {
  import opened Records
  import opened SeqUtil

  /** `menuItems.map(item => item.category)` */
  function CategoryList(items: seq<MenuItem>): seq<string> {
    seq(|items|, i requires 0 <= i < |items| => items[i].category)
  }

  /** `[...new Set(list)]`: each element once, where it was first inserted. */
  function Distinct(list: seq<string>): seq<string> {
    if list == [] then []
    else
      var seen := Distinct(list[..|list| - 1]);
      if list[|list| - 1] in seen then seen else seen + [list[|list| - 1]]
  }

  predicate NoDuplicates(s: seq<string>) {
    forall i, j :: 0 <= i < j < |s| ==> s[i] != s[j]
  }

  /** `categories` */
  function Categories(items: seq<MenuItem>): seq<string> {
    Distinct(CategoryList(items))
  }

  /** Every element of the list occurs in the set exactly once, and nothing else does. */
  lemma {:induction false} DistinctMembers(list: seq<string>)
    ensures NoDuplicates(Distinct(list))
    ensures forall x :: x in Distinct(list) <==> x in list
  {
    if list != [] {
      var init := list[..|list| - 1];
      DistinctMembers(init);
      assert list == init + [list[|list| - 1]];
    }
  }

  /** The categories keep the order of their first appearance in the item list. */
  lemma {:induction false} DistinctFirstAppearance(list: seq<string>, i: nat, j: nat)
    requires i < j < |Distinct(list)|
    ensures IndexOf(list, Distinct(list)[i]) < IndexOf(list, Distinct(list)[j])
  {
    var init := list[..|list| - 1];
    var last := list[|list| - 1];
    var d := Distinct(init);
    assert list == init + [last];
    DistinctMembers(init);
    DistinctMembers(list);
    assert Distinct(list)[i] in init by {
      assert Distinct(list)[i] == d[i];
    }
    IndexOfPrefix(init, [last], Distinct(list)[i]);
    if j < |d| {
      assert Distinct(list)[i] == d[i] && Distinct(list)[j] == d[j];
      DistinctFirstAppearance(init, i, j);
      IndexOfPrefix(init, [last], d[j]);
    } else {
      // the new category, seen for the first time at the end of the list
      assert Distinct(list)[j] == last && last !in init;
      assert IndexOf(list, last) == |init|;
    }
  }

  /** `menuItems.filter(item => item.category === category)` */
  function Section(items: seq<MenuItem>, category: string): seq<MenuItem> {
    if items == [] then []
    else (if items[0].category == category then [items[0]] else []) + Section(items[1..], category)
  }

  /** A section holds exactly the items of its category. */
  lemma {:induction false} SectionMembers(items: seq<MenuItem>, category: string)
    ensures forall x :: x in Section(items, category) <==> x in items && x.category == category
  {
    if items != [] {
      SectionMembers(items[1..], category);
      assert items == [items[0]] + items[1..];
    }
  }

  /** Sections keep the items' order: filtering distributes over concatenation. */
  lemma {:induction false} SectionAppend(a: seq<MenuItem>, b: seq<MenuItem>, category: string)
    ensures Section(a + b, category) == Section(a, category) + Section(b, category)
  {
    if a == [] {
      assert a + b == b;
    } else {
      var head := if a[0].category == category then [a[0]] else [];
      assert (a + b)[0] == a[0] && (a + b)[1..] == a[1..] + b;
      SectionAppend(a[1..], b, category);
      assert Section(a + b, category) == head + (Section(a[1..], category) + Section(b, category));
    }
  }

  /** A category no item has gets an empty section. */
  lemma {:induction false} SectionOfAbsentCategory(items: seq<MenuItem>, category: string)
    requires category !in CategoryList(items)
    ensures Section(items, category) == []
  {
    if items != [] {
      assert CategoryList(items)[0] == items[0].category;
      assert CategoryList(items[1..]) == CategoryList(items)[1..];
      SectionOfAbsentCategory(items[1..], category);
    }
  }

  /** A rendered section: the category heading and its items. */
  datatype MenuSection = MenuSection(category: string, items: seq<MenuItem>)

  function Sections(items: seq<MenuItem>): (sections: seq<MenuSection>)
    ensures |sections| == |Categories(items)|
    ensures forall i :: 0 <= i < |sections| ==> sections[i].category == Categories(items)[i]
  {
    var cats := Categories(items);
    seq(|cats|, i requires 0 <= i < |cats| => MenuSection(cats[i], Section(items, cats[i])))
  }

  /** The section drawn under a heading lists exactly the fetched items of that category. */
  lemma SectionsListTheirCategory(items: seq<MenuItem>, i: nat)
    requires i < |Sections(items)|
    ensures forall x :: x in Sections(items)[i].items <==> x in items && x.category == Sections(items)[i].category
  {
    SectionMembers(items, Sections(items)[i].category);
  }

  /** Every item is listed in exactly one section: the one of its category. */
  lemma ItemInExactlyOneSection(items: seq<MenuItem>, k: nat)
    requires k < |items|
    ensures exists i :: 0 <= i < |Sections(items)| && items[k] in Sections(items)[i].items
    ensures forall i, j ::
      (0 <= i < |Sections(items)| && 0 <= j < |Sections(items)|
       && items[k] in Sections(items)[i].items && items[k] in Sections(items)[j].items) ==> i == j
  {
    var cats := Categories(items);
    var secs := Sections(items);
    DistinctMembers(CategoryList(items));
    assert CategoryList(items)[k] == items[k].category;
    assert items[k].category in cats;
    var i :| 0 <= i < |cats| && cats[i] == items[k].category;
    SectionMembers(items, cats[i]);
    forall i, j | 0 <= i < |secs| && 0 <= j < |secs| && items[k] in secs[i].items && items[k] in secs[j].items
      ensures i == j
    {
      SectionMembers(items, cats[i]);
      SectionMembers(items, cats[j]);
    }
  }

  /** The number of items listed over some category sections. */
  function ListedCount(items: seq<MenuItem>, cats: seq<string>): nat {
    if cats == [] then 0 else |Section(items, cats[0])| + ListedCount(items, cats[1..])
  }

  /** Adding an item lists it once in every section of its category. */
  lemma {:induction false} ListedCountAddItem(items: seq<MenuItem>, x: MenuItem, cats: seq<string>)
    ensures ListedCount(items + [x], cats) == ListedCount(items, cats) + Occurrences(cats, x.category)
  {
    if cats != [] {
      SectionAppend(items, [x], cats[0]);
      ListedCountAddItem(items, x, cats[1..]);
    }
  }

  lemma {:induction false} ListedCountAddCategory(items: seq<MenuItem>, cats: seq<string>, c: string)
    ensures ListedCount(items, cats + [c]) == ListedCount(items, cats) + |Section(items, c)|
  {
    if cats == [] {
      assert cats + [c] == [c];
    } else {
      assert (cats + [c])[1..] == cats[1..] + [c];
      ListedCountAddCategory(items, cats[1..], c);
    }
  }

  /** The sections together list exactly as many items as were fetched. */
  lemma {:induction false} ListedCountIsItemCount(items: seq<MenuItem>)
    ensures ListedCount(items, Categories(items)) == |items|
  {
    if items != [] {
      var init := items[..|items| - 1];
      var x := items[|items| - 1];
      assert items == init + [x];
      assert CategoryList(items)[..|items| - 1] == CategoryList(init);
      var cats := Categories(init);
      ListedCountIsItemCount(init);
      ListedCountAddItem(init, x, cats);
      DistinctMembers(CategoryList(init));
      OccurrencesWithoutRepeats(cats, x.category);
      if x.category !in cats {
        ListedCountAddCategory(items, cats, x.category);
        SectionOfAbsentCategory(init, x.category);
        SectionAppend(init, [x], x.category);
      }
    }
  }

  /** The query's answer: the available items, or an error. */
  datatype MenuQuery = Rows(items: seq<MenuItem>) | QueryError(message: string)

  datatype MenuView = ErrorView(message: string) | Listing(sections: seq<MenuSection>)

  function SectionSizes(sections: seq<MenuSection>): nat {
    if sections == [] then 0 else |sections[0].items| + SectionSizes(sections[1..])
  }

  lemma {:induction false} SectionSizesAreListedCount(items: seq<MenuItem>, cats: seq<string>)
    ensures SectionSizes(seq(|cats|, i requires 0 <= i < |cats| => MenuSection(cats[i], Section(items, cats[i]))))
      == ListedCount(items, cats)
  {
    if cats != [] {
      var all := seq(|cats|, i requires 0 <= i < |cats| => MenuSection(cats[i], Section(items, cats[i])));
      var rest := cats[1..];
      assert all[1..] == seq(|rest|, i requires 0 <= i < |rest| => MenuSection(rest[i], Section(items, rest[i])));
      SectionSizesAreListedCount(items, rest);
    }
  }

  /** `MenuPage`: an error page on a query error; otherwise sections listing every item once. */
  function Page(query: MenuQuery): (view: MenuView)
    ensures query.QueryError? ==> view.ErrorView?
    ensures query.Rows? ==> view.Listing? && SectionSizes(view.sections) == |query.items|
  {
    match query
    case QueryError(message) => ErrorView(message)
    case Rows(items) =>
      SectionSizesAreListedCount(items, Categories(items));
      ListedCountIsItemCount(items);
      Listing(Sections(items))
  }
}
