/** The menu section (components/Menu.tsx): the catalog of categories and
    dishes is flattened into one list, filtered by the visitor's query and
    optionally sorted; beside it the section shows the first popular dishes
    and every chef's special. */
module Menu {
  import opened Optional
  import StableSort
  import opened ArrayFilter

  /** A dish of the catalog, with the fields the section's logic reads.
      `category` is the id of the category the dish was listed under once the
      catalog is flattened; a missing `isPopular` or `isChefsSpecial` flag is
      `false`. */
  datatype Dish = Dish(
    id: int,
    name: string,
    description: string,
    price: int,
    category: string,
    rating: Option<real>,
    spiceLevel: Option<int>,
    isPopular: bool,
    isChefsSpecial: bool)

  /** A catalog category: its id, its display name and its dishes. */
  datatype Category = Category(id: string, name: string, dishes: seq<Dish>)

  /** The sort dropdown. */
  datatype SortBy = Default | Rating | PriceLow | PriceHigh

  /** The five pieces of query state the section keeps. */
  datatype Query = Query(
    category: string,
    search: string,
    sortBy: SortBy,
    popularOnly: bool,
    chefsSpecialOnly: bool)

  /** The category filter value that lets every dish through. */
  const AllCategories := "all"

  /** The state the section starts in. */
  const InitialQuery := Query(AllCategories, "", Default, false, false)

  // ---------------------------------------------------------------------
  // Flattening the catalog: `allDishes`
  // ---------------------------------------------------------------------

  /** The dishes of one category, each tagged with the category's id. */
  function Tagged(c: Category): (r: seq<Dish>)
    ensures |r| == |c.dishes|
  {
    seq(|c.dishes|, j requires 0 <= j < |c.dishes| => c.dishes[j].(category := c.id))
  }

  /** Tagging keeps the category's dishes in their order and changes nothing
      but their `category`, which becomes the category's id. */
  lemma TaggedDishes(c: Category)
    ensures forall j | 0 <= j < |c.dishes| ::
              Tagged(c)[j].category == c.id && Tagged(c)[j].(category := c.dishes[j].category) == c.dishes[j]
  {
  }

  /** The number of dishes in the catalog. */
  function DishCount(cats: seq<Category>): nat {
    if cats == [] then 0 else |cats[0].dishes| + DishCount(cats[1..])
  }

  /** Every category's dishes, tagged with its id, one category after the
      other. */
  function AllDishes(cats: seq<Category>): (r: seq<Dish>)
    ensures |r| == DishCount(cats)
  {
    if cats == [] then [] else Tagged(cats[0]) + AllDishes(cats[1..])
  }

  /** Flattening two catalogs one after the other gives the two flat lists one
      after the other. */
  lemma {:induction false} AllDishesAppend(a: seq<Category>, b: seq<Category>)
    ensures AllDishes(a + b) == AllDishes(a) + AllDishes(b)
  {
    if a == [] {
      assert a + b == b;
    } else {
      assert (a + b)[0] == a[0] && (a + b)[1..] == a[1..] + b;
      calc {
        AllDishes(a + b);
        Tagged(a[0]) + AllDishes(a[1..] + b);
        { AllDishesAppend(a[1..], b); }
        Tagged(a[0]) + (AllDishes(a[1..]) + AllDishes(b));
        (Tagged(a[0]) + AllDishes(a[1..])) + AllDishes(b);
      }
    }
  }

  /** Category order, then dish order: the flat list is the dishes of the
      categories before `k`, then those of category `k`, then those after. */
  lemma {:induction false} AllDishesSplit(cats: seq<Category>, k: nat)
    requires k < |cats|
    ensures AllDishes(cats) == AllDishes(cats[..k]) + (Tagged(cats[k]) + AllDishes(cats[k + 1..]))
  {
    var before, rest := cats[..k], cats[k..];
    assert cats == before + rest;
    AllDishesAppend(before, rest);
    assert rest[0] == cats[k] && rest[1..] == cats[k + 1..];
    assert AllDishes(rest) == Tagged(cats[k]) + AllDishes(cats[k + 1..]);
  }

  /** Every flattened dish carries the id of a category of the catalog. */
  lemma {:induction false} AllDishesCategoryIds(cats: seq<Category>, i: nat)
    requires i < |AllDishes(cats)|
    ensures exists k | 0 <= k < |cats| :: AllDishes(cats)[i].category == cats[k].id
  {
    TaggedDishes(cats[0]);
    if i < |cats[0].dishes| {
      assert AllDishes(cats)[i] == Tagged(cats[0])[i];
    } else {
      var i' := i - |cats[0].dishes|;
      AllDishesCategoryIds(cats[1..], i');
      assert AllDishes(cats)[i] == AllDishes(cats[1..])[i'];
      var k' :| 0 <= k' < |cats[1..]| && AllDishes(cats[1..])[i'].category == cats[1..][k'].id;
      assert cats[1..][k'] == cats[k' + 1];
    }
  }

  // ---------------------------------------------------------------------
  // The filter stage
  // ---------------------------------------------------------------------

  /** `toLowerCase` on one character, for the ASCII letters. */
  function LowerChar(c: char): (r: char)
    ensures !('A' <= r <= 'Z')
    ensures 'A' <= c <= 'Z' ==> r as int == c as int + 32
    ensures !('A' <= c <= 'Z') ==> r == c
  {
    if 'A' <= c <= 'Z' then (c as int + 32) as char else c
  }

  /** `toLowerCase` on a string. */
  function Lower(s: string): (r: string)
    ensures |r| == |s|
    ensures forall i | 0 <= i < |r| :: !('A' <= r[i] <= 'Z')
    ensures forall i | 0 <= i < |s| && 'A' <= s[i] <= 'Z' :: r[i] as int == s[i] as int + 32
    ensures forall i | 0 <= i < |s| && !('A' <= s[i] <= 'Z') :: r[i] == s[i]
  {
    seq(|s|, i requires 0 <= i < |s| => LowerChar(s[i]))
  }

  /** `hay.includes(needle)`: `needle` occurs in `hay` at some position. */
  function Includes(hay: string, needle: string): (b: bool)
    ensures b <==> exists i | 0 <= i <= |hay| :: needle <= hay[i..]
  {
    if needle <= hay then
      assert needle <= hay[0..];
      true
    else if hay == [] then false
    else
      var found := Includes(hay[1..], needle);
      assert forall i | 1 <= i <= |hay| :: hay[i..] == hay[1..][i - 1..];
      found
  }

  predicate MatchesCategory(d: Dish, q: Query) {
    q.category == AllCategories || d.category == q.category
  }

  /** Name or description contains the search text, ignoring letter case. */
  predicate MatchesSearch(d: Dish, q: Query) {
    Includes(Lower(d.name), Lower(q.search)) || Includes(Lower(d.description), Lower(q.search))
  }

  predicate MatchesPopular(d: Dish, q: Query) {
    !q.popularOnly || d.isPopular
  }

  predicate MatchesChefsSpecial(d: Dish, q: Query) {
    !q.chefsSpecialOnly || d.isChefsSpecial
  }

  /** A dish is shown when it passes all four filters: it never shows under
      another category's tab, or under a toggle whose flag it lacks, and with
      an empty search the search filter lets it through. */
  function Matches(d: Dish, q: Query): (b: bool)
    ensures b ==> q.category == AllCategories || d.category == q.category
    ensures b ==> (!q.popularOnly || d.isPopular) && (!q.chefsSpecialOnly || d.isChefsSpecial)
    ensures q.search == "" ==> (b <==> MatchesCategory(d, q) && MatchesPopular(d, q) && MatchesChefsSpecial(d, q))
  {
    assert q.search == "" ==> Lower(q.search) <= Lower(d.name)[0..];
    MatchesCategory(d, q) && MatchesSearch(d, q) && MatchesPopular(d, q) && MatchesChefsSpecial(d, q)
  }

  /** An empty search text is contained in every name. */
  lemma EmptySearchMatches(d: Dish, q: Query)
    requires q.search == ""
    ensures MatchesSearch(d, q)
  {
    assert Lower(q.search) <= Lower(d.name)[0..];
  }

  /** Lower-casing twice is lower-casing once. */
  lemma LowerIdempotent(s: string)
    ensures Lower(Lower(s)) == Lower(s)
  {
    forall i | 0 <= i < |s|
      ensures Lower(Lower(s))[i] == Lower(s)[i]
    {
    }
  }

  /** The search ignores the letter case of the search text: two texts that
      differ only in the case of their letters select the same dishes, and so
      does the lower-cased text. */
  lemma SearchIgnoresCase(d: Dish, q: Query, text: string)
    requires |text| == |q.search|
    requires forall i | 0 <= i < |text| :: LowerChar(text[i]) == LowerChar(q.search[i])
    ensures MatchesSearch(d, q.(search := text)) == MatchesSearch(d, q)
    ensures MatchesSearch(d, q.(search := Lower(q.search))) == MatchesSearch(d, q)
  {
    assert Lower(text) == Lower(q.search);
    LowerIdempotent(q.search);
  }

  /** The catalog's dishes that pass the query's filters, in catalog order. */
  function Filtered(cats: seq<Category>, q: Query): (r: seq<Dish>)
    ensures |r| <= |AllDishes(cats)|
    ensures forall d :: d in r <==> d in AllDishes(cats) && Matches(d, q)
  {
    Select(AllDishes(cats), d => Matches(d, q))
  }

  // ---------------------------------------------------------------------
  // The sort stage
  // ---------------------------------------------------------------------

  /** `dish.rating || 0`: a dish without a rating counts as rated 0. */
  function RatingOrZero(d: Dish): real {
    d.rating.GetOr(0.0)
  }

  /** The key each order sorts by, ascending. */
  function Key(order: SortBy, d: Dish): real
    requires order != Default
  {
    match order
    case Rating => -RatingOrZero(d)
    case PriceLow => d.price as real
    case PriceHigh => -(d.price as real)
  }

  /** The key of `order` as a function value, for the sort. */
  function KeyOf(order: SortBy): Dish -> real
    requires order != Default
  {
    d => Key(order, d)
  }

  /** The comparator the source passes to `sort` for each order: it is the
      difference of the keys, so "a sorts before b" is "a's key is smaller"
      and a zero difference is a tie. */
  function Compare(order: SortBy, a: Dish, b: Dish): (r: real)
    requires order != Default
    ensures r < 0.0 <==> Key(order, a) < Key(order, b)
    ensures r == 0.0 <==> Key(order, a) == Key(order, b)
  {
    match order
    case Rating => RatingOrZero(b) - RatingOrZero(a)
    case PriceLow => (a.price - b.price) as real
    case PriceHigh => (b.price - a.price) as real
  }

  /** `filteredAndSortedDishes`: the filtered dishes, stably sorted unless
      the order is the default one. */
  function FilteredAndSorted(cats: seq<Category>, q: Query): (r: seq<Dish>)
    ensures |r| == |Filtered(cats, q)| <= DishCount(cats)
  {
    if q.sortBy == Default then Filtered(cats, q)
    else StableSort.InsertionSort(Filtered(cats, q), KeyOf(q.sortBy))
  }

  /** The derivation as the source runs it: filter into a fresh array, then
      sort that array in place. */
  method FilterAndSort(cats: seq<Category>, q: Query) returns (r: seq<Dish>)
    ensures r == FilteredAndSorted(cats, q)
  {
    var filtered := Filtered(cats, q);
    if q.sortBy == Default {
      r := filtered;
    } else {
      var a := new Dish[|filtered|](i requires 0 <= i < |filtered| => filtered[i]);
      assert a[..] == filtered;
      StableSort.SortInPlace(a, KeyOf(q.sortBy));
      r := a[..];
    }
  }

  // ---------------------------------------------------------------------
  // What the derivation promises
  // ---------------------------------------------------------------------

  /** The filter stage keeps the catalog order and adds no copies. */
  lemma FilteredSpec(cats: seq<Category>, q: Query)
    ensures IsSubsequence(Filtered(cats, q), AllDishes(cats))
    ensures multiset(Filtered(cats, q)) <= multiset(AllDishes(cats))
  {
    SelectIsSubsequence(AllDishes(cats), d => Matches(d, q));
    SelectSubMultiset(AllDishes(cats), d => Matches(d, q));
  }

  /** The sort stage neither invents nor drops a dish: the result is a
      permutation of the filtered list. */
  lemma SortStagePermutes(cats: seq<Category>, q: Query)
    ensures multiset(FilteredAndSorted(cats, q)) == multiset(Filtered(cats, q))
  {
    if q.sortBy != Default {
      StableSort.InsertionSortPermutes(Filtered(cats, q), KeyOf(q.sortBy));
    }
  }

  /** Every dish shown passes the category, search, popular and chef's-special
      filters, and every catalog dish that passes them is shown. */
  lemma ResultIsExactlyTheMatches(cats: seq<Category>, q: Query)
    ensures forall d :: d in FilteredAndSorted(cats, q) <==> d in AllDishes(cats) && Matches(d, q)
  {
    FilteredSpec(cats, q);
    SortStagePermutes(cats, q);
    forall d
      ensures d in FilteredAndSorted(cats, q) <==> d in Filtered(cats, q)
    {
      assert d in FilteredAndSorted(cats, q) <==> d in multiset(FilteredAndSorted(cats, q));
      assert d in Filtered(cats, q) <==> d in multiset(Filtered(cats, q));
    }
  }

  /** With the default order the filtered list is shown as it is, in
      catalog order. */
  lemma DefaultKeepsCatalogOrder(cats: seq<Category>, q: Query)
    requires q.sortBy == Default
    ensures FilteredAndSorted(cats, q) == Filtered(cats, q)
    ensures IsSubsequence(FilteredAndSorted(cats, q), AllDishes(cats))
  {
    FilteredSpec(cats, q);
  }

  /** Any other order yields a list sorted by its key in which dishes with
      equal keys keep their catalog order. */
  lemma SortedAndStable(cats: seq<Category>, q: Query, k: real)
    requires q.sortBy != Default
    ensures StableSort.Sorted(FilteredAndSorted(cats, q), KeyOf(q.sortBy))
    ensures StableSort.WithKey(FilteredAndSorted(cats, q), KeyOf(q.sortBy), k)
         == StableSort.WithKey(Filtered(cats, q), KeyOf(q.sortBy), k)
  {
    StableSort.InsertionSortSorted(Filtered(cats, q), KeyOf(q.sortBy));
    StableSort.InsertionSortStable(Filtered(cats, q), KeyOf(q.sortBy), k);
  }

  /** "Price: Low to High": prices never decrease along the list. */
  lemma PriceLowAscending(cats: seq<Category>, q: Query)
    requires q.sortBy == PriceLow
    ensures forall i | 0 <= i < |FilteredAndSorted(cats, q)| - 1 ::
              FilteredAndSorted(cats, q)[i].price <= FilteredAndSorted(cats, q)[i + 1].price
  {
    SortedAndStable(cats, q, 0.0);
    var r := FilteredAndSorted(cats, q);
    forall i | 0 <= i < |r| - 1
      ensures r[i].price <= r[i + 1].price
    {
      assert KeyOf(PriceLow)(r[i]) <= KeyOf(PriceLow)(r[i + 1]);
    }
  }

  /** "Price: High to Low": prices never increase along the list. */
  lemma PriceHighDescending(cats: seq<Category>, q: Query)
    requires q.sortBy == PriceHigh
    ensures forall i | 0 <= i < |FilteredAndSorted(cats, q)| - 1 ::
              FilteredAndSorted(cats, q)[i].price >= FilteredAndSorted(cats, q)[i + 1].price
  {
    SortedAndStable(cats, q, 0.0);
    var r := FilteredAndSorted(cats, q);
    forall i | 0 <= i < |r| - 1
      ensures r[i].price >= r[i + 1].price
    {
      assert KeyOf(PriceHigh)(r[i]) <= KeyOf(PriceHigh)(r[i + 1]);
    }
  }

  /** "Highest Rated": ratings never increase along the list, a dish without
      a rating being placed as if rated 0. */
  lemma RatingDescending(cats: seq<Category>, q: Query)
    requires q.sortBy == Rating
    ensures forall i | 0 <= i < |FilteredAndSorted(cats, q)| - 1 ::
              RatingOrZero(FilteredAndSorted(cats, q)[i]) >= RatingOrZero(FilteredAndSorted(cats, q)[i + 1])
  {
    SortedAndStable(cats, q, 0.0);
    var r := FilteredAndSorted(cats, q);
    forall i | 0 <= i < |r| - 1
      ensures RatingOrZero(r[i]) >= RatingOrZero(r[i + 1])
    {
      assert KeyOf(Rating)(r[i]) <= KeyOf(Rating)(r[i + 1]);
    }
  }

  /** The section's initial state (all categories, empty search, default
      order, no toggles) shows the whole catalog in catalog order. */
  lemma InitialQueryShowsCatalog(cats: seq<Category>)
    ensures FilteredAndSorted(cats, InitialQuery) == AllDishes(cats)
  {
    var all := AllDishes(cats);
    forall i | 0 <= i < |all|
      ensures Matches(all[i], InitialQuery)
    {
      EmptySearchMatches(all[i], InitialQuery);
    }
    SelectAll(all, d => Matches(d, InitialQuery));
  }

  /** When no dish passes the filters the result is empty (the section then
      shows its "no dishes found" message). */
  lemma NoMatchesGivesEmpty(cats: seq<Category>, q: Query)
    requires forall i | 0 <= i < |AllDishes(cats)| :: !Matches(AllDishes(cats)[i], q)
    ensures FilteredAndSorted(cats, q) == []
  {
    SelectNone(AllDishes(cats), d => Matches(d, q));
  }

  /** A two-dish catalog: a popular starter at 220 and a main at 180. */
  function TwoDishMenu(starter: Dish, main: Dish): seq<Category> {
    [Category("starters", "Starters", [starter]), Category("mains", "Mains", [main])]
  }

  /** Flattening the two-dish catalog tags each dish with its category. */
  lemma TwoDishFlatten(starter: Dish, main: Dish)
    ensures AllDishes(TwoDishMenu(starter, main))
            == [starter.(category := "starters"), main.(category := "mains")]
  {
    var cats := TwoDishMenu(starter, main);
    assert cats[1..][1..] == [];
    assert Tagged(cats[0]) == [starter.(category := "starters")];
    assert Tagged(cats[1..][0]) == [main.(category := "mains")];
  }

  /** Sorted by ascending price, the main at 180 comes before the starter at
      220. */
  lemma TwoDishByPrice(starter: Dish, main: Dish)
    requires starter.price == 220 && main.price == 180
    ensures FilteredAndSorted(TwoDishMenu(starter, main), InitialQuery.(sortBy := PriceLow))
            == [main.(category := "mains"), starter.(category := "starters")]
  {
    var cats := TwoDishMenu(starter, main);
    var s, m := starter.(category := "starters"), main.(category := "mains");
    TwoDishFlatten(starter, main);
    EmptySearchMatches(s, InitialQuery);
    EmptySearchMatches(m, InitialQuery);
    var byPrice := InitialQuery.(sortBy := PriceLow);
    assert Filtered(cats, byPrice) == [s, m] by {
      assert Matches(s, byPrice) && Matches(m, byPrice);
      SelectAll([s, m], d => Matches(d, byPrice));
    }
    var key := KeyOf(PriceLow);
    assert StableSort.InsertionSort([s, m], key) == [m, s] by {
      assert key(s) == 220.0 && key(m) == 180.0;
      assert [s, m][..1] == [s] && [s][..0] == [];
      assert StableSort.InsertionSort([s], key) == [s];
      assert StableSort.Insert([s], m, key) == [m, s];
    }
  }

  /** With "popular only" just the popular starter is left. */
  lemma TwoDishPopularOnly(starter: Dish, main: Dish)
    requires starter.isPopular && !main.isPopular
    ensures FilteredAndSorted(TwoDishMenu(starter, main), InitialQuery.(popularOnly := true))
            == [starter.(category := "starters")]
  {
    var s, m := starter.(category := "starters"), main.(category := "mains");
    TwoDishFlatten(starter, main);
    EmptySearchMatches(s, InitialQuery);
    EmptySearchMatches(m, InitialQuery);
    var popular := InitialQuery.(popularOnly := true);
    var p := d => Matches(d, popular);
    assert p(s) && !p(m);
    assert [s, m][1..] == [m] && [m][1..] == [];
    assert Select([m], p) == [];
    assert Select([s, m], p) == [s];
  }

  // ---------------------------------------------------------------------
  // The derived views beside the list
  // ---------------------------------------------------------------------

  predicate IsPopular(d: Dish) {
    d.isPopular
  }

  predicate IsChefsSpecial(d: Dish) {
    d.isChefsSpecial
  }

  /** How many popular dishes the "Most Popular" row shows at most. */
  const PopularShown := 3

  /** `popularDishes`: the popular dishes of the catalog, cut to the first
      three; the query state plays no part. */
  function PopularDishes(cats: seq<Category>): (r: seq<Dish>)
    ensures r <= Select(AllDishes(cats), IsPopular)
    ensures |r| == if |Select(AllDishes(cats), IsPopular)| < PopularShown
                   then |Select(AllDishes(cats), IsPopular)| else PopularShown
  {
    var popular := Select(AllDishes(cats), IsPopular);
    if |popular| < PopularShown then popular else popular[..PopularShown]
  }

  /** The "Most Popular" row lists popular dishes only, in catalog order. */
  lemma PopularDishesInCatalogOrder(cats: seq<Category>)
    ensures forall d | d in PopularDishes(cats) :: d.isPopular && d in AllDishes(cats)
    ensures IsSubsequence(PopularDishes(cats), AllDishes(cats))
  {
    var popular := Select(AllDishes(cats), IsPopular);
    SelectIsSubsequence(AllDishes(cats), IsPopular);
    SubsequencePrefix(popular, AllDishes(cats), |PopularDishes(cats)|);
    assert popular[..|PopularDishes(cats)|] == PopularDishes(cats);
    forall d | d in PopularDishes(cats)
      ensures d.isPopular && d in AllDishes(cats)
    {
      var i :| 0 <= i < |PopularDishes(cats)| && PopularDishes(cats)[i] == d;
      assert popular[i] == d && d in popular && IsPopular(d);
    }
  }

  /** `chefsSpecialDishes`: every chef's special of the catalog, whatever the
      query state. */
  function ChefsSpecialDishes(cats: seq<Category>): (r: seq<Dish>)
    ensures forall d :: d in r <==> d in AllDishes(cats) && d.isChefsSpecial
  {
    Select(AllDishes(cats), IsChefsSpecial)
  }

  /** The chef's specials appear in catalog order. */
  lemma ChefsSpecialsInCatalogOrder(cats: seq<Category>)
    ensures IsSubsequence(ChefsSpecialDishes(cats), AllDishes(cats))
  {
    SelectIsSubsequence(AllDishes(cats), IsChefsSpecial);
  }

  /** The "Chef's Special Today" banner appears when the catalog has a
      chef's special. */
  predicate ShowsChefsBanner(cats: seq<Category>) {
    |ChefsSpecialDishes(cats)| > 0
  }

  /** The "Most Popular" row appears when the catalog has a popular dish and
      the "All" tab is selected. */
  predicate ShowsPopularRow(cats: seq<Category>, q: Query) {
    |PopularDishes(cats)| > 0 && q.category == AllCategories
  }

  /** The banner and the row depend on the catalog having such a dish, and
      the row also on the category tab, never on the other filters. */
  lemma ViewsShownWhen(cats: seq<Category>, q: Query)
    ensures ShowsChefsBanner(cats) <==> exists d :: d in AllDishes(cats) && d.isChefsSpecial
    ensures ShowsPopularRow(cats, q)
            <==> q.category == AllCategories && exists d :: d in AllDishes(cats) && d.isPopular
  {
    var specials := ChefsSpecialDishes(cats);
    if |specials| > 0 {
      assert specials[0] in specials;
    }
    var popular := Select(AllDishes(cats), IsPopular);
    if |popular| > 0 {
      assert popular[0] in popular && IsPopular(popular[0]);
    }
    if exists d :: d in AllDishes(cats) && d.isPopular {
      var d :| d in AllDishes(cats) && d.isPopular;
      assert IsPopular(d) && d in popular;
    }
  }

  // ---------------------------------------------------------------------
  // The spice meter of a dish card
  // ---------------------------------------------------------------------

  /** The number of chilli icons on a card. */
  const SpiceSlotCount := 5

  /** The first `n` icons: icon `i` is lit (red) when `i < level`. */
  function Slots(n: nat, level: int): seq<bool> {
    seq(n, i requires 0 <= i < n => i < level)
  }

  /** `renderSpiceLevel(level)`: the five icons of the meter. */
  function SpiceMeter(level: int): (r: seq<bool>)
    ensures |r| == SpiceSlotCount
    ensures forall i, j | 0 <= i < j < |r| :: r[j] ==> r[i]
  {
    Slots(SpiceSlotCount, level)
  }

  /** The number of lit icons. */
  function LitCount(s: seq<bool>): nat {
    if s == [] then 0 else LitCount(s[..|s| - 1]) + (if s[|s| - 1] then 1 else 0)
  }

  /** Exactly `level` of the first `n` icons are lit, clamped to `[0, n]`. */
  lemma {:induction false} SlotsLit(n: nat, level: int)
    ensures LitCount(Slots(n, level)) == if level <= 0 then 0 else if level >= n then n else level
  {
    if n > 0 {
      SlotsLit(n - 1, level);
      assert Slots(n, level)[..n - 1] == Slots(n - 1, level);
    }
  }

  /** The meter lights `level` icons, none for a level at or below 0 and all
      five for a level of 5 or more; the lit icons come first. */
  lemma SpiceMeterLit(level: int)
    ensures LitCount(SpiceMeter(level)) == if level <= 0 then 0 else if level >= 5 then 5 else level
  {
    SlotsLit(SpiceSlotCount, level);
  }

  // ---------------------------------------------------------------------
  // The section's state
  // ---------------------------------------------------------------------

  /** The menu section: the catalog it was built with and its five pieces of
      query state, which the visitor's clicks and keystrokes update. */
  class MenuSection {
    const catalog: seq<Category>
    var selectedCategory: string
    var searchQuery: string
    var sortBy: SortBy
    var showOnlyPopular: bool
    var showOnlyChefsSpecial: bool

    /** The query state as one value. */
    function CurrentQuery(): Query
      reads this
    {
      Query(selectedCategory, searchQuery, sortBy, showOnlyPopular, showOnlyChefsSpecial)
    }

    constructor (catalog: seq<Category>)
      ensures this.catalog == catalog && CurrentQuery() == InitialQuery
    {
      this.catalog := catalog;
      selectedCategory, searchQuery, sortBy := AllCategories, "", Default;
      showOnlyPopular, showOnlyChefsSpecial := false, false;
    }

    /** A category tab ("All" passes `AllCategories`). */
    method SelectCategory(id: string)
      modifies this
      ensures CurrentQuery() == old(CurrentQuery()).(category := id)
    {
      selectedCategory := id;
    }

    /** A keystroke in the search box. */
    method SetSearchQuery(text: string)
      modifies this
      ensures CurrentQuery() == old(CurrentQuery()).(search := text)
    {
      searchQuery := text;
    }

    /** A choice in the sort dropdown. */
    method SetSortBy(order: SortBy)
      modifies this
      ensures CurrentQuery() == old(CurrentQuery()).(sortBy := order)
    {
      sortBy := order;
    }

    /** The "Popular" toggle. */
    method TogglePopular()
      modifies this
      ensures CurrentQuery() == old(CurrentQuery()).(popularOnly := !old(showOnlyPopular))
    {
      showOnlyPopular := !showOnlyPopular;
    }

    /** The "Chef's Special" toggle. */
    method ToggleChefsSpecial()
      modifies this
      ensures CurrentQuery() == old(CurrentQuery()).(chefsSpecialOnly := !old(showOnlyChefsSpecial))
    {
      showOnlyChefsSpecial := !showOnlyChefsSpecial;
    }

    /** The banner's "View Specials" button: turns the chef's-special filter
      on, whatever it was. */
    method ViewSpecials()
      modifies this
      ensures CurrentQuery() == old(CurrentQuery()).(chefsSpecialOnly := true)
    {
      showOnlyChefsSpecial := true;
    }

    /** The list the grid renders for the current state. */
    method VisibleDishes() returns (r: seq<Dish>)
      ensures forall d :: d in r <==> d in AllDishes(catalog) && Matches(d, CurrentQuery())
      ensures r == FilteredAndSorted(catalog, CurrentQuery())
    {
      r := FilterAndSort(catalog, CurrentQuery());
      ResultIsExactlyTheMatches(catalog, CurrentQuery());
    }
  }
}
