/** The menu book (components/Menu3D.tsx): one page per menu category showing
    its first three dishes, turned with "next" and "previous" buttons. A turn
    starts an animation and lands when a 300 ms timer fires; buttons are
    ignored while a turn is in progress. The timer is modelled as the separate
    step `CompleteFlip`. */
module Menu3D {
  import opened Optional
  import Menu
  import Cyclic

  /** Dishes shown on one page. */
  const DishesPerPage := 3

  /** A page of the book: a category's name and the dishes it shows. */
  datatype MenuPage = MenuPage(category: string, dishes: seq<Menu.Dish>)

  /** `s.slice(0, k)`: the first `k` elements, or all of them when there are
      fewer. */
  function Take(s: seq<Menu.Dish>, k: nat): (r: seq<Menu.Dish>)
    ensures |r| == if |s| <= k then |s| else k
    ensures r <= s
  {
    if |s| <= k then s else s[..k]
  }

  /** One page per category, in category order. */
  function MenuPages(categories: seq<Menu.Category>): (r: seq<MenuPage>)
    ensures |r| == |categories|
  {
    seq(|categories|, i requires 0 <= i < |categories| =>
      MenuPage(categories[i].name, Take(categories[i].dishes, DishesPerPage)))
  }

  /** Page `i` is category `i`: its name and the first three of its dishes
      (all of them when it has fewer). */
  lemma MenuPagesFollowCategories(categories: seq<Menu.Category>)
    ensures forall i | 0 <= i < |categories| ::
              MenuPages(categories)[i].category == categories[i].name
              && MenuPages(categories)[i].dishes <= categories[i].dishes
              && |MenuPages(categories)[i].dishes| == if |categories[i].dishes| <= 3 then |categories[i].dishes| else 3
  {
  }

  /** The menu book's state. */
  class MenuBook {
    const pages: seq<MenuPage>
    var currentPage: int
    var isFlipping: bool
    /** The turn whose timer has not yet fired. */
    var pending: Option<Cyclic.Direction>

    /** The book has a page, the current page is one of them, and a turn is
        in progress exactly when one is pending. */
    predicate Valid()
      reads this
    {
      |pages| > 0 && 0 <= currentPage < |pages| && (isFlipping <==> pending.Some?)
    }

    /** The book opens at the first page. A menu without categories is not
        modelled: its page lookups and remainders are undefined. */
    constructor (categories: seq<Menu.Category>)
      requires |categories| > 0
      ensures Valid()
      ensures pages == MenuPages(categories)
      ensures currentPage == 0 && !isFlipping
    {
      pages := MenuPages(categories);
      currentPage := 0;
      isFlipping := false;
      pending := None;
    }

    /** The page on display. */
    function Shown(): MenuPage
      requires Valid()
      reads this
    {
      pages[currentPage]
    }

    /** The "Page k of n" label. */
    function PageLabel(): (r: (int, int))
      requires Valid()
      reads this
      ensures 1 <= r.0 <= r.1 == |pages|
    {
      (currentPage + 1, |pages|)
    }

    /** `flipPage`: ignored while a turn is in progress; otherwise the turn
        starts and the page stays as it is until the timer fires. */
    method FlipPage(direction: Cyclic.Direction)
      requires Valid()
      modifies this
      ensures Valid()
      ensures currentPage == old(currentPage) && isFlipping
      ensures pending == if old(isFlipping) then old(pending) else Some(direction)
    {
      if isFlipping {
        return;
      }
      isFlipping := true;
      pending := Some(direction);
    }

    /** The timer of a turn fires: the page moves one step with wrap-around
        and the buttons are enabled again. Without a turn in progress nothing
        happens. */
    method CompleteFlip()
      requires Valid()
      modifies this
      ensures Valid() && !isFlipping
      ensures currentPage == match old(pending)
                             case None => old(currentPage)
                             case Some(d) => Cyclic.Step(old(currentPage), d, |pages|)
    {
      if pending.Some? {
        currentPage := Cyclic.Step(currentPage, pending.value, |pages|);
      }
      isFlipping := false;
      pending := None;
    }
  }

  /** A completed turn forward from the last page lands on the first, and a
      turn backward from the first lands on the last. */
  lemma TurnsWrapAround(n: int)
    requires n > 0
    ensures Cyclic.Step(n - 1, Cyclic.Forward, n) == 0
    ensures Cyclic.Step(0, Cyclic.Backward, n) == n - 1
  {
    Cyclic.NextStep(n - 1, n);
    Cyclic.PrevStep(0, n);
  }
}
