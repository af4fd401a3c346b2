# Petite Point: the site's logic, modelled and proved in Dafny

Petite Point is a restaurant web site built from React components. Most of
it is markup. Five components hold real logic, and this project models that
logic:

- **Menu section** (`menu.dfy`, `stable_sort.dfy`). The catalog of
  categories and dishes is flattened into one list, and each dish is tagged
  with its category's id. The list is filtered by category, by a search text
  (case-insensitive, matched against name or description) and by the
  "popular" and "chef's special" toggles. It is then optionally sorted by
  rating, by ascending price or by descending price. Beside the list the
  section shows the first three popular dishes and every chef's special.
  - JavaScript's `Array.prototype.sort` has been stable since ECMAScript
    2019. It is specified here as stable insertion sort, and the menu sorts
    an array in place against that specification, as the source does.
  - `MenuSection` is the component's state: the catalog plus its five query
    fields.
- **Events section** (`events.dfy`). It has three banquet packages and a
  price estimate of base price plus 500 per guest beyond capacity. The
  price panel lists its lines. The inquiry form goes through its submit
  flow, and `EventsSection` holds the form's state.
- **Gallery** (`gallery.dfy`). Images are filtered by category. A lightbox
  holds an optional selected position and steps with wrap-around;
  `GallerySection` holds the state.
- **Menu book** (`menu3d.dfy`). There is one page per category, each
  showing at most three dishes. A page turn has two phases and is guarded
  against re-entry; `MenuBook` holds the state.
- **Hero banner** (`hero.dfy`). A two-photo carousel rotates on a timer,
  with indicator dots and loading flags; `HeroCarousel` holds the state.
- **Shared modules.** `cyclic.dfy` holds the wrap-around arithmetic that the
  last three share: JavaScript's `%` truncates toward zero, so it is
  written out as `JsRem`. `array_filter.dfy` holds `Array.prototype.filter`
  and the subsequence relation that says a filter keeps its input's order;
  the menu and the gallery both filter with it. `optional.dfy` holds the
  `Option` type.

Conventions:

- The catalog is a parameter of the model, a sequence of `Category` values.
- Prices are integers and ratings are reals, used only for comparison.
- Timers are modelled as explicit steps. The menu book has `FlipPage`, then
  `CompleteFlip` when its 300 ms timer fires. The hero has `Tick` for its
  5-second interval and `PreloadFinished` for the preload promise.
- The e-mail service of the events form is modelled only through its inputs
  and outcome. Its three configured credentials arrive as strings, and
  whether the send succeeded arrives as a boolean.

## Model

| member | source | states |
|---|---|---|
| Cyclic.JsRem | components/Gallery.tsx:54-56 | JavaScript's remainder for a positive divisor: in `[0, n)` for a non-negative dividend, in `(-n, 0]` for a negative one |
| Cyclic.JsRemNear | components/Gallery.tsx:54-56 | below the divisor the remainder is the dividend, between `n` and `2n` it wraps once |
| Cyclic.Next | components/Gallery.tsx:54 | `(i + 1) % n` lands in `[0, n)` from any index at or above -1 |
| Cyclic.Prev | components/Gallery.tsx:56 | `(i - 1 + n) % n` lands in `[0, n)` from any index at or above 0 |
| Cyclic.Step | components/Menu3D.tsx:30-34 | a step either way from an index in range, or from -1, lands in `[0, n)` |
| Cyclic.NextStep | components/Gallery.tsx:53-54 | a forward step goes to `i + 1`, wrapping from the last index to 0, and goes from -1 to 0 |
| Cyclic.PrevStep | components/Gallery.tsx:55-56 | a backward step goes to `i - 1`, wrapping from 0 to the last index; from -1 it goes to `n - 2`, or to 0 when `n` is 1 |
| Cyclic.PrevAfterNext | components/Gallery.tsx:53-57 | stepping back undoes stepping forward |
| Cyclic.NextAfterPrev | components/Gallery.tsx:53-57 | stepping forward undoes stepping back |
| Cyclic.StepRoundTrip | components/Menu3D.tsx:30-34 | a turn in one direction is undone by a turn in the other |
| Cyclic.Advance | components/Hero.tsx:41-43 | any number of forward steps stays in `[0, n)` |
| Cyclic.AdvanceWithinTurn | components/Hero.tsx:41-43 | up to `n` forward steps add `k`, wrapping once past `n` |
| Cyclic.FullTurn | components/Gallery.tsx:53-54 | `n` forward steps return every index to where it started |
| StableSort.Insert | components/Menu.tsx:49-58 | one insertion lengthens the list by exactly one (where it goes: `InsertWithKey`, `InsertSorted`) |
| StableSort.InsertionSort | components/Menu.tsx:49-58 | the sort keeps the list's length (permutation, order and stability: the lemmas below) |
| StableSort.InsertPermutes | components/Menu.tsx:49-58 | one insertion adds its element and loses none |
| StableSort.InsertionSortPermutes | components/Menu.tsx:49-58 | the sort is a permutation of its input |
| StableSort.InsertSorted | components/Menu.tsx:49-58 | inserting into a sorted list keeps it sorted |
| StableSort.InsertionSortSorted | components/Menu.tsx:49-58 | the sort's output is ordered by key |
| StableSort.InsertWithKey | components/Menu.tsx:49-58 | insertion puts an element behind every element with the same key |
| StableSort.InsertionSortStable | components/Menu.tsx:49-58 | for every key, the elements with that key keep their input order (stability) |
| StableSort.SortByConstantKey | components/Menu.tsx:49-58 | when all keys tie, the sort returns its input unchanged |
| StableSort.InsertLast | components/Menu.tsx:51-57 | one in-place pass leaves the array's prefix holding the insertion of its last element and leaves the rest untouched |
| StableSort.SortInPlace | components/Menu.tsx:51-57 | sorting the array in place leaves it holding the stable sort of its old contents |
| ArrayFilter.Select | components/Menu.tsx:39-46 | `filter` keeps exactly the elements satisfying the predicate and never lengthens the list |
| ArrayFilter.SelectIsSubsequence | components/Menu.tsx:39-46 | `filter` keeps the input's order |
| ArrayFilter.SelectAll | components/Menu.tsx:39-46 | a predicate every element passes returns the input itself |
| ArrayFilter.SelectNone | components/Menu.tsx:39-46 | a predicate no element passes returns the empty list |
| ArrayFilter.SelectCounts | components/Menu.tsx:39-46 | `filter` keeps every copy of an element that passes and drops every copy of one that fails |
| ArrayFilter.SelectSubMultiset | components/Menu.tsx:39-46 | `filter` adds no copies of an element |
| Menu.Tagged | components/Menu.tsx:34-36 | a category contributes as many flat dishes as it has dishes |
| Menu.TaggedDishes | components/Menu.tsx:34-36 | tagging keeps a category's dishes in order and changes only `category`, which becomes the category id |
| Menu.AllDishes | components/Menu.tsx:34-36 | the flat list has exactly as many dishes as the categories together |
| Menu.AllDishesAppend | components/Menu.tsx:34-36 | flattening distributes over appending catalogs |
| Menu.AllDishesSplit | components/Menu.tsx:34-36 | the flat list is the dishes of earlier categories, then category `k`'s, then later ones: category order, then dish order |
| Menu.AllDishesCategoryIds | components/Menu.tsx:34-36 | every flat dish carries the id of one of the catalog's categories |
| Menu.LowerChar | components/Menu.tsx:41-42 | an upper-case ASCII letter becomes the letter 32 code points above it, its lower-case form; no other character changes, and no upper-case letter is left |
| Menu.Lower | components/Menu.tsx:41-42 | lower-casing a string keeps its length, turns each upper-case ASCII letter into the letter 32 code points above it, and changes no other character |
| Menu.LowerIdempotent | components/Menu.tsx:41-42 | lower-casing twice is lower-casing once |
| Menu.SearchIgnoresCase | components/Menu.tsx:41-42 | search texts that differ only in letter case, or a text and its lower-cased form, select the same dishes |
| Menu.Includes | components/Menu.tsx:41-42 | `includes` holds exactly when the needle occurs at some position of the haystack |
| Menu.EmptySearchMatches | components/Menu.tsx:41-42 | an empty search text matches every dish |
| Menu.Matches | components/Menu.tsx:39-46 | a dish that passes is in the selected category (or "all" is selected) and has the flag of each toggle that is on; with an empty search, passing is exactly the other three filters |
| Menu.Filtered | components/Menu.tsx:39-46 | the filtered list holds exactly the catalog dishes passing all four filters, and is no longer than the catalog |
| Menu.Compare | components/Menu.tsx:50-57 | each comparator is negative exactly when the first dish's key is smaller, and zero exactly on a tie |
| Menu.FilteredAndSorted | components/Menu.tsx:38-65 | sorting keeps the filtered list's length, which never exceeds the catalog's dish count |
| Menu.FilterAndSort | components/Menu.tsx:38-65 | filtering into a fresh array and sorting it in place yields the filtered, stably sorted list |
| Menu.FilteredSpec | components/Menu.tsx:39-46 | the filtered list keeps catalog order and adds no copies |
| Menu.SortStagePermutes | components/Menu.tsx:49-62 | the sort neither invents nor drops a dish |
| Menu.ResultIsExactlyTheMatches | components/Menu.tsx:38-65 | a dish is shown exactly when it is in the catalog and passes all four filters |
| Menu.DefaultKeepsCatalogOrder | components/Menu.tsx:59-61 | the default order leaves the filtered list as it is, in catalog order |
| Menu.SortedAndStable | components/Menu.tsx:49-58 | any other order is sorted by its key, and dishes with equal keys keep their catalog order |
| Menu.PriceLowAscending | components/Menu.tsx:53-55 | "price-low" gives prices that never decrease |
| Menu.PriceHighDescending | components/Menu.tsx:56-58 | "price-high" gives prices that never increase |
| Menu.RatingDescending | components/Menu.tsx:50-52 | "rating" gives ratings (missing counted as 0) that never increase, so an unrated dish sorts as rated 0 |
| Menu.InitialQueryShowsCatalog | components/Menu.tsx:28-32 | the initial state shows the whole flattened catalog in order |
| Menu.NoMatchesGivesEmpty | components/Menu.tsx:288 | when no dish passes the filters the list is empty |
| Menu.TwoDishFlatten | components/Menu.tsx:34-36 | a starters-then-mains catalog flattens to the starter then the main, each tagged |
| Menu.TwoDishByPrice | components/Menu.tsx:53-55 | in that catalog "price-low" puts the main at 180 before the starter at 220 |
| Menu.TwoDishPopularOnly | components/Menu.tsx:43 | in that catalog "popular only" leaves just the popular starter |
| Menu.PopularDishes | components/Menu.tsx:67 | the popular row is a prefix of the popular dishes, of length `min(count, 3)` |
| Menu.PopularDishesInCatalogOrder | components/Menu.tsx:67 | the popular row holds popular catalog dishes only, in catalog order |
| Menu.ChefsSpecialDishes | components/Menu.tsx:68 | the specials are exactly the catalog's chef's specials, whatever the query |
| Menu.ChefsSpecialsInCatalogOrder | components/Menu.tsx:68 | the specials appear in catalog order |
| Menu.ViewsShownWhen | components/Menu.tsx:123-149 | the banner appears exactly when a special exists; the popular row exactly when a popular dish exists and the "All" tab is selected |
| Menu.SlotsLit | components/Menu.tsx:79-91 | of `n` icons, `level` clamped to `[0, n]` are lit |
| Menu.SpiceMeter | components/Menu.tsx:79-91 | the meter has five icons, and the lit icons come first |
| Menu.SpiceMeterLit | components/Menu.tsx:79-91 | the meter lights `level` icons clamped to `[0, 5]` |
| Menu.MenuSection.constructor | components/Menu.tsx:28-32 | the section starts with all categories, empty search, default order and both toggles off |
| Menu.MenuSection.SelectCategory | components/Menu.tsx:216-228 | a tab sets the category and changes nothing else |
| Menu.MenuSection.SetSearchQuery | components/Menu.tsx:205 | typing sets the search text and changes nothing else |
| Menu.MenuSection.SetSortBy | components/Menu.tsx:243 | the dropdown sets the order and changes nothing else |
| Menu.MenuSection.TogglePopular | components/Menu.tsx:255 | the popular toggle flips its flag and changes nothing else |
| Menu.MenuSection.ToggleChefsSpecial | components/Menu.tsx:265 | the chef's toggle flips its flag and changes nothing else |
| Menu.MenuSection.ViewSpecials | components/Menu.tsx:139 | "View Specials" turns the chef's filter on and changes nothing else |
| Menu.MenuSection.VisibleDishes | components/Menu.tsx:288-289 | the grid lists exactly the matching catalog dishes, filtered then sorted for the current state |
| Events.FindPackage | components/Events.tsx:127-128 | `find` yields nothing exactly when no package has the id, and otherwise a listed package with that id |
| Events.FindOfferedPackage | components/Events.tsx:19-47 | each of the three packages is found by its own id |
| Events.CalculatePrice | components/Events.tsx:125-134 | with no matching package the estimate is 0; otherwise it is at least the base price, and equals it exactly when the guests fit the capacity |
| Events.NoPackageNoPrice | components/Events.tsx:126-128 | with no matching package, including the initial id 0, the estimate is 0 |
| Events.PriceMonotoneInGuests | components/Events.tsx:131-132 | more guests never lower the estimate |
| Events.EachExtraGuestCostsFee | components/Events.tsx:131-132 | at or beyond capacity each further guest adds exactly 500 |
| Events.SmallGatheringFor25 | components/Events.tsx:19-28 | the small package for 25 guests costs 17500 |
| Events.WithPackage | components/Events.tsx:200 | selecting a package sets the package id and the guests to its capacity, and changes no other field |
| Events.SelectingPackageShowsBasePrice | components/Events.tsx:200 | selecting an offered package makes it the selection and the estimate its base price |
| Events.BaseLine | components/Events.tsx:406-409 | the base line has a value exactly when a package is selected, and never exceeds the total |
| Events.ExtraGuestLine | components/Events.tsx:411-418 | the extra-guest line, when shown, is at least one guest's fee; for a selected package it is shown exactly when the guests exceed capacity |
| Events.BreakdownAddsUp | components/Events.tsx:392-424 | with a selected package the breakdown is shown, and base plus extra equals the total |
| Events.BreakdownShownWithPackage | components/Events.tsx:392 | for package id 0 or an offered package's id, the breakdown is shown exactly when a package is selected |
| Events.PackageLabel | components/Events.tsx:101 | the payload names the selected package, or "Custom" when none matches |
| Events.InquiryOf | components/Events.tsx:93-103 | the payload is an "Event Inquiry", copies the form's fields, and never has an empty package name |
| Events.InquiryNamesPackage | components/Events.tsx:88-103 | an inquiry for an offered package carries its name, and one with no package says "Custom" |
| Events.EventsSection.constructor | components/Events.tsx:61-72 | the form starts empty with 20 guests and package 0, not submitting, status idle |
| Events.EventsSection.SelectPackage | components/Events.tsx:200 | "Select Package" sets the package id and the guests to its capacity |
| Events.EventsSection.SetGuests | components/Events.tsx:343 | the guest input sets the guest count only |
| Events.EventsSection.Submit | components/Events.tsx:74-124 | a send happens exactly when all credentials are set, and carries the form's inquiry. Success resets the form to its initial values; a missing credential or a failed send gives "error" and keeps the form. Submitting ends false in every case |
| Gallery.InCategory | components/Gallery.tsx:39 | filtering by category never lengthens the list |
| Gallery.InCategoryMembers | components/Gallery.tsx:39 | the category filter keeps exactly the images of that category, in their order in the list |
| Gallery.FilteredImages | components/Gallery.tsx:36-40 | "all" shows the list unchanged; any other filter shows exactly the images of that category; never more images than the list has |
| Gallery.TwoCategoriesPartition | components/Gallery.tsx:36-40 | with two categories, the two filtered lists together account for every image |
| Gallery.CategoryFilters | components/Gallery.tsx:36-40 | "all" returns the list unchanged; "food" and "interior" filter by category |
| Gallery.EveryImageFoodOrInterior | components/Gallery.tsx:9-30 | each of the images is food or interior |
| Gallery.FilterButtons | components/Gallery.tsx:124-134 | "all" shows 18 images, and "food" and "interior" split those 18 between them |
| Gallery.CurrentIndex | components/Gallery.tsx:52 | `findIndex` gives the selection when it is a position of the list, -1 otherwise |
| Gallery.Navigated | components/Gallery.tsx:50-58 | navigation leaves a closed lightbox closed, an open one open, and lands in range |
| Gallery.NavigateSteps | components/Gallery.tsx:52-57 | from position `s`, "next" goes to `s + 1` and "prev" to `s - 1`, each wrapping around |
| Gallery.NavigateRoundTrip | components/Gallery.tsx:53-57 | "prev" after "next", or "next" after "prev", returns to the start |
| Gallery.NavigateFromOutside | components/Gallery.tsx:52-54 | from a selection outside the list, "next" goes to the first image |
| Gallery.Caption | components/Gallery.tsx:248 | the caption for a position of the list reads between 1 and `n` of `n` |
| Gallery.GallerySection.constructor | components/Gallery.tsx:33-34 | the lightbox starts closed and the filter at "all" |
| Gallery.GallerySection.SetFilter | components/Gallery.tsx:134 | a filter button sets the filter and leaves the selection |
| Gallery.GallerySection.OpenLightbox | components/Gallery.tsx:42-44 | opening selects the clicked position |
| Gallery.GallerySection.CloseLightbox | components/Gallery.tsx:46-48 | closing clears the selection |
| Gallery.GallerySection.NavigateImage | components/Gallery.tsx:50-58 | does nothing with the lightbox closed, otherwise steps with wrap-around over the shown images |
| Menu3D.Take | components/Menu3D.tsx:22 | `slice(0, 3)` is a prefix of length `min(len, 3)` |
| Menu3D.MenuPages | components/Menu3D.tsx:20-23 | the book has one page per category |
| Menu3D.MenuPagesFollowCategories | components/Menu3D.tsx:20-23 | page `i` is category `i`, with the category's name and a prefix of at most 3 of its dishes |
| Menu3D.MenuBook.constructor | components/Menu3D.tsx:17-23 | the book opens at the first page, not turning |
| Menu3D.MenuBook.PageLabel | components/Menu3D.tsx:174 | "Page k of n" has `1 <= k <= n` |
| Menu3D.MenuBook.FlipPage | components/Menu3D.tsx:25-28 | ignored while a turn is in progress; otherwise starts one and leaves the page unchanged |
| Menu3D.MenuBook.CompleteFlip | components/Menu3D.tsx:29-36 | the timer moves the page one step with wrap-around, keeps it in range and ends the turn |
| Menu3D.TurnsWrapAround | components/Menu3D.tsx:30-34 | "next" from the last page goes to the first, "prev" from the first goes to the last |
| Hero.HeroCarousel.constructor | components/Hero.tsx:7-15 | the carousel starts on the first of the two photos, nothing loaded |
| Hero.HeroCarousel.OpaqueLayers | components/Hero.tsx:59-64 | exactly one layer, the current photo's, is drawn opaque |
| Hero.HeroCarousel.Tick | components/Hero.tsx:41-43 | a tick moves to the next photo with wrap-around and touches no flag |
| Hero.HeroCarousel.ClickIndicator | components/Hero.tsx:216-219 | a dot jumps to its photo |
| Hero.HeroCarousel.PreloadFinished | components/Hero.tsx:29-36 | loading ends shown either way, with the photos preloaded only on success; the photo on display stays one of the photos |
| Hero.TwoPhotosAlternate | components/Hero.tsx:7-10 | with two photos each tick shows the other one, and two ticks return to the start |

## Left out

- Sending the inquiry by e-mail and reading its credentials from the environment are left out. The credentials are parameters of `Submit`, and the send's outcome is a boolean.
- The asynchronous order of `handleSubmit` is left out. It runs as one step, so the brief `isSubmitting` = true window is not observable, and neither is the disabled submit button.
- Events.InquiryOf: the guest count is carried as a number, not as the decimal string the source sends.
- Events.FindPackage: states that the found package is a listed one with the id, not that it is the first such; the offered packages have distinct ids, so `FindOfferedPackage` pins down the result for them.
- Events.BreakdownShownWithPackage: stated only for package id 0 and the offered ids, the only ones the page's buttons set; for any other positive id the panel shows a breakdown with an undefined base price, which `BaseLine` does not render.
- `parseInt` yielding NaN for a cleared guest field is left out, because guests are integers here.
- Case folding covers ASCII letters only. Unicode `toLowerCase` is not modelled.
- Locale number formatting (`toLocaleString`) is left out, because it is presentation only.
- Dish fields that no logic reads are left out: image, reviews, dietary, calories and preparation time.
- `renderStars` is left out, because it rounds a floating-point rating.
- Timers are left out as asynchronous events. The 300 ms page-turn delay and the 5 s carousel interval are the explicit steps `CompleteFlip` and `Tick`. Interleavings, such as a second click before React re-renders, are not modelled.
- Menu3D.MenuBook.constructor: requires at least one category. With none, the source's `% 0` and page lookup are undefined.
- Gallery.GallerySection.NavigateImage: requires a non-empty image list while the lightbox is open. Otherwise the source would compute `% 0`, which is NaN. Changing the filter while the lightbox is open (which the overlay prevents) can leave a selection outside the new list, and the model keeps that selection as the source does.
- Hero.HeroCarousel.ClickIndicator: requires an index of an existing photo, since dots exist only for those.
- The 3D canvases, the animated statistics counter, scroll and animation libraries, and the purely presentational components are left out.
- The table booking and contact forms are left out. They are form-field binding plus the same e-mail call.
