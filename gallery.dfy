/** The photo gallery (components/Gallery.tsx): a grid of images filtered by
    category, and a lightbox that shows one image of the filtered list and
    steps through it with wrap-around. */
module Gallery {
  import opened Optional
  import Cyclic
  import opened ArrayFilter

  datatype Image = Image(id: int, src: string, category: string)

  /** The gallery's images, in display order. */
  const GalleryImages: seq<Image> := [
    Image(1, "/images/about/about-1.jpg", "interior"),
    Image(2, "/images/about/about-2.jpg", "interior"),
    Image(3, "/images/gallery/unnamed(1).jpg", "food"),
    Image(4, "/images/gallery/unnamed(2).jpg", "interior"),
    Image(5, "/images/gallery/unnamed(10).jpg", "food"),
    Image(6, "/images/gallery/unnamed(11).jpg", "interior"),
    Image(7, "/images/gallery/unnamed(12).jpg", "food"),
    Image(8, "/images/gallery/unnamed(13).jpg", "interior"),
    Image(9, "/images/gallery/unnamed(14).jpg", "food"),
    Image(10, "/images/gallery/unnamed(15).jpg", "interior"),
    Image(11, "/images/gallery/unnamed(16).jpg", "food"),
    Image(12, "/images/gallery/unnamed(17).jpg", "interior"),
    Image(13, "/images/gallery/unnamed(18).jpg", "food"),
    Image(14, "/images/gallery/unnamed(19).jpg", "interior"),
    Image(15, "/images/gallery/unnamed(20).jpg", "food"),
    Image(16, "/images/gallery/unnamed(21).jpg", "interior"),
    Image(17, "/images/gallery/unnamed(22).jpg", "food"),
    Image(18, "/images/gallery/unnamed(23).jpg", "interior")
  ]

  /** The filter value that shows every image. */
  const AllImages := "all"

  /** The test a category button filters by. */
  function CategoryIs(category: string): Image -> bool {
    (img: Image) => img.category == category
  }

  /** `images.filter(img => img.category === category)`: the images of `s`
      whose category is `category`, in their order in `s`. */
  function InCategory(s: seq<Image>, category: string): (r: seq<Image>)
    ensures |r| <= |s|
  {
    Select(s, CategoryIs(category))
  }

  /** A category's filter keeps exactly the images of that category, in the
      order they have in `s`. */
  lemma InCategoryMembers(s: seq<Image>, category: string)
    ensures forall x :: x in InCategory(s, category) <==> x in s && x.category == category
    ensures IsSubsequence(InCategory(s, category), s)
  {
    SelectIsSubsequence(s, CategoryIs(category));
  }

  /** The images shown under a filter: all of them for "all", otherwise those
      of that category. */
  function FilteredImages(images: seq<Image>, filter: string): (r: seq<Image>)
    ensures |r| <= |images|
    ensures filter == AllImages ==> r == images
    ensures forall x :: x in r <==> x in images && (filter == AllImages || x.category == filter)
  {
    if filter == AllImages then images
    else
      InCategoryMembers(images, filter);
      InCategory(images, filter)
  }

  /** When every image belongs to one of two distinct categories, the two
      filtered lists together hold every image exactly once. */
  lemma {:induction false} TwoCategoriesPartition(s: seq<Image>, a: string, b: string)
    requires a != b
    requires forall i | 0 <= i < |s| :: s[i].category == a || s[i].category == b
    ensures |InCategory(s, a)| + |InCategory(s, b)| == |s|
  {
    if s != [] {
      TwoCategoriesPartition(s[1..], a, b);
      if s[0].category == a {
        assert InCategory(s, a) == [s[0]] + InCategory(s[1..], a);
        assert InCategory(s, b) == InCategory(s[1..], b);
      } else {
        assert InCategory(s, b) == [s[0]] + InCategory(s[1..], b);
        assert InCategory(s, a) == InCategory(s[1..], a);
      }
    }
  }

  /** The three filter buttons: "all" shows the 18 images; "food" and
      "interior" split them between them, every image under exactly one. */
  lemma FilterButtons()
    ensures |FilteredImages(GalleryImages, AllImages)| == 18
    ensures |FilteredImages(GalleryImages, "food")| + |FilteredImages(GalleryImages, "interior")| == 18
  {
    assert |InCategory(GalleryImages, "food")| + |InCategory(GalleryImages, "interior")| == 18 by {
      EveryImageFoodOrInterior();
      assert "food"[0] != "interior"[0];
      TwoCategoriesPartition(GalleryImages, "food", "interior");
    }
    CategoryFilters();
  }

  /** The "food" and "interior" buttons select by category. */
  lemma CategoryFilters()
    ensures FilteredImages(GalleryImages, AllImages) == GalleryImages && |GalleryImages| == 18
    ensures FilteredImages(GalleryImages, "food") == InCategory(GalleryImages, "food")
    ensures FilteredImages(GalleryImages, "interior") == InCategory(GalleryImages, "interior")
  {
    assert "food"[0] != "interior"[0];
    assert "food"[0] != AllImages[0];
    assert "interior"[0] != AllImages[0];
  }

  /** Every gallery image is either a food or an interior photo. */
  lemma EveryImageFoodOrInterior()
    ensures forall i | 0 <= i < |GalleryImages| ::
              GalleryImages[i].category == "food" || GalleryImages[i].category == "interior"
  {
    forall i | 0 <= i < |GalleryImages|
      ensures GalleryImages[i].category == "food" || GalleryImages[i].category == "interior"
    {
    }
  }

  /** `findIndex((_, idx) => idx === selected)` over a list of `n` images:
      the selection itself when it is a position of the list, -1 otherwise. */
  function CurrentIndex(selected: int, n: int): (r: int)
    ensures r == selected || r == -1
    ensures r >= 0 <==> 0 <= selected < n
  {
    if 0 <= selected < n then selected else -1
  }

  /** The lightbox shows a position of the filtered list. */
  predicate InRange(selected: Option<int>, n: int) {
    selected.Some? ==> 0 <= selected.value < n
  }

  /** The selection after `navigateImage(direction)` over a list of `n`
      images: unchanged when the lightbox is closed, otherwise one step from
      the current index with wrap-around. */
  function Navigated(selected: Option<int>, direction: Cyclic.Direction, n: int): (r: Option<int>)
    requires selected.Some? ==> n > 0
    ensures r.Some? <==> selected.Some?
    ensures InRange(r, n)
  {
    match selected
    case None => None
    case Some(s) =>
      Some(Cyclic.Step(CurrentIndex(s, n), direction, n))
  }

  /** From a position of the list, "next" shows the following image and
      wraps from the last to the first; "previous" shows the preceding one and
      wraps from the first to the last. */
  lemma NavigateSteps(s: int, n: int)
    requires 0 <= s < n
    ensures Navigated(Some(s), Cyclic.Forward, n) == Some(if s == n - 1 then 0 else s + 1)
    ensures Navigated(Some(s), Cyclic.Backward, n) == Some(if s == 0 then n - 1 else s - 1)
  {
    Cyclic.NextStep(s, n);
    Cyclic.PrevStep(s, n);
  }

  /** "Previous" undoes "next" and "next" undoes "previous". */
  lemma NavigateRoundTrip(s: int, n: int)
    requires 0 <= s < n
    ensures Navigated(Navigated(Some(s), Cyclic.Forward, n), Cyclic.Backward, n) == Some(s)
    ensures Navigated(Navigated(Some(s), Cyclic.Backward, n), Cyclic.Forward, n) == Some(s)
  {
    Cyclic.StepRoundTrip(s, Cyclic.Forward, n);
    Cyclic.StepRoundTrip(s, Cyclic.Backward, n);
  }

  /** From a selection outside the list, "next" goes to the first image. */
  lemma NavigateFromOutside(s: int, n: int)
    requires n > 0 && !(0 <= s < n)
    ensures Navigated(Some(s), Cyclic.Forward, n) == Some(0)
  {
    Cyclic.NextStep(-1, n);
  }

  /** The lightbox's "k / n" caption for position `s`: always between 1 and
      `n` for a position of the list. */
  function Caption(s: int, n: int): (r: (int, int))
    ensures 0 <= s < n ==> 1 <= r.0 <= r.1 == n
  {
    (s + 1, n)
  }

  /** The gallery's state: the lightbox selection (a position in the
      filtered list, or none) and the active filter. */
  class GallerySection {
    const images: seq<Image>
    var selectedImage: Option<int>
    var filter: string

    constructor ()
      ensures images == GalleryImages
      ensures selectedImage == None && filter == AllImages
    {
      images := GalleryImages;
      selectedImage, filter := None, AllImages;
    }

    /** The images currently in the grid. */
    function Shown(): seq<Image>
      reads this
    {
      FilteredImages(images, filter)
    }

    /** A filter button. The selection is left as it is. */
    method SetFilter(f: string)
      modifies this
      ensures filter == f && selectedImage == old(selectedImage)
    {
      filter := f;
    }

    /** Clicking the grid image at `index` opens the lightbox on it. */
    method OpenLightbox(index: int)
      modifies this
      ensures selectedImage == Some(index) && filter == old(filter)
    {
      selectedImage := Some(index);
    }

    /** The close button or a click on the backdrop. */
    method CloseLightbox()
      modifies this
      ensures selectedImage == None && filter == old(filter)
    {
      selectedImage := None;
    }

    /** `navigateImage`: a step with wrap-around over the shown images. An
        empty list with the lightbox open is excluded, since the step would
        take a remainder by zero. */
    method NavigateImage(direction: Cyclic.Direction)
      requires selectedImage.Some? ==> |Shown()| > 0
      modifies this
      ensures filter == old(filter)
      ensures selectedImage == Navigated(old(selectedImage), direction, |Shown()|)
    {
      if selectedImage == None {
        return;
      }
      var n := |FilteredImages(images, filter)|;
      var current := CurrentIndex(selectedImage.value, n);
      if direction == Cyclic.Forward {
        selectedImage := Some(Cyclic.Next(current, n));
      } else {
        selectedImage := Some(Cyclic.Prev(current, n));
      }
    }
  }
}
