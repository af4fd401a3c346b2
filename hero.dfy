/** The hero banner (components/Hero.tsx): two background photos that
    cross-fade on a 5-second interval, indicator dots that jump to a photo,
    and a loading flag set once the photos have been fetched. The interval
    and the fetch are modelled as the steps `Tick` and `PreloadFinished`. */
module Hero {
  import Cyclic

  /** The background photos, in rotation order. */
  const BackgroundImages: seq<string> := ["/images/hero/home.jpg", "/images/hero/home-1.jpg"]

  class HeroCarousel {
    const images: seq<string>
    var currentImage: int
    var isLoaded: bool
    var imagesPreloaded: bool

    /** The photo on display is one of the photos. */
    predicate Valid()
      reads this
    {
      |images| > 0 && 0 <= currentImage < |images|
    }

    constructor ()
      ensures Valid()
      ensures images == BackgroundImages
      ensures currentImage == 0 && !isLoaded && !imagesPreloaded
    {
      images := BackgroundImages;
      currentImage := 0;
      isLoaded := false;
      imagesPreloaded := false;
    }

    /** For each photo layer, whether it is drawn fully opaque: exactly the
        current photo's layer is. */
    function OpaqueLayers(): (r: seq<bool>)
      reads this
      ensures |r| == |images|
      ensures Valid() ==> r[currentImage]
      ensures forall i | 0 <= i < |r| && i != currentImage :: !r[i]
    {
      var current := currentImage;
      seq(|images|, i => current == i)
    }

    /** The interval fires: the next photo, wrapping from the last to the
        first. */
    method Tick()
      requires Valid()
      modifies this
      ensures Valid()
      ensures currentImage == Cyclic.Next(old(currentImage), |images|)
      ensures currentImage == if old(currentImage) == |images| - 1 then 0 else old(currentImage) + 1
      ensures isLoaded == old(isLoaded) && imagesPreloaded == old(imagesPreloaded)
    {
      Cyclic.NextStep(currentImage, |images|);
      currentImage := Cyclic.Next(currentImage, |images|);
    }

    /** An indicator dot: jumps to its photo. */
    method ClickIndicator(index: int)
      requires Valid() && 0 <= index < |images|
      modifies this
      ensures Valid()
      ensures currentImage == index
      ensures isLoaded == old(isLoaded) && imagesPreloaded == old(imagesPreloaded)
    {
      currentImage := index;
    }

    /** The preload settles: the banner is shown either way, and the photos
        count as preloaded only when every one of them loaded. */
    method PreloadFinished(allLoaded: bool)
      requires Valid()
      modifies this
      ensures Valid()
      ensures isLoaded
      ensures imagesPreloaded == (allLoaded || old(imagesPreloaded))
      ensures currentImage == old(currentImage)
    {
      if allLoaded {
        imagesPreloaded := true;
      }
      isLoaded := true;
    }
  }

  /** With the two photos, each tick shows the other one, and two ticks come
      back to where they started. */
  lemma TwoPhotosAlternate(i: int)
    requires 0 <= i < |BackgroundImages|
    ensures Cyclic.Next(i, |BackgroundImages|) == 1 - i
    ensures Cyclic.Advance(i, 2, |BackgroundImages|) == i
  {
    Cyclic.NextStep(i, 2);
    Cyclic.FullTurn(i, 2);
  }
}
