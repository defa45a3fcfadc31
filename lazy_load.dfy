/**
 * `initLazyLoad` of script.js: every image that has a `data-src` attribute
 * is observed; when it intersects the viewport its `src` takes the
 * attribute's value, the attribute is removed and the image is no longer
 * observed.
 */
module LazyLoad {
  import opened Wrappers
  import opened Dom
  import YouTubePortfolio

  /**
   * `img.src = img.getAttribute('data-src')` followed by
   * `img.removeAttribute('data-src')`. Unlike the portfolio swap there is no
   * test first: an empty `data-src` is copied as it is, and a missing one
   * (`getAttribute` answers `null`) is written as the text `null`.
   */
  function LazySwap(st: ImageState): (r: ImageState)
    ensures r.dataSrc.None?
    ensures st.dataSrc.Some? ==> r.src == st.dataSrc.value
    ensures st.dataSrc.None? ==> r.src == "null"
  {
    ImageState(if st.dataSrc.Some? then st.dataSrc.value else "null", None)
  }

  /** On an image with a non-empty `data-src` both lazy loaders do the same thing. */
  lemma SwapsAgreeOnStagedImages(st: ImageState)
    requires YouTubePortfolio.Staged(st)
    ensures LazySwap(st) == YouTubePortfolio.PortfolioSwap(st)
  {
  }

  /**
   * A second swap would lose the loaded source: this is why the callback
   * stops observing an image once it has swapped it.
   */
  lemma SecondSwapLosesSource(st: ImageState)
    ensures LazySwap(LazySwap(st)).src == "null"
    ensures LazySwap(st).src != "null" ==> LazySwap(LazySwap(st)) != LazySwap(st)
  {
  }

  /** The intersection observer of `initLazyLoad`, reduced to the images it still observes. */
  class ImageObserver {
    var targets: set<Image>

    constructor (targets: set<Image>)
      ensures this.targets == targets
    {
      this.targets := targets;
    }

    /** Every observed image still waits for its source. */
    predicate Valid()
      reads this, targets
    {
      forall img :: img in targets ==> img.dataSrc.Some?
    }

    /**
     * The callback for one entry of an observed image: an intersecting image
     * is swapped and no longer observed, so it is swapped at most once; an
     * image that does not intersect is left as it is.
     */
    method OnEntry(img: Image, isIntersecting: bool)
      requires img in targets
      modifies this, img
      ensures isIntersecting ==> img.State() == LazySwap(old(img.State())) && targets == old(targets) - {img}
      ensures !isIntersecting ==> img.State() == old(img.State()) && targets == old(targets)
      ensures old(Valid()) ==> Valid()
    {
      if isIntersecting {
        img.src := if img.dataSrc.Some? then img.dataSrc.value else "null";
        img.dataSrc := None;
        targets := targets - {img};
      }
    }
  }

  /** `initLazyLoad`: a new observer of exactly the images that carry `data-src`; no image changes yet. */
  method InitLazyLoad(images: seq<Image>) returns (observer: ImageObserver)
    ensures fresh(observer)
    ensures observer.targets == set img | img in images && img.dataSrc.Some?
    ensures observer.Valid()
  {
    observer := new ImageObserver(set img | img in images && img.dataSrc.Some?);
  }
}
