/** The slideshow viewer (src/components/LayoutContent.tsx): a slide deck
    loaded once from the database and a cyclic index into it, moved by the
    arrow buttons and the arrow keys. */
module Slideshow {
  import opened Wrappers
  import opened JsNumber

  datatype Slide = Slide(imageUrl: string)

  /** The stored slideshow document: its title and its slide list (which may
      be missing). */
  datatype SlideshowDoc = SlideshowDoc(title: string, slides: Option<seq<Slide>>)

  /** `(i + 1) % n` when there are slides; no change otherwise. */
  function NextIndex(i: int, n: nat): (r: int)
    ensures n == 0 ==> r == i
    ensures n > 0 && i >= 0 ==> 0 <= r < n
    ensures n > 0 && 0 <= i < n ==> r == if i == n - 1 then 0 else i + 1
  {
    if n > 0 then JsRem(i + 1, n) else i
  }

  /** `(i - 1 + n) % n` when there are slides; no change otherwise. */
  function PrevIndex(i: int, n: nat): (r: int)
    ensures n == 0 ==> r == i
    ensures n > 0 && i >= 0 ==> 0 <= r < n
    ensures n > 0 && 0 <= i < n ==> r == if i == 0 then n - 1 else i - 1
  {
    if n > 0 then JsRem(i - 1 + n, n) else i
  }

  /** Next then previous, and previous then next, return to the slide one
      started from. */
  lemma NextPrevInverse(i: int, n: nat)
    requires 0 <= i < n
    ensures PrevIndex(NextIndex(i, n), n) == i
    ensures NextIndex(PrevIndex(i, n), n) == i
  {
  }

  /** What the page shows. */
  datatype Screen =
    | Spinner
    | TitleOnly(title: string)
    | SlideView(imageUrl: string, position: int, total: int)

  class SlideshowPage {
    var slides: seq<Slide>
    var current: int
    var loading: bool
    var title: string

    /** `slides[currentSlide]` exists whenever there are slides. */
    ghost predicate Valid()
      reads this
    {
      0 <= current && (|slides| > 0 ==> current < |slides|)
    }

    /** The page as first rendered, before the document arrives. */
    constructor ()
      ensures Valid()
      ensures slides == [] && current == 0 && loading && title == ""
    {
      slides := [];
      current := 0;
      loading := true;
      title := "";
    }

    /** The end of the fetch effect: the found document's title and slides
        (`data.slides || []`) are stored, and loading stops either way. The
        index is not reset. */
    method FinishLoading(fetched: Option<SlideshowDoc>)
      requires Valid()
      modifies this
      ensures !loading && current == old(current)
      ensures fetched.Some? ==> title == fetched.value.title && slides == fetched.value.slides.GetOr([])
      ensures fetched.None? ==> title == old(title) && slides == old(slides)
      ensures Valid() <==> (slides == [] || old(current) < |slides|)
    {
      if fetched.Some? {
        title := fetched.value.title;
        slides := fetched.value.slides.GetOr([]);
      }
      loading := false;
    }

    /** `handleNext` */
    method Next()
      requires Valid()
      modifies this`current
      ensures Valid()
      ensures current == NextIndex(old(current), |slides|)
    {
      if |slides| > 0 {
        current := JsRem(current + 1, |slides|);
      }
    }

    /** `handlePrev` */
    method Prev()
      requires Valid()
      modifies this`current
      ensures Valid()
      ensures current == PrevIndex(old(current), |slides|)
    {
      if |slides| > 0 {
        current := JsRem(current - 1 + |slides|, |slides|);
      }
    }

    /** `handleKeyDown`: ArrowRight goes forward, ArrowLeft back, any other
        key is ignored. */
    method KeyDown(key: string)
      requires Valid()
      modifies this`current
      ensures Valid()
      ensures key == "ArrowRight" ==> current == NextIndex(old(current), |slides|)
      ensures key == "ArrowLeft" ==> current == PrevIndex(old(current), |slides|)
      ensures key != "ArrowRight" && key != "ArrowLeft" ==> current == old(current)
    {
      if key == "ArrowRight" {
        Next();
      } else if key == "ArrowLeft" {
        Prev();
      }
    }

    /** The rendered page: a spinner while loading, the title alone for an
        empty deck, otherwise the current slide's image with the counter
        `currentSlide + 1 / slides.length`. */
    function View(): (v: Screen)
      requires Valid()
      reads this
      ensures loading <==> v == Spinner
      ensures !loading && slides == [] ==> v == TitleOnly(title)
      ensures !loading && slides != [] ==> v.SlideView? && v.imageUrl == slides[current].imageUrl
      ensures v.SlideView? ==> v.position == current + 1 && v.total == |slides|
      ensures v.SlideView? ==> 1 <= v.position <= v.total
    {
      if loading then Spinner
      else if slides == [] then TitleOnly(title)
      else SlideView(slides[current].imageUrl, current + 1, |slides|)
    }
  }
}
