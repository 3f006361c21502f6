/** The background slideshow of src/components/Slideshow.tsx: an index
    into the active images, moved by the arrows, the dots and a timer that
    pauses while the mouse is over the slideshow. */
module SlideshowModel {
  import opened JsValues

  datatype Image = Image(id: string, url: string, title: string)

  datatype Step = Next | Previous

  /** `transition(direction)`: nothing with at most one image. */
  function Transitioned(i: int, n: nat, step: Step): int {
    if n <= 1 then i
    else match step
      case Next => JsRem(i + 1, n)
      case Previous => JsRem(i - 1 + n, n)
  }

  /** With two images or more a transition lands on an image from any
      non-negative index, and next and previous undo each other; with at
      most one image nothing moves. */
  lemma TransitionProperties(i: int, n: nat, step: Step)
    ensures n <= 1 ==> Transitioned(i, n, step) == i
    ensures n > 1 && i >= 0 ==> 0 <= Transitioned(i, n, step) < n
    ensures n > 1 && 0 <= i < n ==>
      Transitioned(Transitioned(i, n, Next), n, Previous) == i
      && Transitioned(Transitioned(i, n, Previous), n, Next) == i
  {
    if n > 1 && 0 <= i < n {
      if i < n - 1 {
        JsRemWraps(i + n, n);
        assert Transitioned(i, n, Next) == i + 1;
      } else {
        JsRemWraps(n, n);
        JsRemWraps(n - 1 + n, n);
      }
      if i == 0 {
        JsRemWraps(n - 1 + n, n);
        assert Transitioned(i, n, Previous) == n - 1;
        JsRemWraps(n, n);
      } else {
        JsRemWraps(i - 1 + n, n);
        assert Transitioned(i, n, Previous) == i - 1;
      }
    }
  }

  /** The image preloaded after showing `i`. */
  function PreloadIndex(i: int, n: nat): Option<int> {
    if n > 1 then Some(JsRem(i + 1, n)) else None
  }

  lemma PreloadIsNext(i: int, n: nat)
    requires 0 <= i < n
    ensures PreloadIndex(i, n).Some? <==> n > 1
    ensures n > 1 ==> PreloadIndex(i, n) == Some(Transitioned(i, n, Next))
  {
  }

  class Slideshow {
    const interval: int
    var activeImages: seq<Image>
    var currentIndex: int
    var isPaused: bool

    ghost predicate Valid()
      reads this
    {
      currentIndex >= 0
    }

    /** The first render with its images effect applied; `interval`
        defaults to 6000 ms. */
    constructor (images: seq<Image>, interval: Option<int>)
      ensures activeImages == images && currentIndex == 0 && !isPaused && Valid()
      ensures this.interval == (if interval.Some? then interval.value else 6000)
    {
      this.interval := if interval.Some? then interval.value else 6000;
      activeImages := images;
      currentIndex := 0;
      isPaused := false;
    }

    /** A new `images` prop replaces the active images; the index is kept. */
    method SetImages(images: seq<Image>)
      modifies this`activeImages
      ensures activeImages == images
    {
      activeImages := images;
    }

    /** The arrows. */
    method Transition(step: Step)
      requires Valid()
      modifies this`currentIndex
      ensures Valid()
      ensures currentIndex == Transitioned(old(currentIndex), |activeImages|, step)
      ensures |activeImages| > 1 ==> currentIndex < |activeImages|
    {
      TransitionProperties(currentIndex, |activeImages|, step);
      currentIndex := Transitioned(currentIndex, |activeImages|, step);
    }

    /** The interval callback: it runs only with several images and no pause. */
    method Tick()
      requires Valid()
      modifies this`currentIndex
      ensures Valid()
      ensures currentIndex == if |activeImages| > 1 && !isPaused
        then Transitioned(old(currentIndex), |activeImages|, Next) else old(currentIndex)
    {
      if |activeImages| > 1 && !isPaused {
        Transition(Next);
      }
    }

    /** A click on dot `index`. */
    method ClickDot(index: nat)
      requires index < |activeImages|
      modifies this`currentIndex
      ensures currentIndex == index && Valid()
    {
      currentIndex := index;
    }

    method MouseEnter()
      modifies this`isPaused
      ensures isPaused
    {
      isPaused := true;
    }

    method MouseLeave()
      modifies this`isPaused
      ensures !isPaused
    {
      isPaused := false;
    }

    /** The image drawn opaque, if any; nothing renders without images. */
    function Shown(): Option<Image>
      reads this
    {
      if 0 <= currentIndex < |activeImages| then Some(activeImages[currentIndex]) else None
    }
  }
}
