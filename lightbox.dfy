/** The full-screen image viewer components/Lightbox.tsx. The index of the
    image shown is state: the parent keeps it and the viewer changes it
    through `onIndexChange`, which the parent answers by storing the new
    index. The viewer moves one image at a time, never past either end, and
    asks to be closed on Escape, on the close button and on the backdrop. */
module Lightbox {

  /** The keys the `keydown` handler tells apart; every other key is ignored. */
  datatype Key = Escape | ArrowLeft | ArrowRight | OtherKey

  /** The index after one key press, in a gallery of `count` images. */
  function KeyStep(index: int, count: int, key: Key): (r: int)
    ensures key == ArrowLeft ==> (r == index - 1 <==> index > 0) && (r == index <==> index <= 0)
    ensures key == ArrowRight ==> (r == index + 1 <==> index < count - 1) && (r == index <==> index >= count - 1)
    ensures key == Escape || key == OtherKey ==> r == index
  {
    match key
    case ArrowLeft => if index > 0 then index - 1 else index
    case ArrowRight => if index < count - 1 then index + 1 else index
    case _ => index
  }

  /** The index after a sequence of key presses. */
  function Run(index: int, count: int, keys: seq<Key>): int
    decreases |keys|
  {
    if keys == [] then index else Run(KeyStep(index, count, keys[0]), count, keys[1..])
  }

  /** Starting at a valid index, no sequence of key presses or arrow-button
      clicks leaves the range of the gallery. */
  lemma {:induction false} RunStaysInRange(index: int, count: int, keys: seq<Key>)
    requires 0 <= index < count
    ensures 0 <= Run(index, count, keys) < count
    decreases |keys|
  {
    if keys != [] {
      RunStaysInRange(KeyStep(index, count, keys[0]), count, keys[1..]);
    }
  }

  /** Each key press moves the index by at most one, so a run of `n` presses
      ends at most `n` images away. */
  lemma {:induction false} RunDistance(index: int, count: int, keys: seq<Key>)
    ensures index - |keys| <= Run(index, count, keys) <= index + |keys|
    decreases |keys|
  {
    if keys != [] {
      RunDistance(KeyStep(index, count, keys[0]), count, keys[1..]);
    }
  }

  /** Pressing right `n` times from the first image reaches image `n`, or
      stops at the last one. */
  lemma {:induction false} RunRight(index: int, count: int, n: nat)
    requires 0 <= index < count
    ensures Run(index, count, seq(n, _ => ArrowRight)) == if index + n < count then index + n else count - 1
    decreases n
  {
    if n > 0 {
      var keys := seq(n, _ => ArrowRight);
      assert keys[0] == ArrowRight;
      assert keys[1..] == seq(n - 1, _ => ArrowRight);
      RunRight(KeyStep(index, count, ArrowRight), count, n - 1);
    }
  }

  class LightboxState {
    /** `images`. */
    const images: seq<string>
    /** `currentIndex`, kept by the parent and changed through `onIndexChange`. */
    var currentIndex: int
    /** How many times the viewer has called `onClose`. */
    var closeRequests: nat

    /** The index points at an image. */
    predicate Valid()
      reads this
    {
      0 <= currentIndex < |images|
    }

    constructor(images: seq<string>, currentIndex: int)
      ensures this.images == images && this.currentIndex == currentIndex
      ensures closeRequests == 0
    {
      this.images := images;
      this.currentIndex := currentIndex;
      closeRequests := 0;
    }

    /** `handleClose`: the close button, a click on the backdrop, Escape. */
    method HandleClose()
      modifies this
      ensures closeRequests == old(closeRequests) + 1
      ensures currentIndex == old(currentIndex)
    {
      closeRequests := closeRequests + 1;
    }

    /** `goToPrevious`, the left arrow button. */
    method GoToPrevious()
      modifies this
      ensures currentIndex == KeyStep(old(currentIndex), |images|, ArrowLeft)
      ensures closeRequests == old(closeRequests)
      ensures old(Valid()) ==> Valid()
    {
      if currentIndex > 0 {
        currentIndex := currentIndex - 1;
      }
    }

    /** `goToNext`, the right arrow button. */
    method GoToNext()
      modifies this
      ensures currentIndex == KeyStep(old(currentIndex), |images|, ArrowRight)
      ensures closeRequests == old(closeRequests)
      ensures old(Valid()) ==> Valid()
    {
      if currentIndex < |images| - 1 {
        currentIndex := currentIndex + 1;
      }
    }

    /** The `keydown` listener. */
    method HandleKeyDown(key: Key)
      modifies this
      ensures currentIndex == KeyStep(old(currentIndex), |images|, key)
      ensures closeRequests == old(closeRequests) + (if key == Escape then 1 else 0)
      ensures old(Valid()) ==> Valid()
    {
      match key
      case Escape =>
        HandleClose();
      case ArrowLeft =>
        if currentIndex > 0 {
          currentIndex := currentIndex - 1;
        }
      case ArrowRight =>
        if currentIndex < |images| - 1 {
          currentIndex := currentIndex + 1;
        }
      case OtherKey =>
    }

    /** The arrow buttons and the counter are shown only for more than one image. */
    predicate ShowsNavigation()
      reads this
    {
      |images| > 1
    }

    /** The left arrow's `disabled`. */
    predicate PreviousDisabled()
      reads this
    {
      currentIndex == 0
    }

    /** The right arrow's `disabled`. */
    predicate NextDisabled()
      reads this
    {
      currentIndex == |images| - 1
    }

    /** The counter "`currentIndex + 1` / `images.length`". */
    function Counter(): (c: (int, int))
      reads this
      requires Valid()
      ensures 1 <= c.0 <= c.1 && c.1 == |images|
    {
      (currentIndex + 1, |images|)
    }

    /** The image shown. */
    function CurrentImage(): (s: string)
      reads this
      requires Valid()
      ensures s in images
    {
      images[currentIndex]
    }
  }

  /** A disabled arrow is exactly one whose click would change nothing: the
      `disabled` rules agree with the guards of `goToPrevious` and `goToNext`. */
  lemma DisabledMeansNoMove(box: LightboxState)
    requires box.Valid()
    ensures box.PreviousDisabled() <==> KeyStep(box.currentIndex, |box.images|, ArrowLeft) == box.currentIndex
    ensures box.NextDisabled() <==> KeyStep(box.currentIndex, |box.images|, ArrowRight) == box.currentIndex
  {
  }

  /** With a single image both arrows would be disabled, which is why they
      are not shown. */
  lemma SingleImage(box: LightboxState)
    requires box.Valid() && |box.images| == 1
    ensures !box.ShowsNavigation()
    ensures box.PreviousDisabled() && box.NextDisabled()
  {
  }
}
