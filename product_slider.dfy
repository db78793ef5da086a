/** The home-page image slider: `goToSlide` wraps an out-of-range index to the other
    end, and the previous, next and dot buttons call it. */
module ProductSlider {

  /** The slider's fixed image list. */
  const Images: seq<string> :=
    ["/Images/iphone.png", "/Images/camera.png", "/Images/headphone.png", "/Images/laptop.png"]

  /** `goToSlide(index)` over a list of `n` images: below 0 goes to the last slide, at or
      past the end goes to the first, anything else is kept. */
  function GoToSlide(index: int, n: nat): (r: int)
    ensures index < 0 ==> r == n - 1
    ensures 0 <= index < n ==> r == index
    ensures index >= n && index >= 0 ==> r == 0
  {
    if index < 0 then n - 1 else if index >= n then 0 else index
  }

  /** The previous-slide button. */
  function Prev(current: int, n: nat): int {
    GoToSlide(current - 1, n)
  }

  /** The next-slide button. */
  function Next(current: int, n: nat): int {
    GoToSlide(current + 1, n)
  }

  /** With at least one image, every index the slider can land on shows an image. */
  lemma GoToSlideInRange(index: int, n: nat)
    requires n > 0
    ensures 0 <= GoToSlide(index, n) < n
  {
  }

  /** From any slide, next undoes previous and previous undoes next. */
  lemma PrevNextInverse(current: int, n: nat)
    requires 0 <= current < n
    ensures Next(Prev(current, n), n) == current
    ensures Prev(Next(current, n), n) == current
  {
  }

  /** The dot at position `index` selects exactly that slide. */
  lemma DotSelectsItsSlide(index: nat)
    requires index < |Images|
    ensures GoToSlide(index, |Images|) == index
  {
  }

  /** The slide after `k` presses of next, starting from the first. */
  function NextTimes(k: nat, n: nat): int {
    if k == 0 then 0 else Next(NextTimes(k - 1, n), n)
  }

  /** Pressing next `k` times from the first slide cycles through the images: the slide
      shown is `k mod n`. */
  lemma NextTimesIsModulo(k: nat, n: nat)
    requires n > 0
    ensures NextTimes(k, n) == k % n
  {
    var laps := NextTimesLaps(k, n);
    ModUnique(k, n, laps, NextTimes(k, n));
  }

  /** After `k` presses the slider has gone round some number of full laps and stands on
      a slide: `k == laps * n + NextTimes(k, n)`. */
  lemma {:induction false} NextTimesLaps(k: nat, n: nat) returns (laps: int)
    requires n > 0
    ensures 0 <= NextTimes(k, n) < n && k == laps * n + NextTimes(k, n)
  {
    if k == 0 {
      laps := 0;
    } else {
      var before := NextTimesLaps(k - 1, n);
      var r := NextTimes(k - 1, n);
      if r + 1 < n {
        laps := before;
      } else {
        laps := before + 1;
        assert laps * n == before * n + n;
      }
    }
  }

  /** The remainder is the only value in `[0, n)` that differs from `m` by a multiple of `n`. */
  lemma ModUnique(m: int, n: int, q: int, r: int)
    requires n > 0 && 0 <= r < n && m == q * n + r
    ensures m % n == r
  {
    var d := q - m / n;
    assert d * n == m % n - r;
    assert -n < d * n < n;
  }

  /** The highlighted dot is the one whose position is the current index, and there is
      exactly one of them. */
  function ActiveDots(current: int): (active: seq<bool>)
    ensures |active| == |Images|
    ensures forall i :: 0 <= i < |Images| ==> (active[i] <==> i == current)
  {
    seq(|Images|, i => i == current)
  }
}
