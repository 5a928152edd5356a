/**
 * The image carousel of the home page: the index of the slide shown, moved
 * one step forward or back with wrap-around, or set directly by a dot click.
 */
module Homepage {

  /** The page shows four carousel images. */
  const SlideCount: nat := 4

  /** The remainder of `a` by `b`, by repeated subtraction. */
  function NatRemainder(a: nat, b: nat): (r: nat)
    requires b > 0
    ensures r < b
  {
    if a < b then a else NatRemainder(a - b, b)
  }

  /**
   * JavaScript's `a % b` for a positive `b`: the remainder of truncating
   * division, whose sign follows `a`.
   */
  function JsRemainder(a: int, b: int): (r: int)
    requires b > 0
    ensures a >= 0 ==> 0 <= r < b
    ensures a < 0 ==> -b < r <= 0
  {
    if a < 0 then -(NatRemainder(-a, b) as int) else NatRemainder(a, b)
  }

  /** `a` is a multiple of `b` plus its remainder. */
  lemma NatRemainderQuotient(a: nat, b: nat) returns (q: nat)
    requires b > 0
    ensures a == q * b + NatRemainder(a, b)
    decreases a
  {
    if a < b {
      q := 0;
    } else {
      var q0 := NatRemainderQuotient(a - b, b);
      q := q0 + 1;
      assert q * b == q0 * b + b;
    }
  }

  /**
   * The remainder of truncating division: `a` is the quotient times `b` plus
   * `JsRemainder(a, b)`, and the quotient is rounded toward zero.
   */
  lemma JsRemainderQuotient(a: int, b: int) returns (q: int)
    requires b > 0
    ensures a == q * b + JsRemainder(a, b)
    ensures a >= 0 ==> q >= 0
    ensures a < 0 ==> q <= 0
  {
    if a < 0 {
      var q0 := NatRemainderQuotient(-a, b);
      q := -(q0 as int);
    } else {
      var q0 := NatRemainderQuotient(a, b);
      q := q0;
    }
  }

  /** `nextSlide`: `(prev + 1) % n`. */
  function NextIndex(i: int, n: int): (r: int)
    requires n > 0
    ensures 0 <= i < n ==> 0 <= r < n
  {
    JsRemainder(i + 1, n)
  }

  /** `prevSlide`: `(prev - 1 + n) % n`. */
  function PrevIndex(i: int, n: int): (r: int)
    requires n > 0
    ensures 0 <= i < n ==> 0 <= r < n
  {
    JsRemainder(i - 1 + n, n)
  }

  /** Forward from the last slide is the first one; otherwise forward is one more. */
  lemma NextIndexSpec(i: int, n: int)
    requires 0 <= i < n
    ensures 0 <= NextIndex(i, n) < n
    ensures NextIndex(i, n) == if i == n - 1 then 0 else i + 1
  {
    if i == n - 1 {
      assert NatRemainder(n, n) == NatRemainder(0, n);
    }
  }

  /** Back from the first slide is the last one; otherwise back is one less. */
  lemma PrevIndexSpec(i: int, n: int)
    requires 0 <= i < n
    ensures 0 <= PrevIndex(i, n) < n
    ensures PrevIndex(i, n) == if i == 0 then n - 1 else i - 1
  {
    if i > 0 {
      assert NatRemainder(i - 1 + n, n) == NatRemainder(i - 1, n);
    }
  }

  /** Back after forward, and forward after back, return to the slide shown. */
  lemma NextPrevRoundTrip(i: int, n: int)
    requires 0 <= i < n
    ensures PrevIndex(NextIndex(i, n), n) == i
    ensures NextIndex(PrevIndex(i, n), n) == i
  {
    NextIndexSpec(i, n);
    PrevIndexSpec(i, n);
    PrevIndexSpec(NextIndex(i, n), n);
    NextIndexSpec(PrevIndex(i, n), n);
  }

  /** The slide state of the page. */
  class Carousel {
    var currentSlide: int

    ghost predicate Valid()
      reads this
    {
      0 <= currentSlide < SlideCount
    }

    constructor ()
      ensures Valid() && currentSlide == 0
    {
      currentSlide := 0;
    }

    /** The right arrow. */
    method NextSlide()
      requires Valid()
      modifies this
      ensures Valid()
      ensures currentSlide == NextIndex(old(currentSlide), SlideCount)
    {
      currentSlide := JsRemainder(currentSlide + 1, SlideCount);
    }

    /** The left arrow. */
    method PrevSlide()
      requires Valid()
      modifies this
      ensures Valid()
      ensures currentSlide == PrevIndex(old(currentSlide), SlideCount)
    {
      currentSlide := JsRemainder(currentSlide - 1 + SlideCount, SlideCount);
    }

    /** A click on dot `index`; the dots are drawn one per image. */
    method GoTo(index: int)
      requires 0 <= index < SlideCount
      modifies this
      ensures Valid() && currentSlide == index
    {
      currentSlide := index;
    }
  }
}
