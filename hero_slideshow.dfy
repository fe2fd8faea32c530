/**
 * The home page's hero slideshow: an index into three slides moved forward by a
 * five-second timer and the right arrow, backward by the left arrow, and set
 * directly by the indicator dots. JavaScript's `%` truncates toward zero while
 * Dafny's is Euclidean; both operands here are never negative, so they agree.
 */
module HeroSlideshow {
  const SlideCount: nat := 3

  /** `(prev + 1) % slides.length`: the timer tick and the right arrow. */
  function Next(i: nat, n: nat): (j: nat)
    requires n > 0
    ensures j < n
  {
    (i + 1) % n
  }

  /** `(prev - 1 + slides.length) % slides.length`: the left arrow. */
  function Prev(i: nat, n: nat): (j: nat)
    requires 0 < n && i < n
    ensures j < n
  {
    (i - 1 + n) % n
  }

  lemma SmallMod(x: nat, n: nat)
    requires x < n
    ensures x % n == x
  {
  }

  lemma WrapMod(x: nat, n: nat)
    requires n <= x < 2 * n
    ensures x % n == x - n
  {
  }

  /** Going back then forward returns to the same slide. */
  lemma NextUndoesPrev(i: nat, n: nat)
    requires i < n
    ensures Next(Prev(i, n), n) == i
  {
    if i == 0 {
      SmallMod(n - 1, n);
      WrapMod(n, n);
    } else {
      WrapMod(i - 1 + n, n);
      SmallMod(i, n);
    }
  }

  /** Going forward then back returns to the same slide. */
  lemma PrevUndoesNext(i: nat, n: nat)
    requires i < n
    ensures Prev(Next(i, n), n) == i
  {
    if i == n - 1 {
      WrapMod(n, n);
      SmallMod(n - 1, n);
    } else {
      SmallMod(i + 1, n);
      WrapMod(i + n, n);
    }
  }

  /** The slide shown after `k` ticks from slide `i`. */
  function Advance(i: nat, k: nat, n: nat): (j: nat)
    requires n > 0
    ensures j < n
  {
    if k == 0 then i % n else Next(Advance(i, k - 1, n), n)
  }

  /** Within one round, `k` ticks move the index `k` places forward. */
  lemma {:induction false} AdvanceWithinRound(i: nat, k: nat, n: nat)
    requires i + k < n
    ensures Advance(i, k, n) == i + k
  {
    if k == 0 {
      SmallMod(i, n);
    } else {
      AdvanceWithinRound(i, k - 1, n);
      SmallMod(i + k, n);
      assert Advance(i, k, n) == Next(i + k - 1, n);
    }
  }

  /** Ticking `a` times and then `b` times is ticking `a + b` times. */
  lemma {:induction false} AdvanceSplits(i: nat, a: nat, b: nat, n: nat)
    requires n > 0
    ensures Advance(i, a + b, n) == Advance(Advance(i, a, n), b, n)
  {
    if b == 0 {
      SmallMod(Advance(i, a, n), n);
    } else {
      AdvanceSplits(i, a, b - 1, n);
      assert Advance(i, a + b, n) == Next(Advance(i, a + b - 1, n), n);
    }
  }

  /** A full round of `n` ticks comes back to the starting slide. */
  lemma FullRoundReturns(i: nat, n: nat)
    requires i < n
    ensures Advance(i, n, n) == i
  {
    AdvanceSplits(i, n - i, i, n);
    AdvanceWithinRound(i, n - i - 1, n);
    WrapMod(n, n);
    assert Advance(i, n - i, n) == Next(n - 1, n) == 0;
    AdvanceWithinRound(0, i, n);
  }

  /** The CSS opacity of slide `index`: `opacity-100` for the current one, `opacity-0` otherwise. */
  function Opacity(index: nat, current: nat): nat {
    if index == current then 100 else 0
  }

  /** The slides drawn fully opaque; the same index test decides which slide renders its text. */
  function OpaqueSlides(current: nat, n: nat): set<nat> {
    set index | 0 <= index < n && Opacity(index, current) == 100
  }

  /** Exactly one slide is fully opaque: the current one. */
  lemma ExactlyOneOpaque(current: nat, n: nat)
    requires current < n
    ensures OpaqueSlides(current, n) == {current}
    ensures |OpaqueSlides(current, n)| == 1
  {
  }

  /** The `currentSlide` state of the component. */
  class Slideshow {
    var current: nat

    ghost predicate Valid()
      reads this
    {
      current < SlideCount
    }

    constructor ()
      ensures Valid() && current == 0
    {
      current := 0;
    }

    /** The interval callback, every five seconds. */
    method Tick()
      requires Valid()
      modifies this
      ensures Valid() && current == Next(old(current), SlideCount)
    {
      current := (current + 1) % SlideCount;
    }

    method NextSlide()
      requires Valid()
      modifies this
      ensures Valid() && current == Next(old(current), SlideCount)
    {
      current := (current + 1) % SlideCount;
    }

    method PrevSlide()
      requires Valid()
      modifies this
      ensures Valid() && current == Prev(old(current), SlideCount)
    {
      current := (current - 1 + SlideCount) % SlideCount;
    }

    /** An indicator dot: there is one per slide, so `index` is below the slide count. */
    method SelectSlide(index: nat)
      requires Valid() && index < SlideCount
      modifies this
      ensures Valid() && current == index
    {
      current := index;
    }
  }
}
