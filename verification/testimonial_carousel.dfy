/**
 * The testimonial carousel: the index of the testimonial shown and whether
 * autoplay is on. Arrows and dots move the index and stop autoplay; the
 * autoplay interval (which exists only while autoplay is on) advances the
 * index; hovering an arrow pauses autoplay and leaving it resumes it. The
 * interval firing is the method `Tick`.
 */
module TestimonialCarousel {

  /** The number of testimonials in the fixed list. */
  const Count := 5

  /** `(prev + 1) % testimonials.length`. */
  function Next(i: nat): (r: nat)
    requires i < Count
    ensures r < Count
    ensures r == if i == Count - 1 then 0 else i + 1
  {
    (i + 1) % Count
  }

  /** `prev === 0 ? testimonials.length - 1 : prev - 1`. */
  function Prev(i: nat): (r: nat)
    requires i < Count
    ensures r < Count
    ensures (r + 1) % Count == i
  {
    if i == 0 then Count - 1 else i - 1
  }

  /** Going back undoes going forward. */
  lemma PrevUndoesNext(i: nat)
    requires i < Count
    ensures Prev(Next(i)) == i
  {
  }

  /** Going forward undoes going back. */
  lemma NextUndoesPrev(i: nat)
    requires i < Count
    ensures Next(Prev(i)) == i
  {
  }

  /** `k` steps forward from `i`. */
  function Advance(i: nat, k: nat): (r: nat)
    requires i < Count
    ensures r < Count
  {
    if k == 0 then i else Next(Advance(i, k - 1))
  }

  /** `k` autoplay steps land on `(i + k) mod n`; after `n` steps the carousel is back where it started. */
  lemma {:induction false} AdvanceIsModular(i: nat, k: nat)
    requires i < Count
    ensures Advance(i, k) == (i + k) % Count
  {
    if k > 0 {
      AdvanceIsModular(i, k - 1);
      var q, m := (i + k - 1) / Count, (i + k - 1) % Count;
      assert i + k - 1 == q * Count + m;
      if m + 1 < Count {
        ModOf(i + k, q, m + 1);
      } else {
        ModOf(i + k, q + 1, 0);
      }
    }
  }

  /** The remainder is the one the division leaves. */
  lemma ModOf(a: int, q: int, m: int)
    requires a == q * Count + m && 0 <= m < Count
    ensures a % Count == m
  {
  }

  lemma FullCycle(i: nat)
    requires i < Count
    ensures Advance(i, Count) == i
  {
    AdvanceIsModular(i, Count);
  }

  class Carousel {
    var currentIndex: int
    var isAutoPlay: bool

    /** The index always names a testimonial. */
    predicate Valid()
      reads this
    {
      0 <= currentIndex < Count
    }

    constructor()
      ensures Valid()
      ensures currentIndex == 0 && isAutoPlay
    {
      currentIndex := 0;
      isAutoPlay := true;
    }

    /** The counter "i de n": the position shown, between 1 and the number of testimonials. */
    function Position(): (r: int)
      requires Valid()
      reads this
      ensures 1 <= r <= Count
      ensures r - 1 == currentIndex
    {
      currentIndex + 1
    }

    /** The dot (and thumbnail) at `index` is highlighted. */
    predicate Highlighted(index: int)
      reads this
    {
      index == currentIndex
    }

    /** Exactly one of the dots is highlighted. */
    lemma OneDotHighlighted()
      requires Valid()
      ensures exists index :: 0 <= index < Count && Highlighted(index)
      ensures forall a, b :: Highlighted(a) && Highlighted(b) ==> a == b
    {
      assert Highlighted(currentIndex);
    }

    /** `goToNext`: one step forward, autoplay off. */
    method GoToNext()
      requires Valid()
      modifies this
      ensures Valid()
      ensures currentIndex == Next(old(currentIndex)) && !isAutoPlay
    {
      currentIndex := Next(currentIndex);
      isAutoPlay := false;
    }

    /** `goToPrevious`: one step back, autoplay off. */
    method GoToPrevious()
      requires Valid()
      modifies this
      ensures Valid()
      ensures currentIndex == Prev(old(currentIndex)) && !isAutoPlay
    {
      currentIndex := Prev(currentIndex);
      isAutoPlay := false;
    }

    /** `goToSlide(index)`, called by the dots and thumbnails with their own position: jump there, autoplay off. */
    method GoToSlide(index: int)
      requires Valid()
      requires 0 <= index < Count
      modifies this
      ensures Valid()
      ensures currentIndex == index && !isAutoPlay
    {
      currentIndex := index;
      isAutoPlay := false;
    }

    /** The autoplay interval fires: one step forward while autoplay is on, nothing otherwise. */
    method Tick()
      requires Valid()
      modifies this
      ensures Valid()
      ensures isAutoPlay == old(isAutoPlay)
      ensures currentIndex == if old(isAutoPlay) then Next(old(currentIndex)) else old(currentIndex)
    {
      if isAutoPlay {
        currentIndex := Next(currentIndex);
      }
    }

    /** The pointer enters an arrow: autoplay pauses. */
    method MouseEnter()
      requires Valid()
      modifies this
      ensures Valid()
      ensures currentIndex == old(currentIndex) && !isAutoPlay
    {
      isAutoPlay := false;
    }

    /** The pointer leaves an arrow: autoplay resumes. */
    method MouseLeave()
      requires Valid()
      modifies this
      ensures Valid()
      ensures currentIndex == old(currentIndex) && isAutoPlay
    {
      isAutoPlay := true;
    }
  }
}
