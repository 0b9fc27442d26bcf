/**
 * The testimonial carousel's pager (components/sections/SectionTestimonials.tsx):
 * the index of the first visible testimonial moves by a whole page with the
 * arrows, jumps with the dots and follows a horizontal drag of more than 50
 * pixels; the page size is 2 on a wide window and 1 otherwise.
 *
 * The component's state (`currentIndex`, `isDragging`, `itemsPerPage`) and
 * its `dragStartX` ref are the fields of a `Pager`; each handler is a method.
 * Touch and mouse positions are whole pixels.
 */
module TestimonialsPager {

  /** The drag distance that must be exceeded before a drag turns the page. */
  const DragThreshold: int := 50

  /** The window width from which two testimonials are shown side by side. */
  const WideWidth: int := 768

  /** `goToPrevious`: back one page, never below 0. */
  function PreviousIndex(index: int, pageSize: int): (r: int)
    requires pageSize > 0
    ensures r >= 0
    ensures r == 0 || r == index - pageSize
    ensures index <= 0 ==> r == 0
  {
    if index - pageSize > 0 then index - pageSize else 0
  }

  /** `goToNext`: forward one page, never past `n - pageSize`. */
  function NextIndex(index: int, n: int, pageSize: int): (r: int)
    ensures r <= n - pageSize
    ensures r == n - pageSize || r == index + pageSize
  {
    if n - pageSize < index + pageSize then n - pageSize else index + pageSize
  }

  /** The page size for a window width. */
  function PageSizeFor(width: int): (r: int)
    ensures r == 1 || r == 2
    ensures r == 2 <==> width >= WideWidth
  {
    if width >= WideWidth then 2 else 1
  }

  /** `Math.ceil(n / pageSize)` for a positive page size. */
  function CeilDiv(n: nat, pageSize: int): (r: nat)
    requires pageSize > 0
    ensures (r - 1) * pageSize < n <= r * pageSize || (n == 0 && r == 0)
  {
    (n + pageSize - 1) / pageSize
  }

  class Pager {
    /** `items.length`, fixed for the component's lifetime. */
    const n: nat
    /** `currentIndex`: the first testimonial shown. */
    var index: int
    /** `isDragging`. */
    var dragging: bool
    /** `dragStartX.current`. */
    var dragStart: int
    /** `itemsPerPage`. */
    var pageSize: int

    predicate Valid()
      reads this
    {
      pageSize == 1 || pageSize == 2
    }

    /** The first render: index 0, not dragging, one testimonial per page. */
    constructor(n: nat)
      ensures Valid()
      ensures this.n == n && index == 0 && !dragging && dragStart == 0 && pageSize == 1
    {
      this.n := n;
      index := 0;
      dragging := false;
      dragStart := 0;
      pageSize := 1;
    }

    /** `totalPages`. */
    function TotalPages(): nat
      reads this
      requires Valid()
    {
      CeilDiv(n, pageSize)
    }

    /** The pagination dots are shown only when there is more than one page. */
    predicate DotsShown()
      reads this
      requires Valid()
    {
      TotalPages() > 1
    }

    /** `Math.floor(currentIndex / itemsPerPage)`: the highlighted dot. */
    function ActiveDot(): int
      reads this
      requires Valid()
    {
      index / pageSize
    }

    /** The previous arrow is disabled exactly at index 0. */
    predicate PreviousDisabled()
      reads this
    {
      index == 0
    }

    /** The next arrow is disabled once the last full page is reached. */
    predicate NextDisabled()
      reads this
    {
      index >= n - pageSize
    }

    /** `updateItemsPerPage` on a resize: only the page size changes, the index is not re-clamped. */
    method Resize(width: int)
      requires Valid()
      modifies this
      ensures Valid()
      ensures pageSize == PageSizeFor(width)
      ensures index == old(index) && dragging == old(dragging) && dragStart == old(dragStart)
    {
      pageSize := PageSizeFor(width);
    }

    method GoToPrevious()
      requires Valid()
      modifies this
      ensures Valid()
      ensures index == PreviousIndex(old(index), pageSize)
      ensures pageSize == old(pageSize) && dragging == old(dragging) && dragStart == old(dragStart)
    {
      index := if index - pageSize > 0 then index - pageSize else 0;
    }

    method GoToNext()
      requires Valid()
      modifies this
      ensures Valid()
      ensures index == NextIndex(old(index), n, pageSize)
      ensures pageSize == old(pageSize) && dragging == old(dragging) && dragStart == old(dragStart)
    {
      var last := n - pageSize;
      index := if last < index + pageSize then last else index + pageSize;
    }

    /** A dot click: the first testimonial of that page. */
    method GoToPage(page: int)
      requires Valid()
      modifies this
      ensures Valid()
      ensures index == page * pageSize
      ensures pageSize == old(pageSize) && dragging == old(dragging) && dragStart == old(dragStart)
    {
      index := page * pageSize;
    }

    /** `handleDragStart`: remember where the touch or click started. */
    method DragStart(x: int)
      requires Valid()
      modifies this
      ensures Valid()
      ensures dragging && dragStart == x
      ensures index == old(index) && pageSize == old(pageSize)
    {
      dragging := true;
      dragStart := x;
    }

    /**
     * `handleDragEnd`: without a drag in progress nothing happens; otherwise
     * a drag of more than 50 pixels to the left turns to the next page, one
     * to the right to the previous page, and the drag ends.
     */
    method DragEnd(x: int)
      requires Valid()
      modifies this
      ensures Valid()
      ensures !old(dragging) ==> index == old(index) && dragging == old(dragging)
      ensures old(dragging) ==> !dragging
      ensures old(dragging) && old(dragStart) - x > DragThreshold ==> index == NextIndex(old(index), n, pageSize)
      ensures old(dragging) && x - old(dragStart) > DragThreshold ==> index == PreviousIndex(old(index), pageSize)
      ensures -DragThreshold <= old(dragStart) - x <= DragThreshold ==> index == old(index)
      ensures pageSize == old(pageSize) && dragStart == old(dragStart)
    {
      if !dragging {
        return;
      }
      var delta := dragStart - x;
      var magnitude := if delta < 0 then -delta else delta;
      if magnitude > DragThreshold {
        if delta > 0 {
          GoToNext();
        } else {
          GoToPrevious();
        }
      }
      dragging := false;
    }
  }

  // ---------------------------------------------------------------------------
  // Properties of the index arithmetic
  // ---------------------------------------------------------------------------

  /** The first visible testimonial exists and a whole page fits after it. */
  predicate InRange(index: int, n: int, pageSize: int) {
    0 <= index <= n - pageSize
  }

  /** Previous and next keep the index in range whenever at least a page of items exists. */
  lemma StepsStayInRange(index: int, n: int, pageSize: int)
    requires pageSize > 0 && InRange(index, n, pageSize)
    ensures InRange(PreviousIndex(index, pageSize), n, pageSize)
    ensures InRange(NextIndex(index, n, pageSize), n, pageSize)
  {
  }

  /** With fewer items than a page, next sends the index below zero. */
  lemma NextWithShortList(index: int, n: nat, pageSize: int)
    requires 0 <= n < pageSize && index >= 0
    ensures NextIndex(index, n, pageSize) < 0
  {
  }

  /** The arrows are disabled exactly when pressing them would not move the index. */
  lemma ArrowsDisabledAtEnds(index: int, n: int, pageSize: int)
    requires pageSize > 0 && InRange(index, n, pageSize)
    ensures PreviousIndex(index, pageSize) == index <==> index == 0
    ensures NextIndex(index, n, pageSize) == index <==> index >= n - pageSize
  {
  }

  /**
   * Clicking a dot lands on an existing testimonial and highlights that dot,
   * but the last dot can leave less than a full page on screen.
   */
  lemma DotLandsOnItem(page: int, n: nat, pageSize: int)
    requires pageSize == 1 || pageSize == 2
    requires 0 <= page < CeilDiv(n, pageSize)
    ensures 0 <= page * pageSize < n
    ensures (page * pageSize) / pageSize == page
  {
  }

  /** There is more than one page, and so a row of dots, exactly when the items overflow one page. */
  lemma DotsShownIffOverflow(n: nat, pageSize: int)
    requires pageSize == 1 || pageSize == 2
    ensures CeilDiv(n, pageSize) > 1 <==> n > pageSize
  {
  }

  /** Five items two per page: the last dot starts at item 4, past the last full page. */
  lemma LastDotPastLastPage()
    ensures CeilDiv(5, 2) == 3 && !InRange(2 * 2, 5, 2)
  {
  }

  /** Five items two per page: next from 0 gives 2, then 3, then stays at 3. */
  method NextWalk() returns (seen: seq<int>)
    ensures seen == [2, 3, 3]
  {
    var p := new Pager(5);
    p.Resize(1024);
    p.GoToNext();
    var a := p.index;
    p.GoToNext();
    var b := p.index;
    p.GoToNext();
    seen := [a, b, p.index];
  }

  /** A resize does not re-clamp: four items at index 3 stay at 3 when the page grows to 2. */
  method ResizeKeepsIndex() returns (index: int, nextDisabled: bool)
    ensures index == 3 && nextDisabled
    ensures !InRange(index, 4, 2)
  {
    var p := new Pager(4);
    p.GoToNext();
    p.GoToNext();
    p.GoToNext();
    p.Resize(1024);
    index := p.index;
    nextDisabled := p.NextDisabled();
  }
}
