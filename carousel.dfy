/** The review carousel: an index into the N review cards, moved by the previous/next
    buttons, the left/right arrow keys and the indicator dots, and a render step that
    marks one card visible and rebuilds the dot strip. */
module Carousel {

  // ---------------------------------------------------------------------------
  // Index arithmetic
  // ---------------------------------------------------------------------------

  /** The previous button and the left arrow key: (i - 1 + n) % n. The dividend is never
      negative here, so JavaScript's truncating % and Dafny's % agree. */
  function PrevIndex(i: int, n: nat): (r: nat)
    requires 0 <= i < n
    ensures r < n
    ensures r == if i == 0 then n - 1 else i - 1
  {
    (i - 1 + n) % n
  }

  /** The next button and the right arrow key: (i + 1) % n. */
  function NextIndex(i: int, n: nat): (r: nat)
    requires 0 <= i < n
    ensures r < n
    ensures r == if i == n - 1 then 0 else i + 1
  {
    (i + 1) % n
  }

  /** Stepping forward and then back, or back and then forward, returns to the start. */
  lemma StepRoundTrip(i: int, n: nat)
    requires 0 <= i < n
    ensures PrevIndex(NextIndex(i, n), n) == i
    ensures NextIndex(PrevIndex(i, n), n) == i
  {
  }

  // ---------------------------------------------------------------------------
  // The 1-based position in a dot's label
  // ---------------------------------------------------------------------------

  function Digit(d: nat): (c: char)
    requires d < 10
    ensures '0' <= c <= '9'
  {
    "0123456789"[d]
  }

  function DigitValue(c: char): nat
    requires '0' <= c <= '9'
  {
    (c as int) - ('0' as int)
  }

  /** The decimal text JavaScript's template literal produces for a number. */
  function DecimalText(n: nat): (r: string)
    ensures |r| >= 1
    ensures forall k :: 0 <= k < |r| ==> '0' <= r[k] <= '9'
    decreases n
  {
    if n < 10 then [Digit(n)] else DecimalText(n / 10) + [Digit(n % 10)]
  }

  /** Reads a string of decimal digits back as a number. */
  function DecimalValue(s: string): nat
    requires forall k :: 0 <= k < |s| ==> '0' <= s[k] <= '9'
    decreases |s|
  {
    if s == [] then 0 else DecimalValue(s[..|s| - 1]) * 10 + DigitValue(s[|s| - 1])
  }

  /** Reading the decimal text back gives the number. */
  lemma {:induction false} DecimalRoundTrip(n: nat)
    ensures DecimalValue(DecimalText(n)) == n
    decreases n
  {
    var s := DecimalText(n);
    if n >= 10 {
      DecimalRoundTrip(n / 10);
      assert s[..|s| - 1] == DecimalText(n / 10);
    }
  }

  /** Different numbers have different decimal texts. */
  lemma DecimalTextInjective(a: nat, b: nat)
    requires DecimalText(a) == DecimalText(b)
    ensures a == b
  {
    DecimalRoundTrip(a);
    DecimalRoundTrip(b);
  }

  // ---------------------------------------------------------------------------
  // Rendering
  // ---------------------------------------------------------------------------

  const LabelPrefix: string := "レビュー "

  /** The aria-label of the dot for card k: its 1-based position. */
  function DotLabel(k: nat): (r: string)
    ensures |r| > |LabelPrefix| && r[..|LabelPrefix|] == LabelPrefix
    ensures forall j :: |LabelPrefix| <= j < |r| ==> '0' <= r[j] <= '9'
    ensures DecimalValue(r[|LabelPrefix|..]) == k + 1
  {
    DecimalRoundTrip(k + 1);
    assert (LabelPrefix + DecimalText(k + 1))[|LabelPrefix|..] == DecimalText(k + 1);
    LabelPrefix + DecimalText(k + 1)
  }

  /** The value the render step writes into card k's aria-hidden attribute. */
  function HiddenFlag(k: nat, index: int): (r: string)
    ensures r == "false" <==> k == index
    ensures r == "true" <==> k != index
  {
    if k == index then "false" else "true"
  }

  /** One rebuilt indicator button: whether it has the "active" class, its aria-label, and
      the index its click handler assigns to the carousel. */
  datatype Dot = Dot(active: bool, ariaLabel: string, target: nat)

  /** What the render step builds for card k. */
  function DotFor(k: nat, index: int): Dot {
    Dot(k == index, DotLabel(k), k)
  }

  /** The fresh dot strip for index: one dot per card, in card order. */
  ghost predicate IsDotStrip(dots: seq<Dot>, n: nat, index: int) {
    |dots| == n && forall k :: 0 <= k < n ==> dots[k] == DotFor(k, index)
  }

  /** The dot loop of the render step, building the strip from nothing. */
  method BuildDots(n: nat, index: int) returns (dots: seq<Dot>)
    ensures IsDotStrip(dots, n, index)
  {
    dots := [];
    var i := 0;
    while i < n
      invariant 0 <= i <= n
      invariant |dots| == i
      invariant forall k :: 0 <= k < i ==> dots[k] == DotFor(k, index)
    {
      dots := dots + [DotFor(i, index)];
      i := i + 1;
    }
  }

  /** In a rendered strip exactly the dot of the current card is active, every dot's
      click leads to its own card, and no two dots share a label. */
  lemma DotStripFacts(dots: seq<Dot>, n: nat, index: int)
    requires 0 <= index < n
    requires IsDotStrip(dots, n, index)
    ensures dots[index].active
    ensures forall k :: 0 <= k < n && dots[k].active ==> k == index
    ensures forall k :: 0 <= k < n ==> dots[k].target == k
    ensures forall j, k :: 0 <= j < k < n ==> dots[j].ariaLabel != dots[k].ariaLabel
  {
  }

  /** With aria-hidden written for index, exactly one card is shown, and it is card index. */
  lemma OneCardShown(hidden: seq<string>, index: int)
    requires 0 <= index < |hidden|
    requires forall k :: 0 <= k < |hidden| ==> hidden[k] == HiddenFlag(k, index)
    ensures (set k | 0 <= k < |hidden| && hidden[k] == "false") == {index}
  {
  }

  // ---------------------------------------------------------------------------
  // The carousel state
  // ---------------------------------------------------------------------------

  class Carousel {
    /** The number of review cards, at least one. */
    const n: nat
    /** Whether the page has a dot container. */
    const hasDots: bool
    /** The aria-hidden attribute of each card. */
    const ariaHidden: array<string>
    var reviewIndex: int
    /** The buttons currently in the dot container. */
    var dots: seq<Dot>

    /** The cards' attributes and the dot container show the given index. */
    ghost predicate RenderedAt(index: int)
      reads this, ariaHidden
    {
      ariaHidden.Length == n &&
      (forall k :: 0 <= k < n ==> ariaHidden[k] == HiddenFlag(k, index)) &&
      (if hasDots then IsDotStrip(dots, n, index) else dots == [])
    }

    ghost predicate Valid()
      reads this, ariaHidden
    {
      n >= 1 && 0 <= reviewIndex < n && RenderedAt(reviewIndex)
    }

    /** Initialisation, reached only when the page has review cards: index 0, rendered. */
    constructor (cards: nat, dotContainer: bool)
      requires cards >= 1
      ensures Valid() && reviewIndex == 0
      ensures n == cards && hasDots == dotContainer
      ensures fresh(ariaHidden)
    {
      n := cards;
      hasDots := dotContainer;
      ariaHidden := new string[cards](_ => "");
      reviewIndex := 0;
      dots := [];
      new;
      UpdateReviews(reviewIndex);
    }

    /** The render step: set every card's aria-hidden, then rebuild the dot strip. */
    method UpdateReviews(index: int)
      requires ariaHidden.Length == n
      requires hasDots || dots == []
      modifies this`dots, ariaHidden
      ensures RenderedAt(index)
    {
      var i := 0;
      while i < n
        invariant 0 <= i <= n
        invariant forall k :: 0 <= k < i ==> ariaHidden[k] == HiddenFlag(k, index)
        modifies ariaHidden
      {
        ariaHidden[i] := HiddenFlag(i, index);
        i := i + 1;
      }
      if hasDots {
        dots := BuildDots(n, index);
      }
    }

    method Prev()
      requires Valid()
      modifies this, ariaHidden
      ensures Valid()
      ensures reviewIndex == PrevIndex(old(reviewIndex), n)
    {
      reviewIndex := (reviewIndex - 1 + n) % n;
      UpdateReviews(reviewIndex);
    }

    method Next()
      requires Valid()
      modifies this, ariaHidden
      ensures Valid()
      ensures reviewIndex == NextIndex(old(reviewIndex), n)
    {
      reviewIndex := (reviewIndex + 1) % n;
      UpdateReviews(reviewIndex);
    }

    /** A click on the k-th dot of the current strip: its handler jumps to the card it
        was built for. */
    method ClickDot(k: nat)
      requires Valid() && k < |dots|
      modifies this, ariaHidden
      ensures Valid()
      ensures reviewIndex == k
    {
      reviewIndex := dots[k].target;
      UpdateReviews(reviewIndex);
    }

    /** A key press anywhere on the page: the arrow keys step, any other key does nothing. */
    method KeyDown(key: string)
      requires Valid()
      modifies this, ariaHidden
      ensures Valid()
      ensures key == "ArrowLeft" ==> reviewIndex == PrevIndex(old(reviewIndex), n)
      ensures key == "ArrowRight" ==> reviewIndex == NextIndex(old(reviewIndex), n)
      ensures key != "ArrowLeft" && key != "ArrowRight" ==>
        reviewIndex == old(reviewIndex) && dots == old(dots) && ariaHidden[..] == old(ariaHidden[..])
    {
      if key == "ArrowLeft" {
        reviewIndex := (reviewIndex - 1 + n) % n;
        UpdateReviews(reviewIndex);
      } else if key == "ArrowRight" {
        reviewIndex := (reviewIndex + 1) % n;
        UpdateReviews(reviewIndex);
      }
    }
  }
}
