# Salon landing page behaviour, modelled in Dafny

The landing page's script wires five independent behaviours to page elements. This
project models the state each one keeps and changes, with the page's DOM reduced to
plain fields:

- **Navigation toggle** (`toggles.dfy`, module `Toggles`). The hamburger button has an
  `aria-expanded` attribute, held as a string, and the navigation list has an `open`
  class, held as a boolean. A click on the hamburger writes back the negation of what the
  attribute said and toggles the class. A click on a link in the list closes the menu,
  but only when it is open.
- **Sidebar toggle** (same file). The toggle has an `aria-expanded` attribute, the
  sidebar has a `collapsed` class, and the inner panel has an inline `display` style.
- **Reveal on scroll** (`reveal.dfy`, module `Reveal`). Each target block's
  `is-visible` class is one cell of a fixed array. The set of targets the observer still
  watches is a field. The observer callback receives a batch of intersection reports.
  Without an observer, every target is marked at once.
- **Review carousel** (`carousel.dfy`, module `Carousel`). The class holds the card
  count `n ≥ 1`, the index `reviewIndex`, each card's `aria-hidden` attribute as an array,
  and the dot strip as a sequence that the render step rebuilds. Each dot records its
  `active` class, its `aria-label` ("レビュー " followed by the 1-based position), and the
  index its click handler assigns.
- **Forms** (`forms.dfy`, module `Forms`):
  - The quick reservation form runs its checks in order and stops at the first failure.
  - The contact form clears its slots, then runs all three checks and accumulates
    `valid`.
  - `String.prototype.trim` and the regular-expression class `\s` are modelled over the
    ECMAScript whitespace and line-terminator code points.
  - The email regular expression `^[^\s@]+@[^\s@]+\.[^\s@]+$` is modelled as
    `EmailMatches`: some split into three runs that matches the whole string. It is then
    proved equivalent to a plain description of the string (`EmailShape`).

Every class method is specified against a pure step function, or states its new state
outright. The properties the page relies on are proved about these functions or kept as
class invariants (`Valid`).

Inputs the script reads from its host become parameters:
- whether a reported target is intersecting;
- the instant the date input's text parses to (`Option<int>`, with `None` for an invalid
  date);
- the current clock `now`;
- the key of a key press;
- whether the dot container and the `IntersectionObserver` capability exist.

Three consequences of the code that a reader might not expect:
- Two sidebar clicks restore `aria-expanded` only when it already held `"true"` or
  `"false"`, because the handler treats any other text (a missing attribute included) as
  collapsed.
- Two sidebar clicks do not restore the panel's original inline `display`. After them the
  panel shows exactly when the attribute was `"true"` before.
- A date text that parses to an invalid date is accepted by the contact form.
  JavaScript's `<` on `NaN` is false, so such a date never counts as in the past.

## Model

| member | source | states |
|---|---|---|
| Toggles.BoolText | script.js:9 | `String(b)` is `"true"` or `"false"` and reads back as `b` |
| Toggles.NavClick | script.js:7-11 | a hamburger click writes one of the two canonical texts, flips what the attribute means, flips `open`, and keeps "expanded iff open" exactly when it held before |
| Toggles.NavLinkClick | script.js:14-21 | a link click leaves the menu closed; when it was open the attribute becomes `"false"`; when it was closed nothing changes; "expanded iff open" is preserved |
| Toggles.NavClickTwice | script.js:8-10 | two hamburger clicks restore `open`, and restore the attribute iff it was `"true"` or `"false"` |
| Toggles.NavClicksKeepSync | script.js:7-21 | from a synced state, every sequence of hamburger and link clicks ends synced |
| Toggles.NavToggle.Click | script.js:7-11 | the in-place handler's new state is `NavClick` of the old one |
| Toggles.NavToggle.LinkClick | script.js:15-20 | the in-place handler's new state is `NavLinkClick` of the old one |
| Toggles.SidebarClick | script.js:29-40 | after a sidebar click `display == "block"` iff the new attribute is `"true"`; display is `"block"` or `"none"`; attribute meaning and `collapsed` both flip; their agreement is kept |
| Toggles.SidebarClickTwice | script.js:30-39 | two clicks restore `collapsed`, restore the attribute iff it was canonical, and leave the panel shown iff it was expanded before |
| Toggles.SidebarToggle.Click | script.js:29-40 | the in-place handler's new state is `SidebarClick` of the old one |
| Reveal.Revealing | script.js:47-52 | a target is revealed by a batch iff some report in the batch names it as intersecting |
| Reveal.RevealObserver.constructor | script.js:44-57 | with the observer and at least one target, all targets are watched and none marked; otherwise all are marked and none watched; either way revealed iff not watched |
| Reveal.RevealObserver.OnIntersection | script.js:46-52 | marks exactly the intersecting targets, never removes a mark, unobserves exactly those targets, and keeps "revealed iff no longer observed" |
| Carousel.PrevIndex | script.js:91 | `(i-1+n)%n` stays in `[0,n)` and is `i-1`, or `n-1` at 0 (previous button and left arrow) |
| Carousel.NextIndex | script.js:95 | `(i+1)%n` stays in `[0,n)` and is `i+1`, or `0` at `n-1` (next button and right arrow) |
| Carousel.StepRoundTrip | script.js:91-95 | next then previous, and previous then next, return to the original index |
| Carousel.HiddenFlag | script.js:69 | the card's `aria-hidden` value is `"false"` iff it is the current card, `"true"` otherwise |
| Carousel.DecimalText | script.js:78 | the decimal text of `${i+1}`: at least one character, all digits |
| Carousel.DotLabel | script.js:78 | a dot's `aria-label` is "レビュー " followed by digits that read back as the 1-based position |
| Carousel.DecimalRoundTrip | script.js:78 | the decimal text in a dot's label reads back as the position |
| Carousel.DecimalTextInjective | script.js:78 | different positions give different decimal texts |
| Carousel.BuildDots | script.js:73-85 | the rebuilt strip has exactly `n` dots; dot `k` is active iff `k == index`, is labelled with position `k+1`, and jumps to `k` |
| Carousel.DotStripFacts | script.js:74-84 | in a rendered strip only the current dot is active, every dot leads to its own card, and all labels are distinct |
| Carousel.OneCardShown | script.js:68-71 | after rendering, the cards with `aria-hidden = "false"` are exactly `{index}` |
| Carousel.Carousel.constructor | script.js:66-89 | with at least one card, the carousel starts at index 0 and is rendered |
| Carousel.Carousel.UpdateReviews | script.js:67-86 | every card's `aria-hidden` is `"false"` iff it is the index; the dot strip is rebuilt for the index when the container exists |
| Carousel.Carousel.Prev | script.js:90-93 | the index becomes `PrevIndex` of the old one, stays in range, and the page is re-rendered |
| Carousel.Carousel.Next | script.js:94-97 | the index becomes `NextIndex` of the old one, stays in range, and the page is re-rendered |
| Carousel.Carousel.ClickDot | script.js:79-82 | clicking dot `k` sets the index to `k` and re-renders |
| Carousel.Carousel.KeyDown | script.js:100-108 | the left and right arrows step like the buttons, and any other key changes nothing |
| Forms.IsSpace | script.js:152 | the code points `\s` matches and `trim()` removes: the ECMAScript WhiteSpace and LineTerminator characters |
| Forms.Trim | script.js:119 | what `trim()` returns neither starts nor ends with whitespace |
| Forms.TrimIsInnerSlice | script.js:119 | what `trim()` returns is the slice of the value between a blank prefix and a blank suffix |
| Forms.TrimStart | script.js:119 | removes exactly the leading whitespace: a suffix, not starting with whitespace, with only whitespace dropped |
| Forms.TrimEnd | script.js:119 | removes exactly the trailing whitespace: a prefix, not ending with whitespace, with only whitespace dropped |
| Forms.TrimEmptyIffBlank | script.js:148 | `trim()` yields the empty string iff the value is all whitespace |
| Forms.EmailMatches | script.js:152-153 | the test of `^[^\s@]+@[^\s@]+\.[^\s@]+$`: some '@' and '.' split the whole value into three runs free of whitespace and '@' |
| Forms.MatchHasShape | script.js:152-153 | a match of the email pattern has no whitespace, exactly one '@' with text before it, and an inner '.' after it |
| Forms.ShapeHasMatch | script.js:152-153 | every string of that shape matches the email pattern |
| Forms.EmailMatchesIff | script.js:152-155 | the pattern matches iff the string has that shape |
| Forms.EmailExamples | script.js:152 | the pattern accepts `"a@b.co"` and rejects `"a@b"` and `"a b@c.com"` |
| Forms.QuickCheck | script.js:119-126 | a blank name gives the name failure; a non-blank name with an empty date gives the date failure; both present give success |
| Forms.QuickMessage | script.js:120-127 | every outcome writes a non-empty status text |
| Forms.QuickNameFirst | script.js:119-122 | with a blank name the date is never consulted |
| Forms.QuickMessagesDistinct | script.js:120-127 | the three outcomes write three different status texts |
| Forms.QuickForm.Submit | script.js:115-130 | the status is the outcome's message; the form is reset on success and left as it was on failure |
| Forms.DateIsPast | script.js:160 | `new Date(value) < new Date()`: the parsed instant is strictly earlier than now; an invalid date is never earlier |
| Forms.InvalidDateNotPast | script.js:157-163 | a date text that parses to an invalid date counts as not in the past, so a submission with a valid name and email is accepted |
| Forms.NowIsNotPast | script.js:160 | a date equal to now is accepted, and one a single time unit earlier is refused |
| Forms.ContactForm.Submit | script.js:137-171 | each slot holds its own check's error, or is empty; the date slot separates "required" from "in the past"; the thanks message and the reset happen iff all three checks pass |

## Left out

- Element lookup and presence checks are host plumbing and are not modelled. So are
  listener registration and `preventDefault`. Each class models a behaviour whose
  elements exist. The carousel methods exist even when the previous or next button is
  absent.
- Every navigation link has its own listener with the same body; the model has one
  `LinkClick`.
- A missing `aria-expanded` attribute (`getAttribute` returning null) is treated like any
  text other than `"true"`. The model's attribute is any string.
- The intersection threshold (0.12) and the viewport geometry are floating-point layout
  work done by the host. Whether a target intersects is an input.
- Reveal marks are assumed absent before the script runs: the model assumes the markup
  does not carry `is-visible`. The invariant "revealed iff no longer observed" rests on
  this.
- The timed clearing of the status messages (after 4000 and 6000 ms) is asynchronous
  timer behaviour. So is the race between timers of quick resubmissions. Neither is
  modelled.
- Parsing of the date input (`new Date(text)`) and the real clock belong to a foreign
  library. They are parameters of `ContactForm.Submit`.
- `innerHTML` clearing and `createElement` are DOM mechanics. The model rebuilds the dot
  strip as a fresh sequence, and each dot records the index its closure captured.
- Keyboard events are modelled as `KeyDown` on the carousel. That the listener is global
  to the page is an event-routing concern.
- `form.reset()` restores the inputs' default values. The model assumes those defaults
  are empty. It models only the name and date inputs of the quick form, and the name,
  email and date inputs of the contact form.
- A missing status element (`quickMsg` or `formMessage` being null) would throw before
  the message is written. The model assumes it exists.
- JavaScript strings are sequences of UTF-16 code units; the model's strings are
  sequences of Unicode scalar values. Every `\s` code point is in the Basic Multilingual
  Plane, so `trim()` and the email pattern agree on well-formed text, but values holding
  lone surrogates cannot be represented.
