/**
 * The onboarding pager (app/index.jsx): three slides, a current index, next
 * and back buttons, a skip link and one pagination dot per slide. Scrolling
 * by hand (`handleScroll`) is not modelled; the buttons are.
 */
module Onboarding {

  /** The number of entries in `slides`. */
  const SlideCount: nat := 3

  /** Where the router is sent, if anywhere. */
  datatype Nav = Stay | PushWelcome

  datatype PagerStep = PagerStep(index: nat, nav: Nav)

  predicate InRange(index: nat) {
    index < SlideCount
  }

  /** `goNext`: the next slide, or the welcome screen from the last slide. */
  function GoNext(index: nat): (r: PagerStep)
    ensures index + 1 < SlideCount ==> r.index == index + 1 && r.nav == Stay
    ensures index + 1 >= SlideCount ==> r.index == index && r.nav == PushWelcome
  {
    if index < SlideCount - 1 then PagerStep(index + 1, Stay) else PagerStep(index, PushWelcome)
  }

  /** `goBack`: the previous slide; nothing on the first. */
  function GoBack(index: nat): (r: nat)
    ensures index > 0 ==> r + 1 == index
    ensures index == 0 ==> r == 0
  {
    if index > 0 then index - 1 else index
  }

  /** The skip link: the welcome screen from any slide, the index untouched. */
  function Skip(index: nat): (r: PagerStep)
    ensures r.nav == PushWelcome && r.index == index
  {
    PagerStep(index, PushWelcome)
  }

  /** The back button is drawn only past the first slide. */
  predicate BackVisible(index: nat) {
    index > 0
  }

  /** The pagination dots, first to last: `true` marks the active (wide, green) one. */
  function Dots(index: nat): (r: seq<bool>)
    ensures |r| == SlideCount
    ensures forall k :: 0 <= k < |r| ==> (r[k] <==> k == index)
  {
    DotsUpTo(index, SlideCount)
  }

  function DotsUpTo(index: nat, n: nat): (r: seq<bool>)
    ensures |r| == n
    ensures forall k :: 0 <= k < n ==> (r[k] <==> k == index)
  {
    if n == 0 then [] else DotsUpTo(index, n - 1) + [n - 1 == index]
  }

  /** Exactly one dot is active while the index names a slide, and none otherwise. */
  lemma ExactlyOneDotActive(index: nat)
    ensures multiset(Dots(index))[true] == if InRange(index) then 1 else 0
  {
    ActiveDotCount(index, SlideCount);
  }

  lemma {:induction false} ActiveDotCount(index: nat, n: nat)
    ensures multiset(DotsUpTo(index, n))[true] == if index < n then 1 else 0
  {
    if n > 0 {
      ActiveDotCount(index, n - 1);
      assert DotsUpTo(index, n) == DotsUpTo(index, n - 1) + [n - 1 == index];
    }
  }

  /** Next then back returns to the same slide whenever next moved. */
  lemma BackUndoesNext(index: nat)
    requires index + 1 < SlideCount
    ensures GoBack(GoNext(index).index) == index
  {
  }

  /** The back button is drawn exactly on the slides where pressing it moves. */
  lemma BackVisibleIffBackMoves(index: nat)
    ensures BackVisible(index) <==> GoBack(index) != index
    ensures BackVisible(index) <==> Press(index, Back).index < index
  {
  }

  /** Back then next returns to the same slide whenever back moved. */
  lemma NextUndoesBack(index: nat)
    requires InRange(index) && index > 0
    ensures GoNext(GoBack(index)) == PagerStep(index, Stay)
  {
  }

  /** The pager's buttons. */
  datatype PagerEvent = Next | Back

  /** One button press: the index afterwards and whether the welcome screen was opened. */
  function Press(index: nat, e: PagerEvent): (r: PagerStep)
    ensures InRange(index) ==> InRange(r.index)
    ensures r.nav == PushWelcome <==> e == Next && index + 1 >= SlideCount
  {
    match e
    case Next => GoNext(index)
    case Back => PagerStep(GoBack(index), Stay)
  }

  /** The index after a sequence of presses. */
  function PressAll(index: nat, events: seq<PagerEvent>): nat
    decreases |events|
  {
    if events == [] then index else PressAll(Press(index, events[0]).index, events[1..])
  }

  /** From a slide, any sequence of presses stays on a slide. */
  lemma {:induction false} PressAllInRange(index: nat, events: seq<PagerEvent>)
    requires InRange(index)
    ensures InRange(PressAll(index, events))
    decreases |events|
  {
    if events != [] {
      PressAllInRange(Press(index, events[0]).index, events[1..]);
    }
  }

  /** Enough next presses from any slide reach the last slide and stay there. */
  lemma {:induction false} NextsReachLast(index: nat, k: nat)
    requires InRange(index)
    requires index + k >= SlideCount - 1
    ensures PressAll(index, seq(k, _ => Next)) == SlideCount - 1
    decreases k
  {
    if k > 0 {
      var events := seq(k, _ => Next);
      assert events[0] == Next && events[1..] == seq(k - 1, _ => Next);
      var next := Press(index, Next).index;
      if index + 1 < SlideCount {
        NextsReachLast(next, k - 1);
      } else {
        NextsStayAtLast(k - 1);
      }
    }
  }

  lemma {:induction false} NextsStayAtLast(k: nat)
    ensures PressAll(SlideCount - 1, seq(k, _ => Next)) == SlideCount - 1
    decreases k
  {
    if k > 0 {
      var events := seq(k, _ => Next);
      assert events[0] == Next && events[1..] == seq(k - 1, _ => Next);
      NextsStayAtLast(k - 1);
    }
  }
}
