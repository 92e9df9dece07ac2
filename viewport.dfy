/** Scroll-triggered reveal: each handler walks a fixed list of elements and
    marks an element revealed when its top edge is above the viewport's
    bottom minus an offset. Coordinates are integers supplied by the caller. */
module Viewport {

  /** The offset `isElementInViewport` uses when none is given. */
  const DEFAULT_OFFSET := 100

  /** `el.getBoundingClientRect().top < window.innerHeight - offset`: the top
      edge lies more than `offset` pixels above the bottom of the viewport. */
  function InViewport(top: int, innerHeight: int, offset: int): (b: bool)
    ensures b <==> innerHeight - top > offset
  {
    top < innerHeight - offset
  }

  /** An element higher up, a taller viewport or a smaller offset can only
      make the test pass more easily. */
  lemma InViewportMonotone(top: int, innerHeight: int, offset: int, top2: int, innerHeight2: int, offset2: int)
    requires top2 <= top && innerHeight <= innerHeight2 && offset2 <= offset
    ensures InViewport(top, innerHeight, offset) ==> InViewport(top2, innerHeight2, offset2)
  {
  }

  /** The five places the page reveals elements on scroll. */
  datatype RevealSite =
    | FadeSections   // `initFadeSections`: service cards, about and FAQ sections
    | SponsorCards   // `animateCards`: the sponsor cards (opacity and slide)
    | FadeItems      // `checkFade`: `.fade-in` images and videos
    | PageSections   // `fadeInOnScroll`: every `section`
    | StoryCards     // `revealStories`: `.story-card`

  /** The offset each site compares with. */
  function SiteOffset(site: RevealSite): (offset: int)
    ensures offset == 50 || offset == DEFAULT_OFFSET
    ensures offset == 50 <==> site == SponsorCards || site == FadeItems
  {
    match site
    case FadeSections => DEFAULT_OFFSET
    case SponsorCards => 50
    case FadeItems => 50
    case PageSections => 100
    case StoryCards => 100
  }

  /** One reveal pass over elements whose top edges are `tops`: an element is
      revealed afterwards exactly when it was before or it passes the test. */
  function Revealed(visible: seq<bool>, tops: seq<int>, innerHeight: int, offset: int): (r: seq<bool>)
    requires |tops| == |visible|
    ensures |r| == |visible|
    ensures forall i :: 0 <= i < |r| ==> (r[i] <==> visible[i] || InViewport(tops[i], innerHeight, offset))
  {
    seq(|visible|, i requires 0 <= i < |visible| => visible[i] || InViewport(tops[i], innerHeight, offset))
  }

  /** Running a pass twice at the same scroll position is running it once. */
  lemma RevealIdempotent(visible: seq<bool>, tops: seq<int>, innerHeight: int, offset: int)
    requires |tops| == |visible|
    ensures Revealed(Revealed(visible, tops, innerHeight, offset), tops, innerHeight, offset)
         == Revealed(visible, tops, innerHeight, offset)
  {
  }

  /** A pass never hides an element, and leaves every element that fails the
      test as it was. */
  lemma RevealOneWay(visible: seq<bool>, tops: seq<int>, innerHeight: int, offset: int, i: int)
    requires |tops| == |visible| && 0 <= i < |visible|
    ensures visible[i] ==> Revealed(visible, tops, innerHeight, offset)[i]
    ensures !InViewport(tops[i], innerHeight, offset) ==> Revealed(visible, tops, innerHeight, offset)[i] == visible[i]
  {
  }

  /** The positions the elements had at one scroll event. */
  datatype Snapshot = Snapshot(tops: seq<int>, innerHeight: int)

  ghost predicate Fits(snaps: seq<Snapshot>, n: nat) {
    forall k :: 0 <= k < |snaps| ==> |snaps[k].tops| == n
  }

  /** The reveal flags after one pass per scroll event, in order. */
  function AfterScrolls(visible: seq<bool>, snaps: seq<Snapshot>, offset: int): (r: seq<bool>)
    requires Fits(snaps, |visible|)
    ensures |r| == |visible|
    ensures forall i :: 0 <= i < |visible| && visible[i] ==> r[i]
    decreases |snaps|
  {
    if snaps == [] then visible
    else AfterScrolls(Revealed(visible, snaps[0].tops, snaps[0].innerHeight, offset), snaps[1..], offset)
  }

  /** After any sequence of scroll events an element is revealed exactly when it
      was revealed at the start or passed the test at one of those events: the
      flag records whether the element has ever been in view. */
  lemma {:induction false} AfterScrollsEverInView(visible: seq<bool>, snaps: seq<Snapshot>, offset: int, i: int)
    requires Fits(snaps, |visible|) && 0 <= i < |visible|
    ensures AfterScrolls(visible, snaps, offset)[i]
        <==> visible[i] || exists k :: 0 <= k < |snaps| && InViewport(snaps[k].tops[i], snaps[k].innerHeight, offset)
    decreases |snaps|
  {
    if snaps != [] {
      var v1 := Revealed(visible, snaps[0].tops, snaps[0].innerHeight, offset);
      assert Fits(snaps[1..], |v1|);
      AfterScrollsEverInView(v1, snaps[1..], offset, i);
      if exists k :: 0 <= k < |snaps| && InViewport(snaps[k].tops[i], snaps[k].innerHeight, offset) {
        var k :| 0 <= k < |snaps| && InViewport(snaps[k].tops[i], snaps[k].innerHeight, offset);
        if k > 0 {
          assert snaps[1..][k - 1] == snaps[k];
        }
      }
      if exists k :: 0 <= k < |snaps[1..]| && InViewport(snaps[1..][k].tops[i], snaps[1..][k].innerHeight, offset) {
        var k :| 0 <= k < |snaps[1..]| && InViewport(snaps[1..][k].tops[i], snaps[1..][k].innerHeight, offset);
        assert snaps[1..][k] == snaps[k + 1];
      }
    }
  }

  /** The reveal handler of `site`: adds the revealed mark to each element that
      passes the test at the current scroll position and touches no other.
      For `SponsorCards` this is the opacity alone; `AnimateCards` below also
      moves the cards. */
  method Reveal(visible: array<bool>, tops: seq<int>, innerHeight: int, site: RevealSite)
    requires |tops| == visible.Length
    modifies visible
    ensures visible[..] == Revealed(old(visible[..]), tops, innerHeight, SiteOffset(site))
  {
    var offset := SiteOffset(site);
    for i := 0 to visible.Length
      invariant forall j :: 0 <= j < i ==> (visible[j] <==> old(visible[j]) || InViewport(tops[j], innerHeight, offset))
      invariant forall j :: i <= j < visible.Length ==> visible[j] == old(visible[j])
    {
      if InViewport(tops[i], innerHeight, offset) {
        visible[i] := true;
      }
    }
  }

  /** The horizontal start offset of the sponsor card at `index` before it is
      revealed (`translateX`): cards at even positions wait 50px to the left,
      the others 50px to the right. */
  function SlideOffset(index: nat): int {
    if index % 2 == 0 then -50 else 50
  }

  /** The slide offsets after one pass of `animateCards`: a card that passes
      the test slides home to 0, every other card keeps its offset. */
  function Slid(dx: seq<int>, tops: seq<int>, innerHeight: int): (r: seq<int>)
    requires |tops| == |dx|
    ensures |r| == |dx|
  {
    seq(|dx|, i requires 0 <= i < |dx| => if InViewport(tops[i], innerHeight, SiteOffset(SponsorCards)) then 0 else dx[i])
  }

  /** A sponsor card is either revealed and at rest, or unrevealed and still
      at its start offset. */
  ghost predicate CardsAtRest(revealed: seq<bool>, dx: seq<int>) {
    |revealed| == |dx| &&
    forall i :: 0 <= i < |dx| ==> if revealed[i] then dx[i] == 0 else dx[i] == SlideOffset(i)
  }

  /** `animateCards` keeps opacity and slide in step: from cards at rest or at
      their start offsets, one pass gives cards of which the revealed ones
      are at rest and the others have not moved. */
  lemma AnimateKeepsCardsAtRest(revealed: seq<bool>, dx: seq<int>, tops: seq<int>, innerHeight: int)
    requires CardsAtRest(revealed, dx) && |tops| == |dx|
    ensures CardsAtRest(Revealed(revealed, tops, innerHeight, SiteOffset(SponsorCards)), Slid(dx, tops, innerHeight))
  {
  }

  /** Page load on the sponsor page: every card starts hidden (opacity 0) at
      its start offset. */
  method HideSponsorCards(revealed: array<bool>, dx: array<int>)
    requires revealed.Length == dx.Length
    modifies revealed, dx
    ensures forall i :: 0 <= i < revealed.Length ==> !revealed[i] && dx[i] == SlideOffset(i)
    ensures CardsAtRest(revealed[..], dx[..])
  {
    for i := 0 to revealed.Length
      invariant forall j :: 0 <= j < i ==> !revealed[j] && dx[j] == SlideOffset(j)
    {
      revealed[i] := false;
      dx[i] := if i % 2 == 0 then -50 else 50;
    }
  }

  /** `animateCards`: each card that passes the test with offset 50 gets
      opacity 1 and slides home; every other card is left as it was. */
  method AnimateCards(revealed: array<bool>, dx: array<int>, tops: seq<int>, innerHeight: int)
    requires revealed.Length == dx.Length == |tops|
    modifies revealed, dx
    ensures revealed[..] == Revealed(old(revealed[..]), tops, innerHeight, SiteOffset(SponsorCards))
    ensures dx[..] == Slid(old(dx[..]), tops, innerHeight)
  {
    for i := 0 to revealed.Length
      invariant forall j :: 0 <= j < i ==> (revealed[j] <==> old(revealed[j]) || InViewport(tops[j], innerHeight, 50))
      invariant forall j :: i <= j < revealed.Length ==> revealed[j] == old(revealed[j])
      invariant forall j :: 0 <= j < i ==> dx[j] == if InViewport(tops[j], innerHeight, 50) then 0 else old(dx[j])
      invariant forall j :: i <= j < dx.Length ==> dx[j] == old(dx[j])
    {
      if InViewport(tops[i], innerHeight, 50) {
        revealed[i] := true;
        dx[i] := 0;
      }
    }
  }
}
