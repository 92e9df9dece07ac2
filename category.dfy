/** The category filter buttons (`.filter-btn`). Each click highlights the
    clicked button alone and then, in two separate handlers, filters the
    sponsor cards by their `data-type` and shows or hides the three sections
    of the about page. A `data-type` attribute that is absent is `None`. */
module Category {
  import opened Dom
  import Selection

  const ALL := "all"

  /** The display the sponsor filter gives a card of type `cardType` when the
      clicked button has type `buttonType`. */
  function CardDisplay(buttonType: Option<string>, cardType: Option<string>): (d: Display)
    ensures d == Block || d == Hidden
  {
    if buttonType == Some(ALL) then Block
    else if cardType == buttonType then Block
    else Hidden
  }

  /** The button of type "all" shows every card; any other button shows
      exactly the cards of its own type. Two absent types compare equal, as
      `undefined === undefined` does. */
  lemma CardShownIff(buttonType: Option<string>, cardType: Option<string>)
    ensures buttonType == Some(ALL) ==> CardDisplay(buttonType, cardType) == Block
    ensures buttonType != Some(ALL) ==> (CardDisplay(buttonType, cardType) == Block <==> cardType == buttonType)
  {
  }

  /** A click on button `k` of the sponsor page: button `k` alone is active,
      and each card's display is decided by its own type and the button's. */
  method SponsorFilterClick(buttons: array<bool>, buttonTypes: seq<Option<string>>, k: nat,
                            cards: array<Display>, cardTypes: seq<Option<string>>)
    requires k < buttons.Length && buttons.Length == |buttonTypes|
    requires cards.Length == |cardTypes|
    modifies buttons, cards
    ensures forall j :: 0 <= j < buttons.Length ==> (buttons[j] <==> j == k)
    ensures forall i :: 0 <= i < cards.Length ==> cards[i] == CardDisplay(buttonTypes[k], cardTypes[i])
  {
    Selection.ActivateOnly(buttons, k);
    var t := buttonTypes[k];
    for i := 0 to cards.Length
      modifies cards
      invariant forall j :: 0 <= j < i ==> cards[j] == CardDisplay(t, cardTypes[j])
    {
      if t == Some(ALL) {
        cards[i] := Block;
      } else {
        cards[i] := if cardTypes[i] == t then Block else Hidden;
      }
    }
  }

  /** The keys of the about page's section map, in insertion order. */
  const SECTION_KEYS: seq<string> := ["Our Story", "core values", "Who we serve"]

  /** The inline display the about filter gives the section under `key`:
      cleared ("") for "all" or a matching key, "none" otherwise. */
  function SectionDisplay(key: string, buttonType: Option<string>): (d: Display)
    ensures d == Unset || d == Hidden
  {
    if buttonType == Some(ALL) || Some(key) == buttonType then Unset else Hidden
  }

  /** The about filter shows a section exactly when the sponsor filter would
      show a card whose type is the section's key. */
  lemma SectionsFollowCardRule(key: string, buttonType: Option<string>)
    ensures SectionDisplay(key, buttonType) == Unset <==> CardDisplay(buttonType, Some(key)) == Block
  {
  }

  /** The sections after the about handler walks `keys` in order. `sections`
      holds the sections the page has; reaching a key whose section is missing
      throws, which ends the walk there. */
  function FilterSections(sections: map<string, Display>, buttonType: Option<string>, keys: seq<string>): (r: map<string, Display>)
    ensures r.Keys == sections.Keys
    decreases |keys|
  {
    if keys == [] || keys[0] !in sections then sections
    else FilterSections(sections[keys[0] := SectionDisplay(keys[0], buttonType)], buttonType, keys[1..])
  }

  /** When every key in the walk has its section, each of them gets its
      `SectionDisplay` and every other section is left as it was. */
  lemma {:induction false} FilterSectionsComplete(sections: map<string, Display>, buttonType: Option<string>, keys: seq<string>)
    requires forall i :: 0 <= i < |keys| ==> keys[i] in sections
    ensures forall i :: 0 <= i < |keys| ==> FilterSections(sections, buttonType, keys)[keys[i]] == SectionDisplay(keys[i], buttonType)
    ensures forall key :: key in sections && key !in keys ==> FilterSections(sections, buttonType, keys)[key] == sections[key]
    decreases |keys|
  {
    if keys != [] {
      var next := sections[keys[0] := SectionDisplay(keys[0], buttonType)];
      FilterSectionsComplete(next, buttonType, keys[1..]);
      var r := FilterSections(sections, buttonType, keys);
      forall i | 0 <= i < |keys|
        ensures r[keys[i]] == SectionDisplay(keys[i], buttonType)
      {
        if i > 0 {
          assert keys[i] == keys[1..][i - 1];
        } else if keys[0] in keys[1..] {
          var j :| 0 <= j < |keys[1..]| && keys[1..][j] == keys[0];
        }
      }
    }
  }

  /** When the key at position `n` has no section, the walk stops there: the
      result is that of the keys before it, and no later key is touched. */
  lemma {:induction false} FilterSectionsStops(sections: map<string, Display>, buttonType: Option<string>, keys: seq<string>, n: nat)
    requires n < |keys| && keys[n] !in sections
    ensures FilterSections(sections, buttonType, keys) == FilterSections(sections, buttonType, keys[..n])
    decreases n
  {
    if n > 0 && keys[0] in sections {
      var next := sections[keys[0] := SectionDisplay(keys[0], buttonType)];
      FilterSectionsStops(next, buttonType, keys[1..], n - 1);
      assert keys[..n][1..] == keys[1..][..n - 1];
    }
  }

  /** The about page: which of its three sections the page has, and their
      inline display. A key absent from `sections` is a section the page
      lacks (`querySelector` returned `null`). */
  class AboutPage {
    var sections: map<string, Display>

    constructor (found: map<string, Display>)
      ensures sections == found
    {
      sections := found;
    }

    /** A click on button `k`: button `k` alone is active; the sections are
        walked in key order; `completed` is false when a missing section ended
        the walk with an exception. */
    method FilterClick(buttons: array<bool>, buttonTypes: seq<Option<string>>, k: nat) returns (completed: bool)
      requires k < buttons.Length && buttons.Length == |buttonTypes|
      modifies this, buttons
      ensures forall j :: 0 <= j < buttons.Length ==> (buttons[j] <==> j == k)
      ensures sections == FilterSections(old(sections), buttonTypes[k], SECTION_KEYS)
      ensures completed <==> forall i :: 0 <= i < |SECTION_KEYS| ==> SECTION_KEYS[i] in old(sections)
    {
      Selection.ActivateOnly(buttons, k);
      var t := buttonTypes[k];
      completed := true;
      var i := 0;
      while i < |SECTION_KEYS|
        modifies this
        invariant 0 <= i <= |SECTION_KEYS|
        invariant sections.Keys == old(sections).Keys
        invariant FilterSections(old(sections), t, SECTION_KEYS) == FilterSections(sections, t, SECTION_KEYS[i..])
        invariant forall j :: 0 <= j < i ==> SECTION_KEYS[j] in old(sections)
        invariant completed
      {
        var key := SECTION_KEYS[i];
        if key !in sections {
          completed := false;
          break;
        }
        sections := sections[key := SectionDisplay(key, t)];
        assert SECTION_KEYS[i..][1..] == SECTION_KEYS[i + 1..];
        i := i + 1;
      }
    }
  }

  /** On a page that has all three sections, a click gives each of them its
      `SectionDisplay`: "all" shows all three, a key shows only its own. */
  lemma AboutFilterAllFound(sections: map<string, Display>, buttonType: Option<string>)
    requires forall i :: 0 <= i < |SECTION_KEYS| ==> SECTION_KEYS[i] in sections
    ensures forall i :: 0 <= i < |SECTION_KEYS| ==>
      FilterSections(sections, buttonType, SECTION_KEYS)[SECTION_KEYS[i]] == SectionDisplay(SECTION_KEYS[i], buttonType)
  {
    FilterSectionsComplete(sections, buttonType, SECTION_KEYS);
  }

  /** On a page without the first section (the sponsor page, say) the about
      handler changes no section at all. */
  lemma AboutFilterWithoutStory(sections: map<string, Display>, buttonType: Option<string>)
    requires "Our Story" !in sections
    ensures FilterSections(sections, buttonType, SECTION_KEYS) == sections
  {
  }
}
