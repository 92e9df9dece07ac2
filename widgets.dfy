/** The small stateful widgets of the page, one class each, and the two pure
    rules that depend on a number the host supplies (scroll position, hour). */
module Widgets {
  import opened Dom
  import opened Text

  /** What the send button reports with `alert`. */
  datatype SendReport = Sent(text: string) | NothingToSend

  /** The chat widget: whether the chat box is open (class `active`) and the
      draft in its text area. */
  class Chat {
    var open: bool
    var draft: string

    constructor ()
      ensures !open && draft == []
    {
      open, draft := false, [];
    }

    /** The chat button toggles the box and leaves the draft alone. */
    method ClickButton()
      modifies this
      ensures open == !old(open) && draft == old(draft)
    {
      open := !open;
    }

    /** The close control always closes the box. */
    method ClickClose()
      modifies this
      ensures !open && draft == old(draft)
    {
      open := false;
    }

    /** Send: a draft that is blank once trimmed changes nothing and is
        reported as such; otherwise the trimmed draft is reported as sent, the
        text area is emptied and the box closes. */
    method ClickSend() returns (report: SendReport)
      modifies this
      ensures Trim(old(draft)) == [] ==> report == NothingToSend && open == old(open) && draft == old(draft)
      ensures Trim(old(draft)) != [] ==> report == Sent(Trim(old(draft))) && !open && draft == []
    {
      var msg := Trim(draft);
      if msg != [] {
        report := Sent(msg);
        draft := [];
        open := false;
      } else {
        report := NothingToSend;
      }
    }

    /** Typing replaces the draft. */
    method Type(text: string)
      modifies this
      ensures draft == text && open == old(open)
    {
      draft := text;
    }
  }

  /** A modal dialog (`initModal`): shown or not (`display` "block"/"none"). */
  class Modal {
    var shown: bool

    constructor ()
      ensures !shown
    {
      shown := false;
    }

    /** The timer set at page load fires: the modal is shown. */
    method DelayElapsed()
      modifies this
      ensures shown
    {
      shown := true;
    }

    /** The close button hides the modal. */
    method ClickClose()
      modifies this
      ensures !shown
    {
      shown := false;
    }

    /** A click on the modal hides it only when it landed on the modal element
        itself, not on its content. */
    method Click(target: ClickTarget)
      modifies this
      ensures target == Overlay ==> !shown
      ensures target == Inside ==> shown == old(shown)
    {
      if target == Overlay {
        shown := false;
      }
    }
  }

  /** The gallery lightbox (`initLightbox`): shown or not, and the source of
      the image it displays. */
  class Lightbox {
    var shown: bool
    var src: string

    constructor ()
      ensures !shown && src == []
    {
      shown, src := false, [];
    }

    /** A click on a gallery item opens the lightbox on that item's image. */
    method ClickItem(itemSrc: string)
      modifies this
      ensures shown && src == itemSrc
    {
      shown := true;
      src := itemSrc;
    }

    /** The close button hides the lightbox and keeps its image. */
    method ClickClose()
      modifies this
      ensures !shown && src == old(src)
    {
      shown := false;
    }

    /** A click on the lightbox hides it only when it landed on the lightbox
        element itself, not on the image. */
    method Click(target: ClickTarget)
      modifies this
      ensures target == Overlay ==> !shown
      ensures target == Inside ==> shown == old(shown)
      ensures src == old(src)
    {
      if target == Overlay {
        shown := false;
      }
    }
  }

  /** The welcome popup (`initWelcomePopup`): the overlay's `active` and
      `fade-out` classes. */
  class WelcomePopup {
    var active: bool
    var fadingOut: bool

    constructor ()
      ensures !active && !fadingOut
    {
      active, fadingOut := false, false;
    }

    /** The timer set at page load fires: the popup becomes active. */
    method DelayElapsed()
      modifies this
      ensures active && fadingOut == old(fadingOut)
    {
      active := true;
    }

    /** Closing deactivates the popup and starts the fade-out. */
    method Close()
      modifies this
      ensures !active && fadingOut
    {
      active := false;
      fadingOut := true;
    }

    /** The fade-out timer fires. */
    method FadeElapsed()
      modifies this
      ensures !fadingOut && active == old(active)
    {
      fadingOut := false;
    }

    /** A click on the overlay closes the popup only when it landed on the
        overlay itself. */
    method Click(target: ClickTarget)
      modifies this
      ensures target == Overlay ==> !active && fadingOut
      ensures target == Inside ==> active == old(active) && fadingOut == old(fadingOut)
    {
      if target == Overlay {
        Close();
      }
    }
  }

  /** The display a click gives an accordion panel: "block" becomes "none",
      anything else (a cleared inline style included) becomes "block". */
  function TogglePanel(d: Display): (e: Display)
    ensures e == Block <==> d != Block
    ensures e == Block || e == Hidden
  {
    if d == Block then Hidden else Block
  }

  /** From "block" or "none" two clicks restore the panel; from a cleared
      style the first click opens it and the second closes it. */
  lemma TogglePanelTwice(d: Display)
    ensures d != Unset ==> TogglePanel(TogglePanel(d)) == d
    ensures d == Unset ==> TogglePanel(TogglePanel(d)) == Hidden
  {
  }

  /** One accordion header: its `active` class and its next sibling panel's
      display, `None` when the header has no next sibling. */
  class Accordion {
    var active: bool
    var panel: Option<Display>

    constructor (panel: Option<Display>)
      ensures !active && this.panel == panel
    {
      active := false;
      this.panel := panel;
    }

    /** A click toggles the header and, when there is a panel, the panel. */
    method Click()
      modifies this
      ensures active == !old(active)
      ensures old(panel).None? ==> panel == old(panel)
      ensures old(panel).Some? ==> panel == Some(TogglePanel(old(panel).value))
    {
      active := !active;
      if panel.Some? {
        panel := Some(TogglePanel(panel.value));
      }
    }
  }

  /** The scroll position past which the back-to-top button shows. */
  const BACK_TO_TOP_THRESHOLD := 100

  /** The back-to-top button's display at scroll offset `scrollTop`. */
  function BackToTopDisplay(scrollTop: int): (d: Display)
    ensures d == Block || d == Hidden
  {
    if scrollTop > BACK_TO_TOP_THRESHOLD then Block else Hidden
  }

  /** The button shows exactly past the threshold, so scrolling further down
      never hides it and scrolling back up never shows it. */
  lemma BackToTopMonotone(low: int, high: int)
    requires low <= high
    ensures BackToTopDisplay(low) == Block ==> BackToTopDisplay(high) == Block
    ensures BackToTopDisplay(high) == Hidden ==> BackToTopDisplay(low) == Hidden
    ensures BackToTopDisplay(low) == Block <==> low > BACK_TO_TOP_THRESHOLD
  {
  }

  datatype Greeting = Morning | Afternoon | Evening

  /** The greeting for the hour the host clock reports. */
  function GreetingFor(hour: int): (g: Greeting)
    ensures g == Morning <==> hour < 12
    ensures g == Afternoon <==> 12 <= hour < 18
    ensures g == Evening <==> 18 <= hour
  {
    if hour < 12 then Morning
    else if hour < 18 then Afternoon
    else Evening
  }

  function GreetingOrder(g: Greeting): nat {
    match g
    case Morning => 0
    case Afternoon => 1
    case Evening => 2
  }

  /** The welcome message written into the welcome box at `hour`. */
  function WelcomeMessage(hour: int): (m: string)
    ensures hour < 12 ==> m == "Good Morning! Welcome to Loxion Legends \U{2600}\U{FE0F}"
    ensures 12 <= hour < 18 ==> m == "Good Afternoon! Explore our world \U{1F60E}"
    ensures 18 <= hour ==> m == "Good Evening! Ready for some vibes? \U{1F319}"
  {
    match GreetingFor(hour)
    case Morning => "Good Morning! Welcome to Loxion Legends \U{2600}\U{FE0F}"
    case Afternoon => "Good Afternoon! Explore our world \U{1F60E}"
    case Evening => "Good Evening! Ready for some vibes? \U{1F319}"
  }

  /** The hours of a day fall into three runs: 0 to 11 morning, 12 to 17
      afternoon, 18 to 23 evening; and the greeting never goes back as the
      hour advances. */
  lemma GreetingRuns(h1: int, h2: int)
    requires h1 <= h2
    ensures GreetingOrder(GreetingFor(h1)) <= GreetingOrder(GreetingFor(h2))
    ensures 0 <= h1 < 12 ==> GreetingFor(h1) == Morning
    ensures 12 <= h1 < 18 ==> GreetingFor(h1) == Afternoon
    ensures 18 <= h1 < 24 ==> GreetingFor(h1) == Evening
  {
  }

  /** Two hours get the same message exactly when they get the same greeting,
      so the message tells which part of the day it is. */
  lemma WelcomeMessageTellsGreeting(h1: int, h2: int)
    ensures WelcomeMessage(h1) == WelcomeMessage(h2) <==> GreetingFor(h1) == GreetingFor(h2)
  {
  }
}
