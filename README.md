# Loxion Legends page script, modelled in Dafny

The Loxion Legends site runs one script, `scripts/main.js`. It wires up a
handful of independent behaviours: a contact-form validator, live search boxes,
category filter buttons, scroll-triggered reveals, and widgets that open and
close (chat box, modal, gallery lightbox, welcome popup, accordions). There is
also a back-to-top button and a greeting that depends on the time of day.

This project takes those behaviours out of the DOM and states them over plain
data. Strings are `seq<char>`. Coordinates and the hour are integers supplied
by the caller. A list of elements is an `array` whose entries are the flags the
script rewrites in place. A widget whose state the handlers change is a
`class`. Modules:

- `Dom` (`dom.dfy`): `Option`, the inline `display` value (`Block` = "block",
  `Hidden` = "none", `Unset` = ""), and where a click landed.
- `Text` (`text.dfy`): ASCII `toLowerCase`, `trim` and `includes`, each related
  to an independent definition (no white space at the ends, an occurrence
  index).
- `Viewport` (`viewport.dfy`): the test `top < innerHeight - offset`, the five
  reveal loops with their offsets, and the one-way reveal flag over a run of
  scroll events. For the sponsor cards, the inline `opacity` "0"/"1" is the
  revealed flag and the inline `transform` is an integer `translateX` offset
  in pixels (`dx`).
- `ContactForm` (`contact_form.dfy`): the validator's decision list, proved to
  report the earliest violated rule, and the form's submit handler.
- `Search` (`search.dfy`): the service, sponsor and gallery search boxes.
- `Selection` (`selection.dfy`): exactly one active element among siblings
  (navigation links, filter buttons).
- `Category` (`category.dfy`): the two `.filter-btn` click handlers, one for the
  sponsor cards and one for the about page's section map.
- `Widgets` (`widgets.dfy`): chat, modal, lightbox, welcome popup, accordion,
  the back-to-top threshold and the greeting.

Points where the script's behaviour is easy to misread:

- The contact form checks three fields: name, email and message.
- An overlay (modal, lightbox, welcome popup) closes on a click only when the
  click target is the overlay element itself (`e.target === overlay`). Clicks
  on its content leave it open.
- A `data-type` attribute can be absent. Two absent types compare equal
  (`undefined === undefined`), so a button without a type shows exactly the
  cards without one.
- The about handler indexes `sections[key]` without a null check. A missing
  section throws a `TypeError`, and the keys after it are never processed.
  `Category.FilterSections` models that stop.

## Model

| member | source | states |
|---|---|---|
| `Text.Lower` | scripts/main.js:364 | lower-casing keeps the length, leaves no upper-case ASCII letter, keeps every other character, and moves each upper-case letter down by 32 |
| `Text.LowerIdempotent` | scripts/main.js:364-368 | lower-casing an already lower-cased string changes nothing |
| `Text.LowerAppend` | scripts/main.js:364 | lower-casing distributes over concatenation |
| `Text.Leading` | scripts/main.js:203 | the count of leading characters that `trim` drops: all of them are white space, and the character after them is not |
| `Text.Trailing` | scripts/main.js:203 | the count of trailing characters that `trim` drops: all of them are white space, and the character before them is not |
| `Text.Trim` | scripts/main.js:203-205 | the trimmed string is no longer than the input and has no white space at either end |
| `Text.TrimSlice` | scripts/main.js:203-205 | the trimmed string is a contiguous slice of the input, and every character outside the slice is white space |
| `Text.TrimEmpty` | scripts/main.js:210 | trimming gives "" exactly when the input is all white space, which is when `!name` and the other checks hold after trimming |
| `Text.TrimIdempotent` | scripts/main.js:88 | trimming twice is trimming once |
| `Text.Includes` | scripts/main.js:369 | `includes` is false when the needle is longer than the haystack, and true when the haystack starts with the needle |
| `Text.IncludesIffOccurs` | scripts/main.js:369 | `includes` is true exactly when the needle occurs at some index of the haystack |
| `Text.IncludesEmpty` | scripts/main.js:369 | the empty string is included in every string |
| `Text.IncludesChar` | scripts/main.js:214 | `includes` of a one-character string is true exactly when that character appears in the string |
| `Text.IncludesPrefix` | scripts/main.js:369 | if a longer needle occurs, each of its prefixes occurs too |
| `Viewport.InViewport` | scripts/main.js:21-22 | `isElementInViewport` holds exactly when the element's top edge lies more than `offset` pixels above the bottom of the viewport |
| `Viewport.InViewportMonotone` | scripts/main.js:21-22 | an element higher up, a taller viewport or a smaller offset can only make the test pass more easily |
| `Viewport.SiteOffset` | scripts/main.js:119 | each reveal site compares with offset 50 or the default 100, and with 50 exactly for `animateCards` (line 262) and `checkFade` (line 294); `fadeInOnScroll` (line 311) and `revealStories` (line 328) use 100 |
| `Viewport.Revealed` | scripts/main.js:22-23 | after one pass, an element is revealed exactly when it already was or `top < innerHeight - offset` |
| `Viewport.RevealIdempotent` | scripts/main.js:292-296 | running a reveal pass twice at the same scroll position equals running it once |
| `Viewport.RevealOneWay` | scripts/main.js:309-313 | a pass never removes the revealed mark, and an element that fails the test is left as it was |
| `Viewport.AfterScrolls` | scripts/main.js:300-301 | the state after the initial check and any sequence of scroll events (also lines 317-318 and 334-335) has one flag per element, and every element revealed at the start is still revealed |
| `Viewport.AfterScrollsEverInView` | scripts/main.js:300-301 | after the initial check and any sequence of scroll events, an element is revealed exactly when it started revealed or passed the test at one of those events |
| `Viewport.Reveal` | scripts/main.js:325-332 | the in-place loop of every reveal site leaves the flags equal to `Revealed` of the old flags, with that site's offset: 100 for `initFadeSections` (line 119, the default at line 22), `fadeInOnScroll` and `revealStories`, and 50 for `animateCards` and `checkFade`; for the sponsor cards this is the opacity alone, and `AnimateCards` also moves them |
| `Viewport.HideSponsorCards` | scripts/main.js:248-256 | at page load every sponsor card starts unrevealed (opacity "0") at its start offset, -50px at even positions and 50px at odd ones, so the cards are at rest in the sense of `CardsAtRest` |
| `Viewport.AnimateCards` | scripts/main.js:258-267 | one pass of `animateCards` over the cards in place: the opacity flags become `Revealed` of the old ones with offset 50, and each card that passes the test slides home to `translateX(0)` while every other keeps its offset |
| `Viewport.AnimateKeepsCardsAtRest` | scripts/main.js:248-266 | from cards that are each either revealed at offset 0 or unrevealed at their start offset, one pass of `animateCards` leaves them so: opacity and slide stay in step |
| `ContactForm.Violates` | scripts/main.js:214 | the email rule rejects exactly when `email.includes("@")` or `email.includes(".")` is false |
| `ContactForm.Validate` | scripts/main.js:210-215 | a rejection names a rule that the trimmed input violates, and no earlier rule is violated; acceptance means that no rule is violated |
| `ContactForm.EarliestViolationReported` | scripts/main.js:210-215 | whenever some rule is violated, the input is rejected and the reported rule comes no later in the order than that rule |
| `ContactForm.PermissiveEmailExample` | scripts/main.js:213-214 | "a.b@" satisfies the email rule, and ("Jo", "a.b@", "short") is rejected by the name rule |
| `ContactForm.BlankFieldIsMissing` | scripts/main.js:203-211 | because the fields are trimmed first, an email made only of white space is reported as "Please fill in all fields.", whatever the other fields hold |
| `ContactForm.MissingFieldAlsoFailsLater` | scripts/main.js:210-215 | a blank field also breaks a later rule, so the first rule only decides which message a blank field gets |
| `ContactForm.RuleMessage` | scripts/main.js:211-215 | the message shown for a rejection is never the success message |
| `ContactForm.StatusTellsOutcome` | scripts/main.js:211-218 | no rejection message equals the success message, and two rules share a message only when they are the same rule |
| `ContactForm.Form.Submit` | scripts/main.js:200-220 | the verdict is that of the trimmed fields; a rejection shows the rule's message in red and leaves the fields as typed; acceptance shows "Message sent successfully!" in light green and empties the fields |
| `Search.Matches` | scripts/main.js:368-369 | the search test holds exactly when the lower-cased query occurs at some index of the lower-cased text, and always for an empty query |
| `Search.SearchDisplay` | scripts/main.js:367-373 | an item is shown ("block") exactly when the lower-cased query occurs in its lower-cased text, and is otherwise hidden ("none") |
| `Search.EmptyQueryShowsAll` | scripts/main.js:369 | an empty query shows every item |
| `Search.CaseInsensitive` | scripts/main.js:364-368 | the outcome does not change when the text or the query is lower-cased first |
| `Search.LongerQueryShowsFewer` | scripts/main.js:363-374 | an item shown for a longer query is also shown for each prefix of that query |
| `Search.PhotoExample` | scripts/main.js:390-393 | the query "photo" shows the alt text "Photo1" and hides "Video2" |
| `Search.FilterItems` | scripts/main.js:410-417 | one key-up on the service search (lines 363-374) or the sponsor search sets each item's display to `SearchDisplay` of that item's own text |
| `Search.VideoName` | scripts/main.js:396 | a video without `data-name` is searched as "", and one with it is searched on that value |
| `Search.UnnamedVideoShownOnlyForEmptyQuery` | scripts/main.js:395-398 | a video without `data-name` is shown exactly when the query is empty |
| `Search.GallerySearch` | scripts/main.js:383-399 | one key-up on the gallery search sets every photo by its `alt` and every video by its name, each on its own |
| `Selection.ActivateOnly` | scripts/main.js:101-108 | after a click on a navigation link (or filter button), exactly the clicked element is active |
| `Selection.CountActive` | scripts/main.js:424-425 | the number of active elements is at most the number of elements, and is zero exactly when none is active |
| `Selection.ExactlyOneActive` | scripts/main.js:424-425 | the state that a click leaves has exactly one active element |
| `Category.CardDisplay` | scripts/main.js:429-436 | the sponsor filter only ever sets "block" or "none" |
| `Category.CardShownIff` | scripts/main.js:430-434 | type "all" shows every card; any other type (an absent one included) shows a card exactly when the card's type equals it |
| `Category.SponsorFilterClick` | scripts/main.js:421-438 | a click activates only the clicked button and sets each sponsor card by `CardDisplay` of the button's type and the card's own type |
| `Category.SectionDisplay` | scripts/main.js:460-464 | the about filter only ever sets "" or "none" |
| `Category.SectionsFollowCardRule` | scripts/main.js:459-465 | a section is shown exactly when the sponsor rule would show a card whose type is the section's key |
| `Category.FilterSections` | scripts/main.js:459-465 | walking the keys never adds or removes a section |
| `Category.FilterSectionsComplete` | scripts/main.js:459-465 | when every key has its section, each key's section gets its `SectionDisplay` and every other section is untouched |
| `Category.FilterSectionsStops` | scripts/main.js:444-448 | when a key's section is missing, the walk ends there: the result is that of the keys before it |
| `Category.AboutPage.FilterClick` | scripts/main.js:450-467 | a click activates only the clicked button, walks the three keys in order, and reports whether it completed, which happens exactly when all three sections exist |
| `Category.AboutFilterAllFound` | scripts/main.js:459-465 | on a page that has all three sections, "all" shows all three and a key shows only its own section |
| `Category.AboutFilterWithoutStory` | scripts/main.js:445 | on a page without the "Our Story" section, the about handler changes no section |
| `Widgets.Chat.ClickButton` | scripts/main.js:85 | the chat button toggles the box and keeps the draft |
| `Widgets.Chat.ClickClose` | scripts/main.js:86 | the close control always closes the box |
| `Widgets.Chat.ClickSend` | scripts/main.js:87-94 | a blank draft (after trimming) changes nothing; otherwise the trimmed draft is reported as sent, the draft emptied and the box closed |
| `Widgets.Chat.Type` | scripts/main.js:59 | typing into the text area replaces the draft and does not open or close the box |
| `Widgets.Modal.DelayElapsed` | scripts/main.js:145 | the page-load timer shows the modal |
| `Widgets.Modal.ClickClose` | scripts/main.js:146 | the close button hides the modal |
| `Widgets.Modal.Click` | scripts/main.js:147 | a click on the modal element itself hides it; a click inside leaves it as it was |
| `Widgets.Lightbox.ClickItem` | scripts/main.js:161-164 | a click on a gallery item shows the lightbox with that item's image |
| `Widgets.Lightbox.ClickClose` | scripts/main.js:165 | the close button hides the lightbox |
| `Widgets.Lightbox.Click` | scripts/main.js:166 | a click on the lightbox element itself hides it; a click on the image leaves it as it was |
| `Widgets.WelcomePopup.DelayElapsed` | scripts/main.js:179 | the page-load timer activates the popup |
| `Widgets.WelcomePopup.Close` | scripts/main.js:181-183 | closing deactivates the popup and starts its fade-out |
| `Widgets.WelcomePopup.FadeElapsed` | scripts/main.js:184 | the fade-out timer removes `fade-out` and nothing else |
| `Widgets.WelcomePopup.Click` | scripts/main.js:187-188 | a click on the overlay itself closes the popup; a click inside leaves it as it was |
| `Widgets.TogglePanel` | scripts/main.js:132 | a click makes a panel "block" exactly when it was not "block", and otherwise "none" |
| `Widgets.TogglePanelTwice` | scripts/main.js:132 | from "block" or "none", two clicks restore the panel; from a cleared style they leave it "none" |
| `Widgets.Accordion.Click` | scripts/main.js:128-134 | a click toggles `active` and, when there is a next sibling, toggles the panel |
| `Widgets.BackToTopDisplay` | scripts/main.js:37 | the back-to-top button is only ever "block" or "none" |
| `Widgets.BackToTopMonotone` | scripts/main.js:36-38 | the button shows exactly when the scroll offset passes 100, so scrolling further down never hides it |
| `Widgets.GreetingFor` | scripts/main.js:346-348 | the greeting is the morning one exactly before hour 12, the afternoon one exactly from 12 to 17, and the evening one exactly from 18 on |
| `Widgets.WelcomeMessage` | scripts/main.js:343-348 | the welcome box's message for each of the three hour ranges, emoji included |
| `Widgets.WelcomeMessageTellsGreeting` | scripts/main.js:346-348 | two hours get the same message exactly when they get the same greeting |
| `Widgets.GreetingRuns` | scripts/main.js:346-348 | hours 0-11 give the morning greeting, 12-17 the afternoon one, and 18-23 the evening one; the greeting never goes back as the hour advances |

## Left out

- Element creation, injected HTML and CSS, inline styling other than `display` and the sponsor cards' `opacity` and `transform`, the `transition` style (line 255), the welcome box markup and `console.log` (scripts/main.js:11-17, 48-77, 350-354). These only affect presentation.
- Timer delays (2000 ms auto-open, 600 ms fade-out, 500 ms click highlight). A timer firing is an event method (`DelayElapsed`, `FadeElapsed`); wall-clock time is not modelled. The sponsor cards' click highlight (lines 276-281) is left out entirely.
- `alert`: `Chat.ClickSend` returns what is reported. The alert wording is not modelled.
- `window.scrollTo` on the back-to-top click is a host call and is not modelled.
- `new Date().getHours()`: the hour is a parameter. `WelcomeMessage` gives the text for a given hour.
- `getBoundingClientRect`, `innerHeight` and `scrollTop` are integers that the caller supplies. Real scroll events and fractional pixels are not modelled.
- `toLowerCase` and `trim` cover ASCII only. Non-ASCII case mappings and non-ASCII white space (such as U+00A0) are not modelled. Lengths count characters, not UTF-16 code units.
- `innerText`, `alt` and `data-*` values are inputs. How the browser derives them from markup is not modelled.
- Listener registration, `DOMContentLoaded` ordering, and the guards that skip a widget whose markup is missing (`if(modal && closeBtn)` and the like) are not modelled. Each model object stands for a widget that was wired.
- Both `.filter-btn` handlers run on one click. Each is specified on its own, and their combination is not a single step.
- `Widgets.Modal` and `Widgets.Lightbox` start hidden, `Widgets.WelcomePopup` starts neither active nor fading out, `Widgets.Accordion` starts with its header not active, and `ContactForm.Form` starts with an empty status text and no colour. The script itself leaves these initial states to the markup and the stylesheet.
- `ContactForm.Form.Submit` does not model the intermediate writes (text "" and colour red before the checks), because no handler can observe them. Only the final status is stated.
- `ContactForm.Form.Submit` models `form.reset()` as emptying the three fields. It assumes the markup gives the controls no default values.
- Element identity is not modelled. Each list of elements is its own array, so aliasing between lists (the same element matched by two selectors) is not captured.
