# Portfolio page script: typing effect, theme toggle and project gallery

This project models the stateful parts of a personal-portfolio page's client script
(`script.js`) and proves properties of them:

- **Typing effect** (the hero subtitle). The script keeps `phraseIndex`, `charIndex`
  and `isDeleting`, and it sets the subtitle text. Each call of `typeEffect` shows one
  character more or one fewer and switches mode at the ends of the phrase. After a full
  deletion it moves cyclically to the next phrase. It then reschedules itself. The
  class `Typing.Typewriter` holds that state. Its `TypeEffect` method returns the delay
  the script passes to `setTimeout` (100, 50, 2000 or 500 ms). The pure function
  `Typing.Step` specifies one call, and `Typing.Run` specifies `k` calls in a row.
- **Theme toggle.** A click flips the body's `data-theme` attribute: "default" becomes
  "purple", and every other value becomes "default".
- **Project modal and gallery.** A click on a project card trims the card's title and
  looks it up in the project table. A known title loads that project's images and opens
  the modal. Opening gives the first image the `active` role, the second `next` and,
  when there are three or more images, the last `prev`; it also lights the first dot. `updateGallery` wraps a requested index, gives
  every image its role and lights the matching dot. The arrow buttons and arrow keys
  move by one image. Escape, the close button and the backdrop close the modal. Keys
  are ignored while the modal is closed. The class `Modal.ProjectModal` holds this
  state. The gallery images and the dots are arrays that the methods update in place.

The project table is abstracted to a map from title to image count. The initial
subtitle text and the initial dot flags come from the page's markup, so they are
constructor parameters.

Files: `wrappers.dfy` (Option), `js_text.dfy` (the JavaScript `substring` and `trim`
built-ins), `theme.dfy`, `typing.dfy`, `gallery.dfy` (the gallery's pure rules) and
`modal.dfy` (the modal class).

## Model

| member | source | states |
|---|---|---|
| `JsText.Substring0` | script.js:171-174 | `substring(0, end)` clamps `end` into [0, \|s\|] and returns that prefix of `s` |
| `JsText.Trim` | script.js:386 | `trim()` drops only JavaScript whitespace and line terminators, from both ends; the result neither starts nor ends with one |
| `JsText.TrimIdempotent` | script.js:386 | trimming an already trimmed title changes nothing |
| `Theme.Toggled` | script.js:132-146 | the new theme is "purple" exactly when the current one is "default"; otherwise it is "default", including when the attribute is absent |
| `Theme.Page.ClickThemeButton` | script.js:131-155 | a click sets `data-theme` to the toggled value of the attribute it read |
| `Theme.ToggleAlternates` | script.js:135-146 | from any starting value, after one click the theme alternates between two different values |
| `Theme.TwoClicksFromDefault` | script.js:135-146 | two clicks starting from "default" come back to "default" |
| `Typing.Step` | script.js:167-190 | one call keeps the phrase index valid; from a consistent state it reaches a consistent state in which the subtitle shows exactly the first `charIndex` characters of the current phrase |
| `Typing.Run` | script.js:167-190 | any number of calls keeps the index valid and the state consistent; after at least one call the subtitle shows the right prefix |
| `Typing.StartConsistent` | script.js:158-161 | the initial state (phrase 0, nothing typed, typing) is consistent when no phrase is empty |
| `Typing.PagePhrasesNonEmpty` | script.js:158 | both of the page's phrases are non-empty |
| `Typing.RunAdd` | script.js:181-188 | `a` calls followed by `b` calls equal `a + b` calls, and their delays add up |
| `Typing.TypingFinishes` | script.js:170-181 | typing runs until the whole phrase is shown and then switches to deleting; each call waits 100 ms except the last, which waits 2000 ms |
| `Typing.DeletingFinishes` | script.js:170-186 | deleting runs until nothing is shown, then moves to phrase `(i + 1) % n` and switches to typing; each call waits 50 ms except the last, which waits 500 ms |
| `Typing.PhraseCycle` | script.js:167-190 | from the start of phrase `i`, 2·len calls later the effect is at the start of phrase `(i + 1) % n`, after (len − 1)·150 + 2500 ms |
| `Typing.PagePhrasesCycle` | script.js:158-192 | with the page's two phrases, the effect returns to the start of the first phrase after 82 calls and 10850 ms, which is 11850 ms after page load once the 1000 ms first delay is counted |
| `Typing.EmptyPhraseNeverDeletes` | script.js:174-188 | with an empty phrase the effect never switches to deleting: `charIndex` grows by one per call, the text stays empty, and each call waits 100 ms |
| `Typing.Typewriter.constructor` | script.js:158-161 | the effect starts at phrase 0, with no characters typed, in typing mode |
| `Typing.Typewriter.TypeEffect` | script.js:167-190 | the shown prefix grows or shrinks by one character; reaching the end while typing starts deleting and waits 2000 ms; reaching 0 while deleting moves to the next phrase cyclically, starts typing and waits 500 ms; otherwise mode and phrase stay the same and the wait is 50 ms (deleting) or 100 ms (typing); consistency is preserved; the new state equals `Step` of the old one |
| `Gallery.Wrap` | script.js:447-449 | with at least one image the index ends in [0, total); an in-range request is kept; a negative request becomes total − 1; a request ≥ total becomes 0 |
| `Gallery.Succ` | script.js:459 | `(k + 1) % total` is the next image cyclically |
| `Gallery.Pred` | script.js:461 | `(k - 1 + total) % total` is the previous image cyclically |
| `Gallery.RoleAt` | script.js:457-463 | image `i` is active iff it is `k`; it is `next` iff it is image `(k + 1) % total` and not `k`; it is `prev` iff it is image `(k - 1 + total) % total` and neither earlier case claimed it |
| `Gallery.Roles` | script.js:454-465 | the roles `updateGallery(k)` gives, one per image; `RolesCharacterized` and `RoleCounts` state what they are |
| `Gallery.InitialRole` | script.js:431-433 | for every image of the project, the role given at opening is the role `updateGallery(0)` would give that image |
| `Gallery.InitialRoles` | script.js:425-436 | the roles `loadModalData` gives, one per image of the project; `InitialRolesAreFirstImage` states what they are |
| `Gallery.DotFlags` | script.js:470-474 | the flags `updateDots(index)` leaves, one per dot; `DotFlagsCount` states what they are |
| `Gallery.RolesCharacterized` | script.js:454-465 | image `i` is active iff `i == k`; it is `next` iff it follows `k` and is not `k`; it is `prev` iff it precedes `k` and neither earlier case claimed it; every other image has no role |
| `Gallery.RoleCounts` | script.js:454-465 | exactly one image is active; exactly one is `next` when there are at least 2 images (none otherwise); exactly one is `prev` when there are at least 3 (none otherwise) |
| `Gallery.NeighboursHaveRoles` | script.js:459-462 | with 3 or more images, the image after the active one is `next` and the one before it is `prev` |
| `Gallery.InitialRolesAreFirstImage` | script.js:431-438 | for every image count, the roles given when the modal opens are the roles `updateGallery(0)` gives |
| `Gallery.DotFlagsCount` | script.js:470-474 | dot `i` is lit iff `i == index`; exactly one dot is lit when `index` names a dot, and none otherwise |
| `Modal.ProjectModal.constructor` | script.js:379-380 | at page load there is no current project, the index is 0 and the modal is closed |
| `Modal.ProjectModal.UpdateDots` | script.js:470-474 | afterwards the dot flags are exactly `i == index` |
| `Modal.ProjectModal.UpdateGallery` | script.js:441-468 | with no current project nothing changes; otherwise the index becomes `Wrap(newIndex, total)`, every image gets the role that index gives it, and only its dot is lit; the project, the image set and the modal state are unchanged |
| `Modal.ProjectModal.LoadModalData` | script.js:421-438 | fresh images, one per image of the project: the first active, the second `next`, the last `prev` when there are three or more; the first dot lit |
| `Modal.ProjectModal.OpenModal` | script.js:476-479 | the modal is open and page scrolling is locked |
| `Modal.ProjectModal.CloseModal` | script.js:481-488 | the modal is closed and page scrolling is unlocked; nothing else changes |
| `Modal.ProjectModal.ClickCard` | script.js:383-395 | a known trimmed title becomes the current project, at image 0, with the modal open and the gallery showing image 0; an unknown title changes nothing |
| `Modal.ProjectModal.ClickPrev` | script.js:490-492 | moves the gallery to `Wrap(currentImgIndex - 1, total)` |
| `Modal.ProjectModal.ClickNext` | script.js:493-495 | moves the gallery to `Wrap(currentImgIndex + 1, total)` |
| `Modal.ProjectModal.KeyDown` | script.js:498-504 | while the modal is closed no key changes anything; Escape closes the modal; ArrowLeft and ArrowRight act like `updateGallery(currentImgIndex ∓ 1)`; any other key changes nothing |

## Left out

- The particle background (script.js:4-124) is left out. It works on random floating-point positions, square-root distances and canvas drawing in an endless animation-frame loop.
- The GSAP and ScrollTrigger animations are left out: the glow fade on each theme click, the section reveals, the timeline progress and the project batches. They are calls into an external animation library.
- The VanillaTilt set-up (script.js:310-316) and the footer year (script.js:318) are left out. They are calls into a library and into the clock.
- The infinite-scroller cloning (script.js:226-246) and the navbar's scroll class (script.js:196-202) are left out. They are DOM manipulation only.
- Writing the modal's title, tag, description and repository link, and building the stack-icon HTML (script.js:405-418), are left out. They are text written to the DOM. Each gallery image's `src`, `data-index` and the `--n` style property are left out for the same reason.
- The contents of `projectsData` (script.js:323-367) are left out. The table is a map from title to image count, so any table can be supplied.
- The link clicks that stop propagation (script.js:398-401) are left out. They only keep a link click from also counting as a card click.
- Typing.Step: lengths and `substring` indices count Unicode code points, while JavaScript's `length` and `substring` count UTF-16 code units. The two agree only for text inside the Basic Multilingual Plane (U+0000 to U+FFFF), which holds for the page's own phrases. For a phrase with a character outside it, such as an emoji, the script takes two calls per such character and shows a lone surrogate in between. The model takes one call. So `Typing.PhraseCycle`'s call count and delay, and `Typing.Typewriter.TypeEffect`, match the script only for such BMP phrases.
- Timing is left out. `setTimeout` is modelled by the delay each step returns, and the 1000 ms start delay is the constant `Typing.StartDelay`. Real scheduling and interleaving with other events are not modelled.
- Modal.ProjectModal.ClickCard: the model looks titles up only among the table's own keys. A card titled like an `Object.prototype` member (for example "toString") would make the script's lookup succeed and then crash in `loadModalData`. The model does not capture this.
- Modal.ProjectModal.ClickCard: a card with no `h3` heading would make the script throw. The model always takes the title as given.
- Modal.ProjectModal.UpdateGallery: the model treats the gallery images as exactly the images built by the last `loadModalData`. Any other `.gallery-item` elements the markup might hold are not modelled.
- Typing.Typewriter.TypeEffect: integers are unbounded. The 2^53 precision limit of JavaScript numbers is not modelled. That limit could only be reached with an empty phrase, whose `charIndex` grows without bound.
