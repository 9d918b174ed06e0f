# UI state machines of a portfolio page, in Dafny

The page script `main.js` is mostly 3D rendering and animation glue. This
project models the small state machines inside it that decide what the user
sees. Each one is proved against a specification:

- **Throttle** (`Throttling`): `throttle(func, limit)` wraps a function.
  A closure flag `inThrottle` lets one call through and drops the others
  until a timeout clears the flag. The wrapped function is represented by a
  count of how often it ran. The timeout is an explicit `TimerFire` event.
- **Scramble text** (`Scramble`): hovering an element starts a repeating
  interval. Each tick rewrites the text: the first `i` characters are the
  original ones and every other character is drawn from a 28-character
  alphabet. When `i` has reached the text length, the interval clears itself
  and restores the original text. `scramble()` restarts the effect and
  `reset()` cancels it. Interval handles are modelled explicitly. Each
  interval keeps its own counter `i`, and the callback clears
  `this.scrambleInterval` rather than its own handle. The class invariant
  says at most one interval is live and it is the current one, which makes
  the two the same. Random picks are passed in by the caller, one per
  position per tick.
- **Menu** (`MenuToggle`): the closure flag `isOpen` is written into the
  body's `no-scroll` class, the `active` class of the toggle button and of
  the navigation element, and the toggle's `aria-expanded` attribute. A
  click on a navigation link closes an open menu.
- **Header** (`HeaderScroll`): on every scroll update the header has the
  `scrolled` class exactly when the direction is 1 (downward).
- **Sound toggle** (`SoundToggle`): a click flips `audio.muted`. It sets
  the button's `is-muted` class to the new flag and `aria-pressed` to the
  old one, so `aria-pressed` means "sound on".

`Dom` holds the shared document model. An element has a set of classes, a
map of attributes and its text. An audio element has its `muted` flag.
`classList.toggle(name, force)` makes the class present exactly when `force`
holds. `setAttribute` with a boolean stores `"true"` or `"false"`.

Throttle, scramble text, menu and sound toggle each have a pure
specification: a view datatype, a step function and lemmas over it. Each
also has a class whose methods change the fields in place and whose
`ensures` tie the new view to the step function of the old one. The header
rule is the exception: it keeps no state of its own, so its step is the
function `Scrolled` over the header's class set, and its update is the
module-level method `OnUpdate` on a possibly missing `Dom.Element`.

One might expect a text of length N to be revealed in N ticks, with K
characters shown after the K-th tick. The code behaves differently, and the
model follows the code. The tick with counter
`i` reveals `i` characters, so the first tick reveals none. The K-th tick
reveals K - 1 characters. The interval stops on the tick whose counter
reaches N, which is tick N + 1. Beyond the revealed prefix, a drawn
character can match the original by chance. So the model states that the
prefix agrees and the rest comes from the alphabet. It does not claim that
exactly K characters agree.

The alphabet is modelled as written in the file. The em dash in it was
decoded as three characters (U+00E2, U+20AC, U+201D), so it has 28
characters rather than 26.

## Model

| member | source | states |
|---|---|---|
| Dom.BoolText | main.js:449 | a boolean passed to `setAttribute` is stored as "true" exactly when it is true and "false" exactly when it is false |
| Dom.WithClass | main.js:446-448 | after `classList.toggle(name, force)` the class is present iff `force`, and every other class is unchanged |
| Dom.Element.AddClass | main.js:473 | `classList.add` adds the class and changes nothing else |
| Dom.Element.RemoveClass | main.js:474 | `classList.remove` removes the class and changes nothing else |
| Dom.Element.ToggleClass | main.js:446 | `classList.toggle(name, force)` leaves the class list as `WithClass` describes and changes nothing else |
| Dom.Element.SetAttribute | main.js:449 | `setAttribute(name, bool)` maps the name to the boolean's text and leaves the other attributes alone |
| Scramble.Frame | main.js:112-119 | a tick's rebuilt text has the original's length, agrees with it below `i` and uses alphabet characters elsewhere; with `i` at least the length it is the original |
| Scramble.Step | main.js:111-125 | a tick advances the counter by one; the reveal stays active iff the counter was below the length; the text shows the revealed prefix, and on the stopping tick it is the original; an inactive reveal gets no ticks |
| Scramble.RunStopped | main.js:120-124 | the model's stand-in for "a cleared interval never fires again": ticks applied to a stopped reveal leave it unchanged (helper for `RunActive`) |
| Scramble.RunActive | main.js:110-125 | from an active reveal with counter c at most N, after k ticks the reveal is active with counter c + k and shows c + k - 1 characters while c + k is at most N; past that it has stopped with exactly the original text and counter N + 1 |
| Scramble.FullReveal | main.js:108-125 | from a restart, whatever text is showing, a text of length N is still being revealed after N ticks and is back to exactly the original after N + 1 |
| Scramble.Cancel | main.js:127-130 | `reset()` leaves no active reveal and the original text, whatever the progress |
| Scramble.CancelTwice | main.js:127-130 | resetting twice has the same effect as resetting once |
| Scramble.ScrambleText.constructor | main.js:100-107 | the controller remembers the element's text as the original, with no interval running |
| Scramble.AttachScramble | main.js:314 | constructing the controller for a missing element (null from `getElementById`) fails with a TypeError exactly when the element is missing; otherwise it yields a fresh controller showing the element's text as the original, with no reveal running |
| Scramble.ScrambleText.Scramble | main.js:108-126 | the previous interval is cleared and a fresh one with counter 0 becomes the only live interval; the text is not touched yet |
| Scramble.ScrambleText.Tick | main.js:111-125 | a firing of the live interval changes the reveal exactly as `Step` says and keeps the invariant (at most one live interval; original text whenever none runs) |
| Scramble.ScrambleText.Reset | main.js:127-130 | the current interval is cleared, no interval remains live, and the text is the original |
| Throttling.OnCall | main.js:14-18 | a call with the flag unset runs `func` once, sets the flag and schedules one timeout; a call with the flag set is dropped and changes nothing |
| Throttling.OnFire | main.js:17 | a scheduled timeout clears the flag without running `func`; with none scheduled nothing fires |
| Throttling.ReplayConsistent | main.js:14-17 | over any event sequence a timeout is scheduled exactly while the flag is set, so at most one is outstanding |
| Throttling.OneRunPerWindow | main.js:11-19 | a run of calls with no firing runs `func` exactly once if the gate was open, otherwise not at all; the dropped calls are not queued |
| Throttling.PotentialBound | main.js:9-19 | the number of runs, plus one while the gate is open, grows by at most one per timer firing |
| Throttling.RunsBoundedByFires | main.js:9-19 | over any event sequence `func` runs at most once per firing, plus once if the gate started open |
| Throttling.Throttle.constructor | main.js:10 | the flag starts unset, with no runs and no timer |
| Throttling.Throttle.Call | main.js:11-19 | the wrapper reports whether `func` ran (iff the flag was unset) and changes state as `OnCall` says |
| Throttling.Throttle.TimerFire | main.js:17 | the timeout clears the flag, as `OnFire` says |
| MenuToggle.Toggled | main.js:444-450 | a toggle flips the flag and writes it into `no-scroll`, both `active` classes and `aria-expanded`; no other class or attribute changes |
| MenuToggle.NavClicked | main.js:453-455 | after a nav-link click the menu is closed; an already closed menu is left exactly as it was |
| MenuToggle.ToggleTwice | main.js:444-450 | toggling twice restores the starting state iff that state was already in step with the flag |
| MenuToggle.NavClickCloses | main.js:455 | from an in-step state, a nav-link click leaves no `no-scroll`, no `active` and `aria-expanded` "false" |
| MenuToggle.Menu.constructor | main.js:443 | the menu starts closed |
| MenuToggle.Menu.Toggle | main.js:444-451 | the toggle button's handler changes the document as `Toggled` says, and nothing else |
| MenuToggle.Menu.ClickNavLink | main.js:452-455 | a nav-link click changes the document as `NavClicked` says |
| MenuToggle.SetupMenu | main.js:439-443 | handlers are installed iff both the toggle button and the navigation element exist |
| HeaderScroll.Scrolled | main.js:469-474 | after an update the header has `scrolled` iff the direction is 1; its other classes are unchanged |
| HeaderScroll.UpdateIsStable | main.js:472-474 | an update changes nothing iff the class already agrees with the direction; repeating an update is a no-op |
| HeaderScroll.OnUpdate | main.js:469-475 | the update callback applies `Scrolled` to the header if there is one and otherwise does nothing |
| SoundToggle.Clicked | main.js:510-515 | a click flips `muted`, sets `is-muted` to the new flag and `aria-pressed` to the old one, and leaves other classes and attributes alone |
| SoundToggle.ClickTwice | main.js:510-515 | two clicks restore the starting state iff the button already showed the flag |
| SoundToggle.SoundButton.constructor | main.js:510 | the handler is bound to the button and the audio element |
| SoundToggle.SoundButton.Click | main.js:510-515 | the click handler changes the audio flag and the button as `Clicked` says |
| SoundToggle.SetupSound | main.js:501-504 | the handler is installed iff both the button and the audio element exist |

## Left out

- Real time: the 30 ms interval, the throttle's `limit` and `setTimeout` are replaced by explicit tick and timer-fire events. The model does not say when they happen, only what they do.
- `Math.random`: each tick's picks are supplied by the caller as indices into the alphabet.
- Text is a sequence of characters. JavaScript splits and measures strings in UTF-16 code units, which is the same for every text without characters outside the Basic Multilingual Plane.
- The function wrapped by the throttle is not modelled. The model counts its runs and ignores its arguments, its `this` and any exception it throws. If it threw, the source would leave the flag unset.
- Scramble.ScrambleText.constructor: takes a present element. A missing `#scramble-logo` is modelled by `Scramble.AttachScramble` as a TypeError outcome. The model does not follow that error out of `init()` (main.js:167-171): in the source it aborts the rest of page setup, so the scroll animations, menu, header and sound handlers and the render loop are never installed.
- Scramble.ScrambleText.Tick: requires the interval to be live, because a cleared interval never fires.
- MenuToggle.Menu: requires the body to be neither the toggle button nor the navigation element. The toggle button and the navigation may be the same element.
- The smooth scroll to the link's anchor and `preventDefault` in the nav-link handler (GSAP), the scroll range in which the header's update runs and the progress bar (ScrollTrigger), the scroll-to-top button, and the cursor and magnetic buttons are not modelled. They are tween or library calls with no state of their own.
- Starting the ambient audio on the first click (`playAudio`, its volume and the ignored autoplay rejection) is not modelled, because it is audio I/O.
- The WebGL scene, particles, shaders, the render loop, resize handling, pointer normalisation and all floating-point animation are not modelled.
- Event-listener wiring, DOM queries other than the presence checks in setup, and touch detection are not modelled.
