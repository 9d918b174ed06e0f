/** The scrambling reveal of a text element (class ScrambleText in main.js).
    Entering the element starts a repeating 30 ms interval; each tick of it
    rebuilds the text, keeping the first `i` characters of the original and
    drawing every other one from a fixed alphabet, then advances `i`. Once
    `i` reaches the length of the text the interval clears itself and the
    original text is put back. Leaving the element cancels the reveal. */
module Scramble {
  import opened Dom

  /** The replacement alphabet. The source file holds an em dash that was
      decoded as three characters (U+00E2, U+20AC, U+201D), so the alphabet
      has 28 characters. */
  const CHARS: string := "!<>-_\\/[]{}\U{00E2}\U{20AC}\U{201D}=+*^?#________"

  /** One draw of `Math.floor(Math.random() * chars.length)` per position
      of a text of length `n`: an index into the alphabet. */
  predicate IsDraws(draws: seq<nat>, n: nat) {
    |draws| == n && forall k :: 0 <= k < n ==> draws[k] < |CHARS|
  }

  /** Draws for a whole run of ticks, one sequence per tick. */
  predicate AllDraws(ticks: seq<seq<nat>>, n: nat) {
    forall t :: 0 <= t < |ticks| ==> IsDraws(ticks[t], n)
  }

  /** `text` has the length of `original`, agrees with it on the first
      `revealed` positions and holds an alphabet character everywhere else. */
  predicate Shows(text: string, original: string, revealed: nat) {
    |text| == |original| &&
    forall k :: 0 <= k < |text| ==>
      if k < revealed then text[k] == original[k] else text[k] in CHARS
  }

  /** The text one tick writes before its end-of-text check: the
      `split/map/join` over the original with counter `i`. */
  function Frame(original: string, i: nat, draws: seq<nat>): (r: string)
    requires IsDraws(draws, |original|)
    ensures Shows(r, original, i)
    ensures i >= |original| ==> r == original
  {
    seq(|original|, k requires 0 <= k < |original| =>
      if k < i then original[k] else CHARS[draws[k]])
  }

  /** What a reveal looks like from outside: the element's text, whether an
      interval is still running, and the running interval's counter `i`. */
  datatype Reveal = Reveal(text: string, active: bool, counter: nat)

  /** The effect of one interval tick on a reveal. A reveal that is no longer
      active receives no ticks, so it stays as it is. */
  function Step(s: Reveal, original: string, draws: seq<nat>): (r: Reveal)
    requires IsDraws(draws, |original|)
    ensures !s.active ==> r == s
    ensures s.active ==> r.counter == s.counter + 1
    ensures s.active ==> (r.active <==> s.counter < |original|)
    ensures s.active ==> Shows(r.text, original, s.counter)
    ensures s.active && !r.active ==> r.text == original
  {
    if !s.active then s
    else if s.counter >= |original| then Reveal(original, false, s.counter + 1)
    else Reveal(Frame(original, s.counter, draws), true, s.counter + 1)
  }

  /** The reveal after a sequence of ticks. */
  function Run(s: Reveal, original: string, ticks: seq<seq<nat>>): Reveal
    requires AllDraws(ticks, |original|)
    decreases |ticks|
  {
    if ticks == [] then s
    else Run(Step(s, original, ticks[0]), original, ticks[1..])
  }

  /** The reveal that `reset()` leaves: the original text and no interval. */
  function Cancel(s: Reveal, original: string): (r: Reveal)
    ensures !r.active && r.text == original
    ensures r.counter == s.counter
  {
    Reveal(original, false, s.counter)
  }

  /** Cancelling twice is cancelling once. */
  lemma CancelTwice(s: Reveal, original: string)
    ensures Cancel(Cancel(s, original), original) == Cancel(s, original)
  {
  }

  /** A stopped reveal is left unchanged by `Run`. This is the model's
      stand-in for "a cleared interval never fires again" (`Step` leaves an
      inactive reveal alone), not a separate property of the program; it is
      the helper `RunActive` needs for the ticks after the stopping one. */
  lemma {:induction false} RunStopped(s: Reveal, original: string, ticks: seq<seq<nat>>)
    requires !s.active && AllDraws(ticks, |original|)
    ensures Run(s, original, ticks) == s
    decreases |ticks|
  {
    if ticks != [] {
      RunStopped(Step(s, original, ticks[0]), original, ticks[1..]);
    }
  }

  /** A running reveal with counter at most the text length stays active,
      revealing one more character per tick, until its counter has passed
      the length; the tick after that stops it with the original text. */
  lemma {:induction false} RunActive(s: Reveal, original: string, ticks: seq<seq<nat>>)
    requires s.active && s.counter <= |original| && AllDraws(ticks, |original|)
    ensures var r := Run(s, original, ticks);
      if s.counter + |ticks| <= |original| then
        r.active && r.counter == s.counter + |ticks| &&
        (ticks != [] ==> Shows(r.text, original, r.counter - 1))
      else
        r == Reveal(original, false, |original| + 1)
    decreases |ticks|
  {
    if ticks != [] {
      var next := Step(s, original, ticks[0]);
      if s.counter < |original| {
        RunActive(next, original, ticks[1..]);
      } else {
        RunStopped(next, original, ticks[1..]);
      }
    }
  }

  /** From a fresh start (counter 0, whatever text is showing), a reveal of
      a text of length N is still running after N ticks and has stopped,
      showing exactly the original, after N + 1. */
  lemma FullReveal(shown: string, original: string, ticks: seq<seq<nat>>)
    requires AllDraws(ticks, |original|)
    ensures var r := Run(Reveal(shown, true, 0), original, ticks);
      (|ticks| <= |original| ==> r.active && r.counter == |ticks|) &&
      (|ticks| > |original| ==> !r.active && r.text == original)
  {
    RunActive(Reveal(shown, true, 0), original, ticks);
  }

  /** One scramble-text controller bound to an element. Intervals are
      identified by positive handles; `handle` is `this.scrambleInterval`
      (0 standing for null), `live` the intervals not yet cleared, and
      `counters` the counter `i` each interval's callback closes over. */
  class ScrambleText {
    const el: Element
    const originalText: string
    var handle: nat
    var live: set<nat>
    var counters: map<nat, nat>
    var nextHandle: nat

    /** At most one interval is live and it is the current one; while it
        runs, the text shows the characters revealed so far; when none runs,
        the element shows the original text. */
    ghost predicate Valid()
      reads this, el
    {
      0 < nextHandle && handle < nextHandle &&
      (forall h :: h in counters ==> 0 < h < nextHandle) &&
      live <= {handle} && live <= counters.Keys &&
      |el.textContent| == |originalText| &&
      (handle in live ==>
        counters[handle] <= |originalText| &&
        (counters[handle] > 0 ==> Shows(el.textContent, originalText, counters[handle] - 1))) &&
      (handle !in live ==> el.textContent == originalText)
    }

    /** The reveal this controller currently shows. */
    function State(): Reveal
      reads this, el
    {
      Reveal(el.textContent, handle in live, if handle in counters then counters[handle] else 0)
    }

    constructor (el: Element)
      ensures this.el == el && originalText == el.textContent
      ensures Valid() && State() == Reveal(el.textContent, false, 0)
    {
      this.el := el;
      originalText := el.textContent;
      handle := 0;
      live := {};
      counters := map[];
      nextHandle := 1;
    }

    /** `scramble()`: clear the current interval and start a new one with
        counter 0, which becomes the only live interval. */
    method Scramble()
      requires Valid()
      modifies this`handle, this`live, this`counters, this`nextHandle
      ensures Valid()
      ensures handle == old(nextHandle) && live == {handle}
      ensures State() == Reveal(old(el.textContent), true, 0)
    {
      if handle != 0 {
        live := live - {handle};
      }
      handle := nextHandle;
      nextHandle := nextHandle + 1;
      live := live + {handle};
      counters := counters[handle := 0];
    }

    /** One firing of the live interval `id`, with `draws` standing for the
        random picks of this tick. The end-of-text check clears
        `this.scrambleInterval`, which is `id` itself because only the
        current interval is live. */
    method Tick(id: nat, draws: seq<nat>)
      requires Valid() && id in live && IsDraws(draws, |originalText|)
      modifies this`live, this`counters, el`textContent
      ensures Valid()
      ensures State() == Step(old(State()), originalText, draws)
    {
      var i := counters[id];
      el.textContent := Frame(originalText, i, draws);
      if i >= |originalText| {
        live := live - {handle};
        el.textContent := originalText;
      }
      counters := counters[id := i + 1];
    }

    /** `reset()`: clear the current interval and restore the original
        text, however far the reveal had got. */
    method Reset()
      requires Valid()
      modifies this`live, el`textContent
      ensures Valid() && live == {}
      ensures State() == Cancel(old(State()), originalText)
    {
      live := live - {handle};
      el.textContent := originalText;
    }
  }

  /** The outcome of `new ScrambleText(document.getElementById("scramble-logo"))`. */
  datatype Attach = Attached(controller: ScrambleText) | TypeError

  /** Constructing the controller for an element that may be missing.
      `getElementById` gives null for a missing element, and reading
      `el.textContent` on null throws a TypeError; there is no fallback. */
  method AttachScramble(el: Element?) returns (r: Attach)
    ensures r.TypeError? <==> el == null
    ensures r.Attached? ==> fresh(r.controller) && r.controller.el == el
    ensures r.Attached? ==> r.controller.Valid() && r.controller.originalText == el.textContent
    ensures r.Attached? ==> r.controller.State() == Reveal(el.textContent, false, 0)
  {
    if el == null {
      return TypeError;
    }
    var controller := new ScrambleText(el);
    r := Attached(controller);
  }
}
