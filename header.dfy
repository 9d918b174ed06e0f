/** The header's scroll rule in main.js (`setupHeaderAnimation`): on every
    update of the scroll tracker, the header carries the `scrolled` class
    exactly when the scroll direction is downward (direction 1). */
module HeaderScroll {
  import opened Dom

  const SCROLLED: string := "scrolled"

  /** The header's classes after an update with scroll direction
      `direction` (1 down, -1 up). */
  function Scrolled(classes: set<string>, direction: int): (r: set<string>)
    ensures SCROLLED in r <==> direction == 1
    ensures r - {SCROLLED} == classes - {SCROLLED}
  {
    WithClass(classes, SCROLLED, direction == 1)
  }

  /** An update leaves the classes as they are exactly when they already
      agree with the direction; in particular repeating an update with the
      same direction changes nothing. */
  lemma UpdateIsStable(classes: set<string>, direction: int)
    ensures Scrolled(classes, direction) == classes <==> (SCROLLED in classes <==> direction == 1)
    ensures Scrolled(Scrolled(classes, direction), direction) == Scrolled(classes, direction)
  {
  }

  /** The `onUpdate` callback. The header is looked up on each update and
      may be missing, in which case nothing happens. */
  method OnUpdate(header: Element?, direction: int)
    modifies if header == null then {} else {header}
    ensures header != null ==> header.classes == Scrolled(old(header.classes), direction)
    ensures header != null ==> header.attributes == old(header.attributes)
    ensures header != null ==> header.textContent == old(header.textContent)
  {
    if header != null {
      if direction == 1 {
        header.AddClass(SCROLLED);
      } else {
        header.RemoveClass(SCROLLED);
      }
    }
  }
}
