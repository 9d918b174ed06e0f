/** The sound toggle of main.js (`setupSound`). Each click on the button
    flips the audio element's `muted` flag, sets the button's `is-muted`
    class to the new flag and its `aria-pressed` attribute to the old one. */
module SoundToggle {
  import opened Dom

  const IS_MUTED: string := "is-muted"
  const ARIA_PRESSED: string := "aria-pressed"

  /** The state the click handler reads and writes: the audio's flag and
      the button's classes and attributes. */
  datatype SoundView = SoundView(muted: bool, classes: set<string>, attributes: map<string, string>)

  /** The button shows the flag: `is-muted` exactly when muted, and
      `aria-pressed` is "true" exactly when sound is on. */
  predicate InStep(v: SoundView) {
    (IS_MUTED in v.classes <==> v.muted) &&
    ARIA_PRESSED in v.attributes &&
    v.attributes[ARIA_PRESSED] == BoolText(!v.muted)
  }

  /** One click of the toggle button. */
  function Clicked(v: SoundView): (r: SoundView)
    ensures r.muted == !v.muted && InStep(r)
    ensures r.attributes[ARIA_PRESSED] == BoolText(v.muted)
    ensures r.classes - {IS_MUTED} == v.classes - {IS_MUTED}
    ensures r.attributes.Keys == v.attributes.Keys + {ARIA_PRESSED}
    ensures forall a :: a in v.attributes && a != ARIA_PRESSED ==> r.attributes[a] == v.attributes[a]
  {
    var wasMuted := v.muted;
    SoundView(!wasMuted, WithClass(v.classes, IS_MUTED, !wasMuted), v.attributes[ARIA_PRESSED := BoolText(wasMuted)])
  }

  /** Two clicks give back exactly the state they started from if and only
      if the button already showed the flag; the markup need not before the
      first click. */
  lemma ClickTwice(v: SoundView)
    ensures Clicked(Clicked(v)) == v <==> InStep(v)
  {
  }

  /** The click handler `setupSound` installs on the button. */
  class SoundButton {
    const button: Element
    const audio: AudioElement

    function View(): SoundView
      reads this, button, audio
    {
      SoundView(audio.muted, button.classes, button.attributes)
    }

    constructor (button: Element, audio: AudioElement)
      ensures this.button == button && this.audio == audio
    {
      this.button := button;
      this.audio := audio;
    }

    /** The button's click handler. */
    method Click()
      modifies audio`muted, button`classes, button`attributes
      ensures View() == Clicked(old(View()))
    {
      var isMuted := audio.muted;
      audio.muted := !isMuted;
      button.ToggleClass(IS_MUTED, !isMuted);
      button.SetAttribute(ARIA_PRESSED, isMuted);
    }
  }

  /** `setupSound()`: without the button or the audio element nothing is
      installed. */
  method SetupSound(button: Element?, audio: AudioElement?) returns (toggle: SoundButton?)
    ensures toggle == null <==> button == null || audio == null
    ensures toggle != null ==> fresh(toggle) && toggle.button == button && toggle.audio == audio
  {
    if button == null || audio == null {
      return null;
    }
    toggle := new SoundButton(button, audio);
  }
}
