/** The small part of the browser document the page's UI controllers touch:
    an element's class list, its attributes and its text, and the muted flag
    of an audio element. */
module Dom {

  /** The string a boolean becomes when it is passed to `setAttribute`. */
  function BoolText(b: bool): (s: string)
    ensures s == "true" <==> b
    ensures s == "false" <==> !b
  {
    if b then "true" else "false"
  }

  /** The class list after `classList.toggle(name, force)`: present exactly
      when `force` holds, every other class as it was. */
  function WithClass(classes: set<string>, name: string, force: bool): (r: set<string>)
    ensures name in r <==> force
    ensures r - {name} == classes - {name}
  {
    if force then classes + {name} else classes - {name}
  }

  /** A document element. */
  class Element {
    var classes: set<string>
    var attributes: map<string, string>
    var textContent: string

    constructor (classes: set<string>, attributes: map<string, string>, textContent: string)
      ensures this.classes == classes && this.attributes == attributes
      ensures this.textContent == textContent
    {
      this.classes := classes;
      this.attributes := attributes;
      this.textContent := textContent;
    }

    /** `classList.add(name)` */
    method AddClass(name: string)
      modifies this`classes
      ensures classes == old(classes) + {name}
    {
      classes := classes + {name};
    }

    /** `classList.remove(name)` */
    method RemoveClass(name: string)
      modifies this`classes
      ensures classes == old(classes) - {name}
    {
      classes := classes - {name};
    }

    /** `classList.toggle(name, force)` */
    method ToggleClass(name: string, force: bool)
      modifies this`classes
      ensures classes == WithClass(old(classes), name, force)
    {
      classes := WithClass(classes, name, force);
    }

    /** `setAttribute(name, value)` with a boolean value, which the
        attribute stores as text */
    method SetAttribute(name: string, value: bool)
      modifies this`attributes
      ensures attributes == old(attributes)[name := BoolText(value)]
    {
      attributes := attributes[name := BoolText(value)];
    }
  }

  /** An audio element; only its muted flag is modelled. */
  class AudioElement {
    var muted: bool

    constructor (muted: bool)
      ensures this.muted == muted
    {
      this.muted := muted;
    }
  }
}
