/** The focus trap of an open dialog: Tab and Shift+Tab wrap around the
    dialog's focusable elements, and focus goes back where it was when the
    trap is released. Elements are known by identity only. */
module FocusTrap {
  import opened Outcomes

  /** A DOM element, known by its identity. */
  datatype Element = Element(id: nat)

  /** Where a keydown moves focus, if the trap intervenes: Shift+Tab on the
      first element goes to the last, Tab on the last goes to the first. */
  function WrapTarget(first: Element, last: Element, active: Option<Element>,
                      key: string, shiftKey: bool): (target: Option<Element>)
    ensures target.Some? ==> key == "Tab"
    ensures target == Some(last) <== key == "Tab" && shiftKey && active == Some(first)
    ensures target == Some(first) <== key == "Tab" && !shiftKey && active == Some(last)
    ensures target.Some? <==> key == "Tab" && active == Some(if shiftKey then first else last)
  {
    if key != "Tab" then None
    else if shiftKey then (if active == Some(first) then Some(last) else None)
    else if active == Some(last) then Some(first) else None
  }

  class FocusTrapState {
    /** `document.activeElement`. */
    var activeElement: Option<Element>
    /** `previousActiveElement.current`. */
    var previousActiveElement: Option<Element>
    /** Whether `handleTabKey` is listening for keydown on the document. */
    var installed: bool
    var firstElement: Element
    var lastElement: Element
    /** The element the 50 ms focus timer will focus when it fires. */
    var pendingFocus: Option<Element>

    constructor (active: Option<Element>)
      ensures activeElement == active && previousActiveElement == None
      ensures !installed && pendingFocus == None
    {
      activeElement := active;
      previousActiveElement := None;
      installed := false;
      firstElement := Element(0);
      lastElement := Element(0);
      pendingFocus := None;
    }

    /** The effect body. `hasContainer` says whether the ref is attached and
        `focusable` lists what the container's query finds, in order. The
        active element is remembered before the count is checked. */
    method Activate(isActive: bool, hasContainer: bool, focusable: seq<Element>)
      requires !installed
      modifies this
      ensures activeElement == old(activeElement)
      ensures !isActive || !hasContainer ==>
                !installed && previousActiveElement == old(previousActiveElement) &&
                pendingFocus == old(pendingFocus)
      ensures isActive && hasContainer ==> previousActiveElement == old(activeElement)
      ensures isActive && hasContainer && focusable == [] ==>
                !installed && pendingFocus == old(pendingFocus)
      ensures isActive && hasContainer && focusable != [] ==>
                installed && firstElement == focusable[0] &&
                lastElement == focusable[|focusable| - 1] && pendingFocus == Some(focusable[0])
    {
      if !isActive || !hasContainer {
        return;
      }
      previousActiveElement := activeElement;
      if focusable == [] {
        return;
      }
      firstElement := focusable[0];
      lastElement := focusable[|focusable| - 1];
      pendingFocus := Some(firstElement);
      installed := true;
    }

    /** The delayed `firstElement.focus()`; the timer is never cancelled. */
    method FireFocusTimer()
      modifies this
      ensures old(pendingFocus).Some? ==> activeElement == old(pendingFocus)
      ensures old(pendingFocus).None? ==> activeElement == old(activeElement)
      ensures pendingFocus == None && installed == old(installed)
      ensures previousActiveElement == old(previousActiveElement)
      ensures firstElement == old(firstElement) && lastElement == old(lastElement)
    {
      if pendingFocus.Some? {
        activeElement := pendingFocus;
        pendingFocus := None;
      }
    }

    /** A keydown on the document; `prevented` is `e.preventDefault()`. */
    method KeyDown(key: string, shiftKey: bool) returns (prevented: bool)
      modifies this
      ensures !old(installed) ==> !prevented && activeElement == old(activeElement)
      ensures old(installed) ==>
                var target := WrapTarget(firstElement, lastElement, old(activeElement), key, shiftKey);
                prevented == target.Some? &&
                activeElement == (if target.Some? then target else old(activeElement))
      ensures installed == old(installed) && firstElement == old(firstElement)
      ensures lastElement == old(lastElement) && pendingFocus == old(pendingFocus)
      ensures previousActiveElement == old(previousActiveElement)
    {
      prevented := false;
      if !installed || key != "Tab" {
        return;
      }
      if shiftKey {
        if activeElement == Some(firstElement) {
          prevented := true;
          activeElement := Some(lastElement);
        }
      } else {
        if activeElement == Some(lastElement) {
          prevented := true;
          activeElement := Some(firstElement);
        }
      }
    }

    /** The effect's cleanup, which exists only when the handler was
        installed: remove it and refocus the remembered element, if any. */
    method Cleanup()
      modifies this
      ensures !installed
      ensures old(installed) && old(previousActiveElement).Some? ==>
                activeElement == old(previousActiveElement)
      ensures !(old(installed) && old(previousActiveElement).Some?) ==>
                activeElement == old(activeElement)
      ensures pendingFocus == old(pendingFocus)
    {
      if !installed {
        return;
      }
      installed := false;
      if previousActiveElement.Some? {
        activeElement := previousActiveElement;
      }
    }
  }

  /** A dialog opened over a focused element: once the timer fires, focus is
      on the dialog's first focusable element, and closing the dialog puts
      it back on the element that had it. */
  method OpenThenClose(opener: Element, focusable: seq<Element>)
      returns (inside: Option<Element>, after: Option<Element>)
    requires focusable != []
    ensures inside == Some(focusable[0])
    ensures after == Some(opener)
  {
    var trap := new FocusTrapState(Some(opener));
    trap.Activate(true, true, focusable);
    trap.FireFocusTimer();
    inside := trap.activeElement;
    trap.Cleanup();
    after := trap.activeElement;
  }
}
