/** `useModalState`: one boolean, opened, closed or toggled. */
module ModalState {
  class Modal {
    var isOpen: bool

    /** `useState(initialState)`, where the default for `initialState` is false. */
    constructor (initialState: bool)
      ensures isOpen == initialState
    {
      isOpen := initialState;
    }

    method Open()
      modifies this
      ensures isOpen
    {
      isOpen := true;
    }

    method Close()
      modifies this
      ensures !isOpen
    {
      isOpen := false;
    }

    /** `setIsOpen(!isOpen)`. */
    method Toggle()
      modifies this
      ensures isOpen == !old(isOpen)
    {
      isOpen := !isOpen;
    }
  }

  /** Two toggles restore the state. */
  method ToggleTwice(m: Modal)
    modifies m
    ensures m.isOpen == old(m.isOpen)
  {
    m.Toggle();
    m.Toggle();
  }

  /** A modal created closed is open after a toggle, and closed after an open and a close. */
  method OpenCloseSequence() returns (afterToggle: bool, afterClose: bool)
    ensures afterToggle && !afterClose
  {
    var m := new Modal(false);
    m.Toggle();
    afterToggle := m.isOpen;
    m.Open();
    m.Close();
    afterClose := m.isOpen;
  }
}
