/** Which single dialog is open. */
module Modal {

  class ModalState {
    var activeModal: string
    var modalIsOpen: bool

    /** The flag says a dialog is open exactly when one is named. */
    predicate Consistent()
      reads this
    {
      modalIsOpen <==> activeModal != ""
    }

    constructor ()
      ensures activeModal == "" && !modalIsOpen
      ensures Consistent()
    {
      activeModal := "";
      modalIsOpen := false;
    }

    /** `handleModalOpen`: the named dialog replaces whatever was open. */
    method Open(modalName: string)
      modifies this
      ensures activeModal == modalName && modalIsOpen
      ensures modalName != "" ==> Consistent()
    {
      activeModal := modalName;
      modalIsOpen := true;
    }

    /** `handleModalClose`: back to the initial state from any state, so
        closing twice is closing once and opening then closing returns to
        the start. */
    method Close()
      modifies this
      ensures activeModal == "" && !modalIsOpen
      ensures Consistent()
    {
      activeModal := "";
      modalIsOpen := false;
    }
  }
}
