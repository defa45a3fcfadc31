/**
 * `initModals` of script.js: each `.modal-overlay` is shown while it carries
 * the `active` class. Its open buttons show it, its close button and a click
 * on the backdrop itself hide it, and Escape hides every modal.
 */
module Modals {
  /** A `.modal-overlay`: its `id`, whether it contains a `.modal-close` button, and whether it is shown. */
  class Modal {
    const id: string
    const hasCloseButton: bool
    var active: bool

    constructor (id: string, hasCloseButton: bool, active: bool)
      ensures this.id == id && this.hasCloseButton == hasCloseButton && this.active == active
    {
      this.id := id;
      this.hasCloseButton := hasCloseButton;
      this.active := active;
    }

    /** The listener an open button naming this modal runs: the modal is shown. */
    method OpenButtonClicked()
      modifies this
      ensures active
    {
      active := true;
    }

    /**
     * A click on the close button: the modal is hidden. A modal without a
     * close button has no such listener and stays as it is.
     */
    method CloseButtonClicked()
      modifies this
      ensures active == (old(active) && !hasCloseButton)
    {
      if hasCloseButton {
        active := false;
      }
    }

    /**
     * A click that reaches the overlay: the modal is hidden only when the
     * click landed on the backdrop itself, not on its content.
     */
    method OverlayClicked(targetIsOverlay: bool)
      modifies this
      ensures active == (old(active) && !targetIsOverlay)
    {
      if targetIsOverlay {
        active := false;
      }
    }
  }

  /**
   * A click on a button whose `data-modal` attribute is `target`: every modal
   * registered the button when its `id` equalled that attribute, so exactly
   * the modals with that `id` are shown and every other modal is unchanged.
   */
  method OpenButtonClick(modals: seq<Modal>, target: string)
    modifies set m | m in modals
    ensures forall m :: m in modals ==> m.active == (old(m.active) || m.id == target)
  {
    var i := 0;
    while i < |modals|
      invariant 0 <= i <= |modals|
      invariant forall m :: m in modals ==> m.active == (old(m.active) || (m.id == target && m in modals[..i]))
    {
      if modals[i].id == target {
        modals[i].OpenButtonClicked();
      }
      assert modals[..i + 1] == modals[..i] + [modals[i]];
      i := i + 1;
    }
    assert modals[..|modals|] == modals;
  }

  /** The modals that are shown, by position: what `.modal-overlay.active` selects. */
  function ActiveModals(modals: seq<Modal>): (r: set<nat>)
    reads set m | m in modals
    ensures forall k: nat :: k in r <==> k < |modals| && modals[k].active
  {
    set k: nat | k < |modals| && modals[k].active
  }

  /**
   * The `keydown` listener: on Escape every shown modal is hidden; any other
   * key changes nothing.
   */
  method KeyDown(modals: seq<Modal>, key: string)
    modifies set m | m in modals
    ensures key == "Escape" ==> ActiveModals(modals) == {}
    ensures key != "Escape" ==> forall m :: m in modals ==> m.active == old(m.active)
  {
    if key != "Escape" {
      return;
    }
    var i := 0;
    while i < |modals|
      invariant 0 <= i <= |modals|
      invariant forall k :: 0 <= k < i ==> !modals[k].active
    {
      if modals[i].active {
        modals[i].active := false;
      }
      i := i + 1;
    }
  }
}
