/**
 * The shared selection state of the falling-box world
 * (`SelectingCubeContextProvider`): the hovered work id, the last clicked
 * work id and a click nonce that changes on every click, so that a repeated
 * click on the same box is still seen as a new event.
 */
module SelectingCube {
  import opened Wrappers

  class SelectingCubeState {
    /** `selectingCubeId`: the work under the pointer. */
    var hoveredId: Option<string>
    /** `clickedCubeId`. */
    var clickedId: Option<string>
    /** `clickNonce`. */
    var clickNonce: nat

    constructor ()
      ensures hoveredId == None && clickedId == None && clickNonce == 0
    {
      hoveredId := None;
      clickedId := None;
      clickNonce := 0;
    }

    /** `emitCubeClick(id)`: records the id and bumps the nonce by one. */
    method EmitCubeClick(id: string)
      modifies this
      ensures clickedId == Some(id) && clickNonce == old(clickNonce) + 1
      ensures hoveredId == old(hoveredId)
    {
      clickedId := Some(id);
      clickNonce := clickNonce + 1;
    }

    /** `setSelectingCubeId(id)`: changes the hovered id only. */
    method SetSelectingCubeId(id: Option<string>)
      modifies this
      ensures hoveredId == id
      ensures clickedId == old(clickedId) && clickNonce == old(clickNonce)
    {
      hoveredId := id;
    }

    /** A box's `onPointerEnter`: the hovered id becomes the box's work. */
    method PointerEnter(boxWorkId: string)
      modifies this
      ensures hoveredId == Some(boxWorkId)
      ensures clickedId == old(clickedId) && clickNonce == old(clickNonce)
    {
      SetSelectingCubeId(Some(boxWorkId));
    }

    /** A box's `onPointerLeave`: nothing is hovered any more. */
    method PointerLeave()
      modifies this
      ensures hoveredId == None
      ensures clickedId == old(clickedId) && clickNonce == old(clickNonce)
    {
      SetSelectingCubeId(None);
    }

    /** A box's `onClick`. */
    method BoxClick(boxWorkId: string)
      modifies this
      ensures clickedId == Some(boxWorkId) && clickNonce == old(clickNonce) + 1
      ensures hoveredId == old(hoveredId)
    {
      EmitCubeClick(boxWorkId);
    }
  }

  /** Two clicks on the same box are told apart by their nonces. */
  method RepeatedClicks(state: SelectingCubeState, id: string) returns (first: nat, second: nat)
    modifies state
    ensures first < second && second == first + 1
    ensures state.clickedId == Some(id) && state.hoveredId == old(state.hoveredId)
  {
    state.BoxClick(id);
    first := state.clickNonce;
    state.BoxClick(id);
    second := state.clickNonce;
  }
}
