/**
 * The console's tech-stack picker: the selected ids (toggled by a click on a
 * tech, each new list reported through `onChange`) and the form that
 * registers a new tech stack with `POST /tech-stacks`. The request's
 * completion is a separate step whose result the caller supplies.
 */
module StackSelecting {
  import opened Wrappers
  import opened Text
  import opened IdLists

  /** The message for a blank stack name. */
  const EmptyNameMessage: string := "スタック名を入力してください"
  /** The fallback message for a failed registration. */
  const CreateFailedMessage: string := "登録に失敗しました"

  /** How the registration request ended: created, answered with a non-OK
      status and a response text, or failed with a thrown value (an `Error`
      with its message, or something else). */
  datatype CreateResult = Created | NotOk(responseText: string) | Threw(isError: bool, errorMessage: string)

  /** The message shown for a failed registration: a non-OK answer throws an
      `Error` carrying the response text, or the fallback when the text is
      empty; a thrown `Error` shows its message; anything else the fallback. */
  function FailureMessage(result: CreateResult): (message: string)
    requires !result.Created?
    ensures result.NotOk? ==> message != ""
    ensures result.NotOk? && result.responseText != "" ==> message == result.responseText
    ensures result.NotOk? && result.responseText == "" ==> message == CreateFailedMessage
    ensures result.Threw? && !result.isError ==> message == CreateFailedMessage
    ensures result.Threw? && result.isError ==> message == result.errorMessage
  {
    match result
    case NotOk(text) => if text != "" then text else CreateFailedMessage
    case Threw(isError, errorMessage) => if isError then errorMessage else CreateFailedMessage
  }

  class StackSelectingBox {
    var selectedIds: seq<string>
    var newStackName: string
    var isSubmitting: bool
    var submitError: Option<string>
    /** Every list passed to `onChange`, oldest first. */
    var reported: seq<seq<string>>
    /** The names sent with `POST /tech-stacks`, oldest first. */
    var requests: seq<string>
    /** How many times `refreshTechs` was called. */
    var refreshes: nat

    /** The initial selection is `initialSelectedIds`, or empty when absent. */
    constructor (initialSelectedIds: Option<seq<string>>)
      ensures initialSelectedIds.Some? ==> selectedIds == initialSelectedIds.value
      ensures initialSelectedIds.None? ==> selectedIds == []
      ensures newStackName == "" && !isSubmitting && submitError == None
      ensures reported == [] && requests == [] && refreshes == 0
    {
      selectedIds := initialSelectedIds.GetOr([]);
      newStackName := "";
      isSubmitting := false;
      submitError := None;
      reported := [];
      requests := [];
      refreshes := 0;
    }

    /** `handleToggleSelect`: the toggled list is both reported and stored. */
    method HandleToggleSelect(id: string)
      modifies this
      ensures selectedIds == Toggle(old(selectedIds), id)
      ensures reported == old(reported) + [selectedIds]
      ensures id in selectedIds <==> id !in old(selectedIds)
      ensures newStackName == old(newStackName) && isSubmitting == old(isSubmitting)
      ensures submitError == old(submitError) && requests == old(requests) && refreshes == old(refreshes)
    {
      var nextSelectedIds := Toggle(selectedIds, id);
      reported := reported + [nextSelectedIds];
      selectedIds := nextSelectedIds;
    }

    /** The name input's `onChange`. */
    method SetNewStackName(name: string)
      modifies this
      ensures newStackName == name
      ensures selectedIds == old(selectedIds) && isSubmitting == old(isSubmitting)
      ensures submitError == old(submitError) && reported == old(reported)
      ensures requests == old(requests) && refreshes == old(refreshes)
    {
      newStackName := name;
    }

    /** The first part of `handleCreateTechStack`, up to the request: a name
        that is blank after trimming sets the error and sends nothing; any
        other name is sent trimmed, with the form marked as submitting and the
        error cleared. The button is disabled while a request is in flight. */
    method HandleCreateTechStack() returns (sent: bool)
      requires !isSubmitting
      modifies this
      ensures sent <==> JsTrim(old(newStackName)) != ""
      ensures !sent ==> submitError == Some(EmptyNameMessage) && !isSubmitting && requests == old(requests)
      ensures sent ==> isSubmitting && submitError == None && requests == old(requests) + [JsTrim(newStackName)]
      ensures newStackName == old(newStackName) && selectedIds == old(selectedIds)
      ensures reported == old(reported) && refreshes == old(refreshes)
    {
      var trimmedName := JsTrim(newStackName);
      if trimmedName == "" {
        submitError := Some(EmptyNameMessage);
        return false;
      }
      isSubmitting := true;
      submitError := None;
      requests := requests + [trimmedName];
      return true;
    }

    /** The rest of `handleCreateTechStack`, once the request has ended: on
        success the tech list is refreshed and the input cleared, on failure
        the error message is set; either way the form stops submitting. */
    method FinishCreateTechStack(result: CreateResult)
      modifies this
      ensures !isSubmitting
      ensures result.Created? ==>
        refreshes == old(refreshes) + 1 && newStackName == "" && submitError == old(submitError)
      ensures !result.Created? ==>
        refreshes == old(refreshes) && newStackName == old(newStackName)
        && submitError == Some(FailureMessage(result))
      ensures selectedIds == old(selectedIds) && reported == old(reported) && requests == old(requests)
    {
      if result.Created? {
        refreshes := refreshes + 1;
        newStackName := "";
      } else {
        submitError := Some(FailureMessage(result));
      }
      isSubmitting := false;
    }
  }

  /** Two clicks on a tech that was not selected report the list with it and
      then the original list again. */
  method ClickTwice(box: StackSelectingBox, id: string)
    requires id !in box.selectedIds
    modifies box
    ensures box.selectedIds == old(box.selectedIds)
    ensures box.reported == old(box.reported) + [old(box.selectedIds) + [id], old(box.selectedIds)]
  {
    ToggleTwice(box.selectedIds, id);
    box.HandleToggleSelect(id);
    box.HandleToggleSelect(id);
  }
}
