/**
 * The console's image uploader (`useDragAndDropUploader`): a drag flag and
 * the list of per-file upload states. Enqueuing appends one entry per file
 * and starts its upload, whose first step marks the entry as uploading; the
 * upload's end is a later step whose outcome the caller supplies, as are the
 * clock readings (`Date.now()`) that go into the entry ids.
 */
module DragDropUploader {
  import opened Wrappers
  import opened IdLists

  /** The fallback upload error message, also the message of the error
      thrown for a non-OK response. */
  const UploadFailedMessage: string := "アップロードに失敗"

  datatype Status = Pending | Uploading | Success | Error

  datatype FileUploadingState = FileUploadingState(id: string, fileName: string, status: Status, errorMessage: Option<string>)

  /** How an upload request ended. */
  datatype UploadOutcome = Uploaded | NotOk | Threw(isError: bool, message: string)

  /** The decimal digits of `n`, as a template literal prints a safe integer. */
  function Decimal(n: nat): (s: string)
    ensures |s| >= 1 && (n >= 10 ==> |s| >= 2)
    ensures forall k :: 0 <= k < |s| ==> '0' <= s[k] <= '9'
  {
    var digit := ['0' + (n % 10) as char];
    if n < 10 then digit else Decimal(n / 10) + digit
  }

  /** Different numbers print differently. */
  lemma {:induction false} DecimalInjective(a: nat, b: nat)
    requires Decimal(a) == Decimal(b)
    ensures a == b
    decreases a
  {
    var da := Decimal(a);
    assert da[|da| - 1] == '0' + (a % 10) as char;
    assert da[|da| - 1] == '0' + (b % 10) as char;
    if a >= 10 && b >= 10 {
      assert Decimal(a / 10) == da[..|da| - 1] == Decimal(b / 10);
      DecimalInjective(a / 10, b / 10);
    }
  }

  /** `${Date.now()}-${index}-${file.name}`. */
  function UploadId(now: nat, index: nat, fileName: string): string {
    Decimal(now) + "-" + Decimal(index) + "-" + fileName
  }

  /** In a dash-free head followed by a dash, the first dash marks the head's end. */
  lemma HeadNoLonger(a: string, b: string, x: string, y: string)
    requires '-' !in a && '-' !in b
    requires a + "-" + x == b + "-" + y
    ensures |a| <= |b|
  {
    var s := b + "-" + y;
    assert s[|b|] == '-';
    assert forall k :: 0 <= k < |a| ==> s[k] == a[k] && s[k] != '-';
  }

  /** A dash-free head is recovered from the text before the first dash. */
  lemma SplitAtFirstDash(a: string, b: string, x: string, y: string)
    requires '-' !in a && '-' !in b
    requires a + "-" + x == b + "-" + y
    ensures a == b && x == y
  {
    HeadNoLonger(a, b, x, y);
    HeadNoLonger(b, a, y, x);
    var s := a + "-" + x;
    assert a == s[..|a|] == b;
    assert x == s[|a| + 1..] == y;
  }

  /** Ids built for different file positions differ, whatever the clock
      readings and the file names. */
  lemma UploadIdsDiffer(now1: nat, now2: nat, i: nat, j: nat, name1: string, name2: string)
    requires i != j
    ensures UploadId(now1, i, name1) != UploadId(now2, j, name2)
  {
    if UploadId(now1, i, name1) == UploadId(now2, j, name2) {
      assert Decimal(now1) + "-" + (Decimal(i) + "-" + name1) == UploadId(now1, i, name1);
      assert Decimal(now2) + "-" + (Decimal(j) + "-" + name2) == UploadId(now2, j, name2);
      SplitAtFirstDash(Decimal(now1), Decimal(now2), Decimal(i) + "-" + name1, Decimal(j) + "-" + name2);
      SplitAtFirstDash(Decimal(i), Decimal(j), name1, name2);
      DecimalInjective(i, j);
    }
  }

  /** The ids a batch gets, one per file, in file order. */
  function BatchIds(fileNames: seq<string>, nows: seq<nat>): (ids: seq<string>)
    requires |nows| == |fileNames|
    ensures |ids| == |fileNames|
    ensures forall k :: 0 <= k < |ids| ==> ids[k] == UploadId(nows[k], k, fileNames[k])
    ensures Distinct(ids)
  {
    var ids := seq(|fileNames|, k requires 0 <= k < |fileNames| => UploadId(nows[k], k, fileNames[k]));
    assert forall i, j :: 0 <= i < j < |ids| ==> ids[i] != ids[j] by {
      forall i, j | 0 <= i < j < |ids|
        ensures ids[i] != ids[j]
      {
        UploadIdsDiffer(nows[i], nows[j], i, j, fileNames[i], fileNames[j]);
      }
    }
    ids
  }

  /** `prev.map(state => state.id === id ? update(state) : state)`. */
  function UpdateById(states: seq<FileUploadingState>, id: string, status: Status, setMessage: bool, message: Option<string>)
    : (next: seq<FileUploadingState>)
    ensures |next| == |states|
    ensures forall k :: 0 <= k < |states| && states[k].id != id ==> next[k] == states[k]
    ensures forall k :: 0 <= k < |states| && states[k].id == id ==>
      next[k].id == id && next[k].fileName == states[k].fileName && next[k].status == status
      && next[k].errorMessage == (if setMessage then message else states[k].errorMessage)
  {
    seq(|states|, k requires 0 <= k < |states| =>
      if states[k].id == id then
        states[k].(status := status, errorMessage := if setMessage then message else states[k].errorMessage)
      else states[k])
  }

  class Uploader {
    var isDragging: bool
    var fileUploadingStates: seq<FileUploadingState>
    /** The ids whose upload has been started, oldest first. */
    var started: seq<string>
    /** How many times `onUploadSuccess` was called. */
    var successCallbacks: nat

    constructor ()
      ensures !isDragging && fileUploadingStates == [] && started == [] && successCallbacks == 0
    {
      isDragging := false;
      fileUploadingStates := [];
      started := [];
      successCallbacks := 0;
    }

    method HandleDragOver()
      modifies this
      ensures isDragging
      ensures fileUploadingStates == old(fileUploadingStates) && started == old(started)
      ensures successCallbacks == old(successCallbacks)
    {
      isDragging := true;
    }

    method HandleDragLeave()
      modifies this
      ensures !isDragging
      ensures fileUploadingStates == old(fileUploadingStates) && started == old(started)
      ensures successCallbacks == old(successCallbacks)
    {
      isDragging := false;
    }

    /** `enqueueUploads`: one pending entry per file is appended in file
        order, then each upload starts by marking every entry with its id as
        uploading. Entries already present keep their contents unless they
        happen to share an id with the batch. */
    method EnqueueUploads(fileNames: seq<string>, nows: seq<nat>) returns (ids: seq<string>)
      requires |nows| == |fileNames|
      modifies this
      ensures ids == BatchIds(fileNames, nows)
      ensures started == old(started) + ids
      ensures |fileUploadingStates| == |old(fileUploadingStates)| + |fileNames|
      ensures forall k :: 0 <= k < |old(fileUploadingStates)| ==>
        fileUploadingStates[k] ==
          if old(fileUploadingStates)[k].id in ids then old(fileUploadingStates)[k].(status := Uploading)
          else old(fileUploadingStates)[k]
      ensures forall k :: 0 <= k < |fileNames| ==>
        fileUploadingStates[|old(fileUploadingStates)| + k] == FileUploadingState(ids[k], fileNames[k], Uploading, None)
      ensures isDragging == old(isDragging) && successCallbacks == old(successCallbacks)
    {
      ids := BatchIds(fileNames, nows);
      var nextStates := seq(|fileNames|, k requires 0 <= k < |fileNames| => FileUploadingState(ids[k], fileNames[k], Pending, None));
      var base := fileUploadingStates + nextStates;
      fileUploadingStates := base;
      for i := 0 to |ids|
        invariant |fileUploadingStates| == |base|
        invariant started == old(started) + ids[..i]
        invariant isDragging == old(isDragging) && successCallbacks == old(successCallbacks)
        invariant forall k :: 0 <= k < |base| ==>
          fileUploadingStates[k] == if base[k].id in ids[..i] then base[k].(status := Uploading) else base[k]
      {
        fileUploadingStates := UpdateById(fileUploadingStates, ids[i], Uploading, false, None);
        started := started + [ids[i]];
        assert ids[..i + 1] == ids[..i] + [ids[i]];
      }
      assert ids[..|ids|] == ids;
      assert forall k :: 0 <= k < |fileNames| ==> base[|old(fileUploadingStates)| + k].id == ids[k] && ids[k] in ids;
    }

    /** `handleDrop`: the drag ends; a non-empty file list is enqueued. */
    method HandleDrop(fileNames: seq<string>, nows: seq<nat>)
      requires |nows| == |fileNames|
      modifies this
      ensures !isDragging
      ensures fileNames == [] ==> fileUploadingStates == old(fileUploadingStates) && started == old(started)
      ensures fileNames != [] ==> started == old(started) + BatchIds(fileNames, nows)
      ensures |fileUploadingStates| == |old(fileUploadingStates)| + |fileNames|
      ensures forall k :: 0 <= k < |old(fileUploadingStates)| ==>
        fileUploadingStates[k] ==
          if old(fileUploadingStates)[k].id in BatchIds(fileNames, nows) then old(fileUploadingStates)[k].(status := Uploading)
          else old(fileUploadingStates)[k]
      ensures forall k :: 0 <= k < |fileNames| ==>
        fileUploadingStates[|old(fileUploadingStates)| + k]
        == FileUploadingState(BatchIds(fileNames, nows)[k], fileNames[k], Uploading, None)
      ensures successCallbacks == old(successCallbacks)
    {
      isDragging := false;
      if |fileNames| > 0 {
        var _ := EnqueueUploads(fileNames, nows);
      }
    }

    /** `handleSelectingFiles`: a non-empty selection from the file dialog is enqueued. */
    method HandleSelectingFiles(fileNames: seq<string>, nows: seq<nat>)
      requires |nows| == |fileNames|
      modifies this
      ensures isDragging == old(isDragging)
      ensures fileNames == [] ==> fileUploadingStates == old(fileUploadingStates) && started == old(started)
      ensures fileNames != [] ==> started == old(started) + BatchIds(fileNames, nows)
      ensures |fileUploadingStates| == |old(fileUploadingStates)| + |fileNames|
      ensures forall k :: 0 <= k < |old(fileUploadingStates)| ==>
        fileUploadingStates[k] ==
          if old(fileUploadingStates)[k].id in BatchIds(fileNames, nows) then old(fileUploadingStates)[k].(status := Uploading)
          else old(fileUploadingStates)[k]
      ensures forall k :: 0 <= k < |fileNames| ==>
        fileUploadingStates[|old(fileUploadingStates)| + k]
        == FileUploadingState(BatchIds(fileNames, nows)[k], fileNames[k], Uploading, None)
      ensures successCallbacks == old(successCallbacks)
    {
      if |fileNames| > 0 {
        var _ := EnqueueUploads(fileNames, nows);
      }
    }

    /** The end of `uploadFile` for `id`: success marks the entries with that
        id as succeeded and calls `onUploadSuccess`; a failure marks them as
        failed with the error's message, or the fallback message. */
    method FinishUpload(id: string, outcome: UploadOutcome)
      modifies this
      ensures |fileUploadingStates| == |old(fileUploadingStates)|
      ensures forall k :: 0 <= k < |fileUploadingStates| && old(fileUploadingStates)[k].id != id ==>
        fileUploadingStates[k] == old(fileUploadingStates)[k]
      ensures forall k :: 0 <= k < |fileUploadingStates| && old(fileUploadingStates)[k].id == id ==>
        fileUploadingStates[k].id == id && fileUploadingStates[k].fileName == old(fileUploadingStates)[k].fileName
        && (outcome.Uploaded? ==> fileUploadingStates[k].status == Success
                                  && fileUploadingStates[k].errorMessage == old(fileUploadingStates)[k].errorMessage)
        && (!outcome.Uploaded? ==> fileUploadingStates[k].status == Error && fileUploadingStates[k].errorMessage.Some?)
        && (outcome.NotOk? ==> fileUploadingStates[k].errorMessage == Some(UploadFailedMessage))
        && (outcome.Threw? && outcome.isError ==> fileUploadingStates[k].errorMessage == Some(outcome.message))
        && (outcome.Threw? && !outcome.isError ==> fileUploadingStates[k].errorMessage == Some(UploadFailedMessage))
      ensures successCallbacks == old(successCallbacks) + (if outcome.Uploaded? then 1 else 0)
      ensures isDragging == old(isDragging) && started == old(started)
    {
      match outcome
      case Uploaded =>
        fileUploadingStates := UpdateById(fileUploadingStates, id, Success, false, None);
        successCallbacks := successCallbacks + 1;
      case NotOk =>
        fileUploadingStates := UpdateById(fileUploadingStates, id, Error, true, Some(UploadFailedMessage));
      case Threw(isError, message) =>
        var shown := if isError then message else UploadFailedMessage;
        fileUploadingStates := UpdateById(fileUploadingStates, id, Error, true, Some(shown));
    }
  }
}
