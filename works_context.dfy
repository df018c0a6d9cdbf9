/**
 * The public site's works store (`WorksProvider`): the work list, a loading
 * flag and an error message. A refresh clears the error and sets the flag,
 * then, once the request has ended (its outcome is a parameter), stores the
 * sanitised list or the error message and clears the flag.
 */
module WorksContext {
  import opened Wrappers
  import opened WorkTypes

  /** The fallback error message. */
  const FetchFailedMessage: string := "作品一覧の取得に失敗しました"

  /** The parsed body of `GET /api/works`. */
  datatype WorksBody = WorksArray(works: seq<Work>) | NotAnArray

  /** How the request ended: a parsed OK response, a non-OK response with
      its text, or a thrown value (an `Error` with its message or not). */
  datatype RefreshOutcome = Fetched(body: WorksBody) | NotOk(text: string) | Threw(isError: bool, message: string)

  /** One work with its missing lists replaced by empty ones. */
  function SanitizeWork(work: Work): (sanitized: Work)
    ensures sanitized.images == Some(work.images.GetOr([]))
    ensures sanitized.urls == Some(work.urls.GetOr([]))
    ensures sanitized.techStacks == Some(work.techStacks.GetOr([]))
    ensures sanitized.(images := work.images, urls := work.urls, techStacks := work.techStacks) == work
  {
    work.(images := Some(work.images.GetOr([])), urls := Some(work.urls.GetOr([])),
          techStacks := Some(work.techStacks.GetOr([])))
  }

  /** `sanitizedWorks`: a non-array body gives no works; an array keeps its
      length and order, each work sanitised. */
  function SanitizeWorks(body: WorksBody): (works: seq<Work>)
    ensures body.NotAnArray? ==> works == []
    ensures body.WorksArray? ==>
      |works| == |body.works| && forall k :: 0 <= k < |works| ==> works[k] == SanitizeWork(body.works[k])
  {
    match body
    case NotAnArray => []
    case WorksArray(ws) => seq(|ws|, k requires 0 <= k < |ws| => SanitizeWork(ws[k]))
  }

  /** Sanitising a sanitised list changes nothing, and present lists are kept. */
  lemma SanitizeIdempotent(ws: seq<Work>)
    ensures SanitizeWorks(WorksArray(SanitizeWorks(WorksArray(ws)))) == SanitizeWorks(WorksArray(ws))
    ensures (forall k :: 0 <= k < |ws| ==> ws[k].images.Some? && ws[k].urls.Some? && ws[k].techStacks.Some?) ==>
      SanitizeWorks(WorksArray(ws)) == ws
  {
    var once := SanitizeWorks(WorksArray(ws));
    assert forall k :: 0 <= k < |once| ==> SanitizeWork(once[k]) == once[k];
  }

  /** The message a failed refresh shows: a non-OK answer throws an `Error`
      with the response text, or the fallback for an empty text. */
  function FailureMessage(outcome: RefreshOutcome): (message: string)
    requires !outcome.Fetched?
    ensures outcome.NotOk? ==> message != "" && (outcome.text != "" ==> message == outcome.text)
    ensures outcome.NotOk? && outcome.text == "" ==> message == FetchFailedMessage
    ensures outcome.Threw? ==> message == if outcome.isError then outcome.message else FetchFailedMessage
  {
    match outcome
    case NotOk(text) => if text != "" then text else FetchFailedMessage
    case Threw(isError, message) => if isError then message else FetchFailedMessage
  }

  class WorksStore {
    var works: seq<Work>
    var isLoading: bool
    var error: Option<string>

    /** The provider's initial state: no works, loading (the mount effect's refresh). */
    constructor ()
      ensures works == [] && isLoading && error == None
    {
      works := [];
      isLoading := true;
      error := None;
    }

    /** The start of `refreshWorks`. */
    method BeginRefresh()
      modifies this
      ensures isLoading && error == None && works == old(works)
    {
      isLoading := true;
      error := None;
    }

    /** The end of `refreshWorks`: the sanitised list on success, else the
        error message with the old list kept; loading ends either way. */
    method CompleteRefresh(outcome: RefreshOutcome)
      modifies this
      ensures !isLoading
      ensures outcome.Fetched? ==> works == SanitizeWorks(outcome.body) && error == old(error)
      ensures !outcome.Fetched? ==> works == old(works) && error == Some(FailureMessage(outcome))
    {
      if outcome.Fetched? {
        works := SanitizeWorks(outcome.body);
      } else {
        error := Some(FailureMessage(outcome));
      }
      isLoading := false;
    }
  }
}
