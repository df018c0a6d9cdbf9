/**
 * The console's e-mail allow-list: `ADMIN_ALLOWED_EMAILS` is a
 * comma-separated list; an address is allowed when, trimmed and lowercased,
 * it equals one of the list's trimmed, lowercased, non-empty entries. The
 * environment variable is a parameter (`None` when unset).
 */
module AllowedEmails {
  import opened Wrappers
  import opened Text

  /** `e.trim().toLowerCase()`. */
  function Normalize(e: string): string {
    ToLower(JsTrim(e))
  }

  /** `parts.map(normalize)`. */
  function NormalForms(parts: seq<string>): (forms: seq<string>)
    ensures |forms| == |parts| && forall k :: 0 <= k < |parts| ==> forms[k] == Normalize(parts[k])
  {
    seq(|parts|, k requires 0 <= k < |parts| => Normalize(parts[k]))
  }

  /** `parts.map(normalize).filter(Boolean)`. */
  function NormalizedEntries(parts: seq<string>): (entries: seq<string>)
    ensures |entries| <= |parts|
    ensures forall e :: e in entries <==> e != "" && e in NormalForms(parts)
  {
    if parts == [] then []
    else
      assert NormalForms(parts) == [Normalize(parts[0])] + NormalForms(parts[1..]);
      var head := Normalize(parts[0]);
      (if head != "" then [head] else []) + NormalizedEntries(parts[1..])
  }

  /** The allow-list read from the environment (`|| ""` for an unset value). */
  function AllowList(envValue: Option<string>): seq<string> {
    NormalizedEntries(Split(envValue.GetOr(""), ','))
  }

  /** `isAllowedEmail`: a missing or empty address is refused, any other is
      allowed exactly when its normal form is on the list. */
  function IsAllowedEmail(email: Option<string>, envValue: Option<string>): (allowed: bool)
    ensures allowed ==> email.Some? && email.value != "" && Normalize(email.value) != ""
    ensures allowed <==> (email.Some? && Normalize(email.value) != ""
                          && Normalize(email.value) in NormalForms(Split(envValue.GetOr(""), ',')))
  {
    email.Some? && email.value != "" && Normalize(email.value) in AllowList(envValue)
  }

  /** Blank entries contribute nothing: without a non-blank entry no address is allowed. */
  lemma EmptyListAllowsNothing(email: Option<string>, envValue: Option<string>)
    requires forall k :: 0 <= k < |Split(envValue.GetOr(""), ',')| ==> AllSpace(Split(envValue.GetOr(""), ',')[k], IsJsSpace)
    ensures !IsAllowedEmail(email, envValue)
  {
    var parts := Split(envValue.GetOr(""), ',');
    assert forall k :: 0 <= k < |parts| ==> NormalForms(parts)[k] == "";
  }

  /** An unset or empty variable allows nobody. */
  lemma UnsetEnvAllowsNothing(email: Option<string>, envValue: Option<string>)
    requires envValue.None? || envValue == Some("")
    ensures !IsAllowedEmail(email, envValue)
  {
    assert Split("", ',') == [""];
    EmptyListAllowsNothing(email, envValue);
  }

  /** A whitespace-only address is never allowed. */
  lemma BlankEmailRefused(email: string, envValue: Option<string>)
    requires AllSpace(email, IsJsSpace)
    ensures !IsAllowedEmail(Some(email), envValue)
  {
  }

  /** Matching ignores case and surrounding white space: two addresses with
      the same normal form get the same answer. */
  lemma SameNormalFormSameAnswer(a: string, b: string, envValue: Option<string>)
    requires a != "" && b != "" && Normalize(a) == Normalize(b)
    ensures IsAllowedEmail(Some(a), envValue) == IsAllowedEmail(Some(b), envValue)
  {
  }
}
