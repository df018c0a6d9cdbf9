/**
 * The request normalisation of `handleCreateWork` and `handleUpdateWork`:
 * scalar fields are trimmed and checked, the accent colour is defaulted,
 * lower-cased and matched against `#rrggbb`, image ids are trimmed with
 * blanks dropped, tech-stack ids are trimmed, de-duplicated and required,
 * URL entries are filtered, and display orders are the positions in the
 * filtered lists. The database lookups become sets of known ids and the date
 * parser a predicate supplied by the caller.
 */
module WorkRequests {
  import opened Wrappers
  import opened Text

  datatype UrlEntry = UrlEntry(labelText: string, url: string)

  /** `createWorkRequest`. */
  datatype WorkRequest = WorkRequest(
    title: string,
    comment: string,
    description: string,
    accentColor: string,
    publishedDate: string,
    thumbnailImageId: string,
    workImageIds: seq<string>,
    techStackIds: seq<string>,
    urls: seq<UrlEntry>)

  datatype ImageRow = ImageRow(imageId: string, displayOrder: int)
  datatype UrlRow = UrlRow(labelText: string, url: string, displayOrder: int)

  /** What the handlers write: the work row and its image, URL and tech-stack rows. */
  datatype NormalizedWork = NormalizedWork(
    title: string,
    comment: string,
    accentColor: string,
    description: Option<string>,
    publishedDate: string,
    thumbnailImageId: string,
    images: seq<ImageRow>,
    urls: seq<UrlRow>,
    techStackIds: seq<string>)

  /** A check either fails with an HTTP status and message or passes a value on. */
  datatype Checked<T> = Fail(status: int, message: string) | Pass(value: T)

  /** The response of a handler: an error, or the status with the stored work. */
  datatype Outcome = Rejected(status: int, message: string) | Saved(status: int, work: NormalizedWork)

  // ---------------------------------------------------------------- accent colour

  predicate IsHexDigit(c: char) {
    '0' <= c <= '9' || 'a' <= c <= 'f' || 'A' <= c <= 'F'
  }

  predicate IsLowerHexDigit(c: char) {
    '0' <= c <= '9' || 'a' <= c <= 'f'
  }

  /** `hexColorPattern`, `^#[0-9a-fA-F]{6}$`. */
  predicate MatchesHexColor(s: string) {
    |s| == 7 && s[0] == '#' && forall i :: 1 <= i < 7 ==> IsHexDigit(s[i])
  }

  /** A lower-case `#rrggbb` colour. */
  predicate IsLowerHexColor(s: string) {
    |s| == 7 && s[0] == '#' && forall i :: 1 <= i < 7 ==> IsLowerHexDigit(s[i])
  }

  const DefaultAccent: string := "#000000"

  /** Trim, default a blank value to black, lower-case, and match the pattern. */
  function NormalizeAccent(raw: string): (r: Option<string>)
    ensures r.Some? ==> IsLowerHexColor(r.value)
    ensures r.Some? <==> GoTrim(raw) == "" || MatchesHexColor(ToLower(GoTrim(raw)))
    ensures GoTrim(raw) != "" && r.Some? ==> r.value == ToLower(GoTrim(raw))
  {
    var trimmed := GoTrim(raw);
    var defaulted := if trimmed == "" then DefaultAccent else trimmed;
    var lowered := ToLower(defaulted);
    if MatchesHexColor(lowered) then Some(lowered) else None
  }

  /** Normalising an accepted colour again gives it back unchanged. */
  lemma AccentIdempotent(raw: string)
    ensures NormalizeAccent(raw).Some? ==> NormalizeAccent(NormalizeAccent(raw).value) == NormalizeAccent(raw)
  {
    if NormalizeAccent(raw).Some? {
      var c := NormalizeAccent(raw).value;
      TrimOfUnpadded(c, IsGoSpace);
      assert ToLower(c) == c;
    }
  }

  /** A blank colour becomes black. */
  lemma BlankAccentDefaults(raw: string)
    requires GoTrim(raw) == ""
    ensures NormalizeAccent(raw) == Some(DefaultAccent)
  {
    assert ToLower(DefaultAccent) == DefaultAccent;
  }

  /** An upper-case colour with surrounding spaces is stored trimmed and lower-cased. */
  lemma AccentExample()
    ensures NormalizeAccent("  #ABCDEF ") == Some("#abcdef")
  {
    var s := "  #ABCDEF ";
    assert SkipSpaces(s, IsGoSpace, 2) == 2;
    assert SkipSpaces(s, IsGoSpace, 0) == 2;
    assert SkipSpacesBack(s, IsGoSpace, 2, 9) == 9;
    assert SkipSpacesBack(s, IsGoSpace, 2, |s|) == 9;
    assert GoTrim(s) == s[2..9] == "#ABCDEF";
    assert ToLower("#ABCDEF") == "#abcdef";
    assert MatchesHexColor("#abcdef");
  }

  /** The three-digit short form is not accepted by the backend. */
  lemma ShortAccentRejected()
    ensures NormalizeAccent("#abc") == None
  {
    TrimOfUnpadded("#abc", IsGoSpace);
  }

  // ---------------------------------------------------------------- image ids

  /** The image ids kept: every entry trimmed, blanks dropped, duplicates kept. */
  function ImageIds(raw: seq<string>): (ids: seq<string>)
    ensures |ids| <= |raw|
    ensures forall k :: 0 <= k < |ids| ==> ids[k] != ""
  {
    if raw == [] then []
    else
      var kept := ImageIds(raw[..|raw| - 1]);
      var trimmed := GoTrim(raw[|raw| - 1]);
      if trimmed == "" then kept else kept + [trimmed]
  }

  /** With no blank entry, every entry is kept, duplicates included. */
  lemma {:induction false} ImageIdsKeepAll(raw: seq<string>)
    requires forall k :: 0 <= k < |raw| ==> GoTrim(raw[k]) != ""
    ensures |ImageIds(raw)| == |raw|
    ensures forall k :: 0 <= k < |raw| ==> ImageIds(raw)[k] == GoTrim(raw[k])
  {
    if raw != [] {
      ImageIdsKeepAll(raw[..|raw| - 1]);
    }
  }

  /** The work-image loop: collects the trimmed non-blank ids and the set of them. */
  method CollectImageIds(raw: seq<string>) returns (ids: seq<string>, idSet: set<string>)
    ensures ids == ImageIds(raw)
    ensures idSet == set x | x in ids
  {
    ids := [];
    idSet := {};
    var i := 0;
    while i < |raw|
      invariant 0 <= i <= |raw|
      invariant ids == ImageIds(raw[..i])
      invariant idSet == set x | x in ids
    {
      assert raw[..i + 1][..i] == raw[..i];
      var trimmed := GoTrim(raw[i]);
      if trimmed != "" {
        ids := ids + [trimmed];
        idSet := idSet + {trimmed};
      }
      i := i + 1;
    }
    assert raw[..i] == raw;
  }

  /** What one entry contributes to the image ids: its trimmed value, or
      nothing when that is blank. */
  function KeptImageId(e: string): seq<string> {
    if GoTrim(e) == "" then [] else [GoTrim(e)]
  }

  /** One step of the image-id filter. */
  lemma ImageIdsSnoc(raw: seq<string>, e: string)
    ensures ImageIds(raw + [e]) == ImageIds(raw) + KeptImageId(e)
  {
    assert (raw + [e])[..|raw + [e]| - 1] == raw;
  }

  /** The image-id filter works entry by entry: it distributes over
      concatenation, and a single entry is kept trimmed unless it is blank. */
  lemma {:induction false} ImageIdsAppend(a: seq<string>, b: seq<string>)
    ensures ImageIds(a + b) == ImageIds(a) + ImageIds(b)
    ensures |b| == 1 ==> ImageIds(b) == if GoTrim(b[0]) == "" then [] else [GoTrim(b[0])]
    decreases |b|
  {
    if b == [] {
      assert a + b == a;
      assert ImageIds(a) + [] == ImageIds(a);
    } else {
      var prefix := b[..|b| - 1];
      var e := b[|b| - 1];
      assert b == prefix + [e];
      assert a + b == (a + prefix) + [e];
      ImageIdsAppend(a, prefix);
      ImageIdsSnoc(a + prefix, e);
      ImageIdsSnoc(prefix, e);
      assert ImageIds(a) + (ImageIds(prefix) + KeptImageId(e)) == (ImageIds(a) + ImageIds(prefix)) + KeptImageId(e);
      if |b| == 1 {
        assert prefix == [];
        assert [] + KeptImageId(e) == KeptImageId(e);
      }
    }
  }

  // ---------------------------------------------------------------- tech-stack ids

  /** The tech-stack ids kept: every entry trimmed, blanks and repeats dropped. */
  function TechIds(raw: seq<string>): (ids: seq<string>)
    ensures |ids| <= |raw|
    ensures forall k :: 0 <= k < |ids| ==> ids[k] != ""
  {
    if raw == [] then []
    else
      var kept := TechIds(raw[..|raw| - 1]);
      var trimmed := GoTrim(raw[|raw| - 1]);
      if trimmed == "" || trimmed in kept then kept else kept + [trimmed]
  }

  /** True when some entry of `raw` trims to `x`. */
  predicate TrimsTo(raw: seq<string>, x: string) {
    exists k :: 0 <= k < |raw| && GoTrim(raw[k]) == x
  }

  /** The position of the first entry of `raw` that trims to `x`, or `|raw|`. */
  function FirstTrimmedIndex(raw: seq<string>, x: string): (f: nat)
    ensures f <= |raw|
  {
    if raw == [] then 0
    else
      var f := FirstTrimmedIndex(raw[..|raw| - 1], x);
      if f < |raw| - 1 then f else if GoTrim(raw[|raw| - 1]) == x then |raw| - 1 else |raw|
  }

  /** The kept tech-stack ids are exactly the non-blank trimmed entries, each once. */
  lemma {:induction false} TechIdsDistinctAndComplete(raw: seq<string>)
    ensures forall i, j :: 0 <= i < j < |TechIds(raw)| ==> TechIds(raw)[i] != TechIds(raw)[j]
    ensures forall x :: x in TechIds(raw) <==> x != "" && TrimsTo(raw, x)
  {
    if raw != [] {
      var prefix := raw[..|raw| - 1];
      TechIdsDistinctAndComplete(prefix);
      forall x | x != "" && TrimsTo(raw, x)
        ensures x in TechIds(raw)
      {
        var k :| 0 <= k < |raw| && GoTrim(raw[k]) == x;
        if k < |raw| - 1 {
          assert prefix[k] == raw[k];
        }
      }
      forall x | x in TechIds(prefix)
        ensures TrimsTo(raw, x)
      {
        var k :| 0 <= k < |prefix| && GoTrim(prefix[k]) == x;
        assert raw[k] == prefix[k];
      }
    }
  }

  /** `FirstTrimmedIndex` finds an entry exactly when one exists. */
  lemma {:induction false} FirstTrimmedIndexFound(raw: seq<string>, x: string)
    ensures FirstTrimmedIndex(raw, x) < |raw| <==> TrimsTo(raw, x)
    ensures FirstTrimmedIndex(raw, x) < |raw| ==> GoTrim(raw[FirstTrimmedIndex(raw, x)]) == x
    ensures forall k :: 0 <= k < FirstTrimmedIndex(raw, x) ==> GoTrim(raw[k]) != x
  {
    if raw != [] {
      var prefix := raw[..|raw| - 1];
      var n := |prefix|;
      FirstTrimmedIndexFound(prefix, x);
      var f := FirstTrimmedIndex(prefix, x);
      assert forall k :: 0 <= k < n ==> raw[k] == prefix[k];
      if f < n {
        assert GoTrim(raw[f]) == x;
      } else if GoTrim(raw[n]) == x {
        assert FirstTrimmedIndex(raw, x) == n;
      } else {
        assert forall k :: 0 <= k < n ==> GoTrim(raw[k]) != x;
        assert !TrimsTo(raw, x);
      }
    }
  }

  /** The kept tech-stack ids are in the order of their first occurrence. */
  lemma {:induction false} TechIdsFirstOccurrenceOrder(raw: seq<string>)
    ensures forall i, j :: 0 <= i < j < |TechIds(raw)| ==>
      FirstTrimmedIndex(raw, TechIds(raw)[i]) < FirstTrimmedIndex(raw, TechIds(raw)[j])
    ensures forall i :: 0 <= i < |TechIds(raw)| ==> FirstTrimmedIndex(raw, TechIds(raw)[i]) < |raw|
  {
    if raw != [] {
      var prefix := raw[..|raw| - 1];
      var kept := TechIds(prefix);
      TechIdsFirstOccurrenceOrder(prefix);
      TechIdsDistinctAndComplete(prefix);
      var ids := TechIds(raw);
      assert forall i :: 0 <= i < |kept| ==> ids[i] == kept[i];
      forall i | 0 <= i < |ids|
        ensures FirstTrimmedIndex(raw, ids[i]) < |raw|
        ensures i < |kept| ==> FirstTrimmedIndex(raw, ids[i]) == FirstTrimmedIndex(prefix, ids[i]) < |prefix|
        ensures i == |kept| ==> FirstTrimmedIndex(raw, ids[i]) == |prefix|
      {
        if i == |kept| {
          var t := GoTrim(raw[|raw| - 1]);
          assert ids[i] == t && t !in kept && t != "";
          FirstTrimmedIndexFound(prefix, t);
        }
      }
    }
  }

  /** The tech-stack loop: trims, skips blanks and ids already in `techSet`. */
  method CollectTechIds(raw: seq<string>) returns (ids: seq<string>)
    ensures ids == TechIds(raw)
  {
    ids := [];
    var techSet: set<string> := {};
    var i := 0;
    while i < |raw|
      invariant 0 <= i <= |raw|
      invariant ids == TechIds(raw[..i])
      invariant techSet == set x | x in ids
    {
      assert raw[..i + 1][..i] == raw[..i];
      var trimmed := GoTrim(raw[i]);
      if trimmed != "" && trimmed !in techSet {
        techSet := techSet + {trimmed};
        ids := ids + [trimmed];
      }
      i := i + 1;
    }
    assert raw[..i] == raw;
  }

  // ---------------------------------------------------------------- URL entries

  /** True when exactly one of the entry's trimmed label and url is blank. */
  predicate HalfBlank(e: UrlEntry) {
    (GoTrim(e.labelText) == "") != (GoTrim(e.url) == "")
  }

  /** The URL filter: both-blank entries are skipped, a half-blank entry
      rejects the request, the others are kept trimmed. */
  function FilteredUrls(entries: seq<UrlEntry>): (r: Option<seq<UrlEntry>>)
    ensures r.Some? ==> |r.value| <= |entries|
    ensures r.Some? ==> forall k :: 0 <= k < |r.value| ==> r.value[k].labelText != "" && r.value[k].url != ""
  {
    if entries == [] then Some([])
    else
      match FilteredUrls(entries[..|entries| - 1])
      case None => None
      case Some(kept) =>
        var labelText := GoTrim(entries[|entries| - 1].labelText);
        var url := GoTrim(entries[|entries| - 1].url);
        if labelText == "" && url == "" then Some(kept)
        else if labelText == "" || url == "" then None
        else Some(kept + [UrlEntry(labelText, url)])
  }

  /** The filter rejects exactly the lists holding a half-blank entry. */
  lemma {:induction false} FilteredUrlsRejectIff(entries: seq<UrlEntry>)
    ensures FilteredUrls(entries).None? <==> exists k :: 0 <= k < |entries| && HalfBlank(entries[k])
    decreases |entries|
  {
    if entries == [] {
      assert FilteredUrls(entries) == Some([]);
    } else {
      var prefix := entries[..|entries| - 1];
      var last := entries[|entries| - 1];
      assert entries == prefix + [last];
      FilteredUrlsRejectIff(prefix);
      FilteredUrlsSnoc(prefix, last);
      assert FilteredUrls(entries).None? <==> FilteredUrls(prefix).None? || HalfBlank(last);
      assert forall k :: 0 <= k < |prefix| ==> prefix[k] == entries[k];
      if exists k :: 0 <= k < |entries| && HalfBlank(entries[k]) {
        var k :| 0 <= k < |entries| && HalfBlank(entries[k]);
        assert k < |prefix| ==> HalfBlank(prefix[k]);
      }
    }
  }

  /** The URL entry kept for `e`, both fields trimmed. */
  function TrimmedEntry(e: UrlEntry): UrlEntry {
    UrlEntry(GoTrim(e.labelText), GoTrim(e.url))
  }

  /** One step of the URL filter on the result so far. */
  function UrlStep(r: Option<seq<UrlEntry>>, e: UrlEntry): Option<seq<UrlEntry>> {
    if r.None? || HalfBlank(e) then None
    else if GoTrim(e.labelText) == "" then r
    else Some(r.value + [TrimmedEntry(e)])
  }

  /** Two filter results joined: accepted when both are, keeping both lists. */
  function JoinUrls(ra: Option<seq<UrlEntry>>, rb: Option<seq<UrlEntry>>): Option<seq<UrlEntry>> {
    if ra.Some? && rb.Some? then Some(ra.value + rb.value) else None
  }

  /** One filter step: the result for `entries + [e]` from the result for `entries`. */
  lemma FilteredUrlsSnoc(entries: seq<UrlEntry>, e: UrlEntry)
    ensures FilteredUrls(entries + [e]) == UrlStep(FilteredUrls(entries), e)
  {
    assert (entries + [e])[..|entries + [e]| - 1] == entries;
  }

  /** A step after a join is a join with a step. */
  lemma JoinUrlStep(ra: Option<seq<UrlEntry>>, rb: Option<seq<UrlEntry>>, e: UrlEntry)
    ensures UrlStep(JoinUrls(ra, rb), e) == JoinUrls(ra, UrlStep(rb, e))
  {
    if ra.Some? && rb.Some? && !HalfBlank(e) && GoTrim(e.labelText) != "" {
      assert ra.value + (rb.value + [TrimmedEntry(e)]) == (ra.value + rb.value) + [TrimmedEntry(e)];
    }
  }

  /** The URL filter works entry by entry: a list is accepted when both of
      its parts are, and then keeps both parts' entries in order; a single
      entry is skipped when both fields are blank, rejects the list when one
      is, and is otherwise kept with both fields trimmed. */
  lemma {:induction false} FilteredUrlsAppend(a: seq<UrlEntry>, b: seq<UrlEntry>)
    ensures FilteredUrls(a + b) ==
      if FilteredUrls(a).Some? && FilteredUrls(b).Some? then Some(FilteredUrls(a).value + FilteredUrls(b).value)
      else None
    ensures |b| == 1 ==>
      FilteredUrls(b) ==
        if GoTrim(b[0].labelText) == "" && GoTrim(b[0].url) == "" then Some([])
        else if GoTrim(b[0].labelText) == "" || GoTrim(b[0].url) == "" then None
        else Some([TrimmedEntry(b[0])])
    decreases |b|
  {
    if b == [] {
      assert a + b == a;
      assert FilteredUrls(b) == Some([]);
      if FilteredUrls(a).Some? {
        assert FilteredUrls(a).value + [] == FilteredUrls(a).value;
      }
    } else {
      var prefix := b[..|b| - 1];
      var e := b[|b| - 1];
      assert b == prefix + [e];
      assert a + b == (a + prefix) + [e];
      FilteredUrlsAppend(a, prefix);
      assert FilteredUrls(a + prefix) == JoinUrls(FilteredUrls(a), FilteredUrls(prefix));
      FilteredUrlsSnoc(a + prefix, e);
      FilteredUrlsSnoc(prefix, e);
      JoinUrlStep(FilteredUrls(a), FilteredUrls(prefix), e);
      assert FilteredUrls(a + b) == JoinUrls(FilteredUrls(a), FilteredUrls(b));
      if |b| == 1 {
        assert prefix == [] && b[0] == e && FilteredUrls(prefix) == Some([]);
        assert [] + [TrimmedEntry(e)] == [TrimmedEntry(e)];
      }
    }
  }

  /** The URL loop, returning at the first half-blank entry. */
  method FilterUrls(entries: seq<UrlEntry>) returns (r: Option<seq<UrlEntry>>)
    ensures r == FilteredUrls(entries)
  {
    var kept: seq<UrlEntry> := [];
    var i := 0;
    while i < |entries|
      invariant 0 <= i <= |entries|
      invariant FilteredUrls(entries[..i]) == Some(kept)
    {
      assert entries[..i + 1][..i] == entries[..i];
      var labelText := GoTrim(entries[i].labelText);
      var url := GoTrim(entries[i].url);
      if labelText == "" && url == "" {
        i := i + 1;
        continue;
      }
      if labelText == "" || url == "" {
        NoneStaysNone(entries, i + 1);
        return None;
      }
      kept := kept + [UrlEntry(labelText, url)];
      i := i + 1;
    }
    assert entries[..i] == entries;
    return Some(kept);
  }

  /** Once a prefix is rejected, every longer prefix is. */
  lemma {:induction false} NoneStaysNone(entries: seq<UrlEntry>, n: nat)
    requires n <= |entries| && FilteredUrls(entries[..n]).None?
    ensures FilteredUrls(entries).None?
    decreases |entries| - n
  {
    if n < |entries| {
      assert entries[..n + 1][..n] == entries[..n];
      NoneStaysNone(entries, n + 1);
    } else {
      assert entries[..n] == entries;
    }
  }

  // ---------------------------------------------------------------- display orders

  /** The image rows written in the transaction: display order = position. */
  method NumberImages(ids: seq<string>) returns (rows: seq<ImageRow>)
    ensures |rows| == |ids|
    ensures forall k :: 0 <= k < |ids| ==> rows[k] == ImageRow(ids[k], k)
  {
    rows := [];
    for idx := 0 to |ids|
      invariant |rows| == idx
      invariant forall k :: 0 <= k < idx ==> rows[k] == ImageRow(ids[k], k)
    {
      rows := rows + [ImageRow(ids[idx], idx)];
    }
  }

  /** The URL rows written in the transaction: display order = position. */
  method NumberUrls(entries: seq<UrlEntry>) returns (rows: seq<UrlRow>)
    ensures |rows| == |entries|
    ensures forall k :: 0 <= k < |entries| ==> rows[k] == UrlRow(entries[k].labelText, entries[k].url, k)
  {
    rows := [];
    for idx := 0 to |entries|
      invariant |rows| == idx
      invariant forall k :: 0 <= k < idx ==> rows[k] == UrlRow(entries[k].labelText, entries[k].url, k)
    {
      rows := rows + [UrlRow(entries[idx].labelText, entries[idx].url, idx)];
    }
  }

  function ImageRows(ids: seq<string>): (rows: seq<ImageRow>)
    ensures |rows| == |ids| && forall k :: 0 <= k < |ids| ==> rows[k] == ImageRow(ids[k], k)
  {
    seq(|ids|, k requires 0 <= k < |ids| => ImageRow(ids[k], k))
  }

  function UrlRows(entries: seq<UrlEntry>): (rows: seq<UrlRow>)
    ensures |rows| == |entries|
    ensures forall k :: 0 <= k < |entries| ==> rows[k] == UrlRow(entries[k].labelText, entries[k].url, k)
  {
    seq(|entries|, k requires 0 <= k < |entries| => UrlRow(entries[k].labelText, entries[k].url, k))
  }

  // ---------------------------------------------------------------- the handlers

  /** The scalar fields after their checks. */
  datatype Scalars = Scalars(title: string, comment: string, accentColor: string,
                             description: Option<string>, publishedDate: string, thumbnailImageId: string)

  /** The checks on title, comment, accent colour, description, published
      date and thumbnail, in the handlers' order. */
  function CheckScalars(req: WorkRequest, validDate: string -> bool): (r: Checked<Scalars>)
    ensures r.Fail? ==> r.status == 400
    ensures r.Pass? <==>
      GoTrim(req.title) != "" && GoTrim(req.comment) != "" && NormalizeAccent(req.accentColor).Some?
      && GoTrim(req.publishedDate) != "" && validDate(GoTrim(req.publishedDate))
      && GoTrim(req.thumbnailImageId) != ""
    ensures r.Pass? ==> r.value.title == GoTrim(req.title) != "" && r.value.comment == GoTrim(req.comment) != ""
    ensures r.Pass? ==> IsLowerHexColor(r.value.accentColor) && NormalizeAccent(req.accentColor) == Some(r.value.accentColor)
    ensures r.Pass? ==> (r.value.description == None <==> GoTrim(req.description) == "")
    ensures r.Pass? && r.value.description.Some? ==> r.value.description.value == GoTrim(req.description)
    ensures r.Pass? ==> r.value.publishedDate == GoTrim(req.publishedDate) && validDate(r.value.publishedDate)
    ensures r.Pass? ==> r.value.thumbnailImageId == GoTrim(req.thumbnailImageId) != ""
  {
    var title := GoTrim(req.title);
    var comment := GoTrim(req.comment);
    var accent := NormalizeAccent(req.accentColor);
    var description := GoTrim(req.description);
    var published := GoTrim(req.publishedDate);
    var thumbnail := GoTrim(req.thumbnailImageId);
    if title == "" then Fail(400, "title is required")
    else if comment == "" then Fail(400, "comment is required")
    else if accent.None? then Fail(400, "accent_color must be formatted as #rrggbb")
    else if published == "" then Fail(400, "published_date is required")
    else if !validDate(published) then Fail(400, "published_date must be formatted as YYYY-MM-DD")
    else if thumbnail == "" then Fail(400, "thumbnail_image_id is required")
    else Pass(Scalars(title, comment, accent.value,
                      if description == "" then None else Some(description), published, thumbnail))
  }

  /** The list checks that follow, with their error responses. */
  function CheckLists(req: WorkRequest, s: Scalars, knownImages: set<string>, knownTechs: set<string>): Outcome {
    var imageIds := ImageIds(req.workImageIds);
    var imageSet := (set x | x in imageIds) + {s.thumbnailImageId};
    var techIds := TechIds(req.techStackIds);
    var urls := FilteredUrls(req.urls);
    if !(imageSet <= knownImages) then Rejected(400, "unknown image id provided")
    else if techIds == [] then Rejected(400, "tech_stack_ids is required")
    else if !((set x | x in techIds) <= knownTechs) then Rejected(400, "unknown tech stack id provided")
    else if urls.None? then Rejected(400, "url entries require both label and url")
    else Saved(0, NormalizedWork(s.title, s.comment, s.accentColor, s.description, s.publishedDate,
                                 s.thumbnailImageId, ImageRows(imageIds), UrlRows(urls.value), techIds))
  }

  /** With the status of a successful save replaced. */
  function WithStatus(o: Outcome, status: int): Outcome {
    if o.Saved? then Saved(status, o.work) else o
  }

  /** The specification of `handleCreateWork` (a bound request; transaction failures not modelled). */
  function CreateWork(req: WorkRequest, validDate: string -> bool, knownImages: set<string>,
                      knownTechs: set<string>): Outcome
  {
    match CheckScalars(req, validDate)
    case Fail(status, message) => Rejected(status, message)
    case Pass(s) => WithStatus(CheckLists(req, s, knownImages, knownTechs), 201)
  }

  /** The specification of `handleUpdateWork`: the path id is checked first,
      the work's existence after the scalar fields. */
  function UpdateWork(rawWorkId: string, req: WorkRequest, validDate: string -> bool, existingWorks: set<string>,
                      knownImages: set<string>, knownTechs: set<string>): Outcome
  {
    if GoTrim(rawWorkId) == "" then Rejected(400, "work id is required")
    else
      match CheckScalars(req, validDate)
      case Fail(status, message) => Rejected(status, message)
      case Pass(s) =>
        if GoTrim(rawWorkId) !in existingWorks then Rejected(404, "work not found")
        else WithStatus(CheckLists(req, s, knownImages, knownTechs), 200)
  }

  /** Create and update normalise a request identically: for an existing
      work, update responds as create does, with 200 in place of 201. */
  lemma UpdateNormalisesAsCreate(rawWorkId: string, req: WorkRequest, validDate: string -> bool,
                                 existingWorks: set<string>, knownImages: set<string>, knownTechs: set<string>)
    requires GoTrim(rawWorkId) != "" && GoTrim(rawWorkId) in existingWorks
    ensures UpdateWork(rawWorkId, req, validDate, existingWorks, knownImages, knownTechs)
         == WithStatus(CreateWork(req, validDate, knownImages, knownTechs), 200)
  {
  }

  /** Everything a saved work holds is normalised: trimmed non-blank title
      and comment, a lower-case `#rrggbb` colour, known images with display
      order equal to position, at least one known, distinct tech-stack id,
      and complete URL entries numbered by position. */
  lemma SavedWorkNormalised(req: WorkRequest, validDate: string -> bool, knownImages: set<string>,
                            knownTechs: set<string>)
    ensures var o := CreateWork(req, validDate, knownImages, knownTechs);
      o.Saved? ==>
        var w := o.work;
        o.status == 201
        && w.title == GoTrim(req.title) != "" && w.comment == GoTrim(req.comment) != ""
        && IsLowerHexColor(w.accentColor)
        && w.thumbnailImageId in knownImages
        && |w.images| == |ImageIds(req.workImageIds)|
        && (forall k :: 0 <= k < |w.images| ==> w.images[k].imageId in knownImages && w.images[k].displayOrder == k)
        && w.techStackIds != [] && (forall x :: x in w.techStackIds ==> x in knownTechs)
        && (forall i, j :: 0 <= i < j < |w.techStackIds| ==> w.techStackIds[i] != w.techStackIds[j])
        && (forall k :: 0 <= k < |w.urls| ==> w.urls[k].labelText != "" && w.urls[k].url != "" && w.urls[k].displayOrder == k)
  {
    var o := CreateWork(req, validDate, knownImages, knownTechs);
    if o.Saved? {
      CreateWorkSavedIff(req, validDate, knownImages, knownTechs);
      var sc := CheckScalars(req, validDate).value;
      var ids := ImageIds(req.workImageIds);
      var techIds := TechIds(req.techStackIds);
      var urls := FilteredUrls(req.urls).value;
      assert o.work == NormalizedWork(sc.title, sc.comment, sc.accentColor, sc.description, sc.publishedDate,
                                      sc.thumbnailImageId, ImageRows(ids), UrlRows(urls), techIds);
      TechIdsDistinctAndComplete(req.techStackIds);
      assert forall k :: 0 <= k < |ids| ==> ids[k] in (set x | x in ids);
    }
  }

  /** `handleCreateWork` stores a work exactly when the scalar fields pass,
      every image id (thumbnail included) is known, at least one tech-stack
      id remains and all are known, and no URL entry is half blank; what it
      stores is the checked scalars with the numbered image and URL rows and
      the de-duplicated tech-stack ids, answered with 201. */
  lemma CreateWorkSavedIff(req: WorkRequest, validDate: string -> bool, knownImages: set<string>,
                           knownTechs: set<string>)
    ensures var o := CreateWork(req, validDate, knownImages, knownTechs);
      var sc := CheckScalars(req, validDate);
      var imageIds := ImageIds(req.workImageIds);
      var techIds := TechIds(req.techStackIds);
      o.Saved? <==>
        sc.Pass?
        && (set x | x in imageIds) + {sc.value.thumbnailImageId} <= knownImages
        && techIds != [] && (set x | x in techIds) <= knownTechs
        && FilteredUrls(req.urls).Some?
    ensures var o := CreateWork(req, validDate, knownImages, knownTechs);
      var sc := CheckScalars(req, validDate);
      o.Saved? ==>
        o.status == 201
        && o.work == NormalizedWork(sc.value.title, sc.value.comment, sc.value.accentColor, sc.value.description,
                                    sc.value.publishedDate, sc.value.thumbnailImageId,
                                    ImageRows(ImageIds(req.workImageIds)), UrlRows(FilteredUrls(req.urls).value),
                                    TechIds(req.techStackIds))
  {
  }

  /** A request whose tech-stack ids are all blank is rejected with 400. */
  lemma BlankTechIdsRejected(req: WorkRequest, validDate: string -> bool, knownImages: set<string>,
                             knownTechs: set<string>)
    requires forall k :: 0 <= k < |req.techStackIds| ==> GoTrim(req.techStackIds[k]) == ""
    ensures CreateWork(req, validDate, knownImages, knownTechs).Rejected?
    ensures CreateWork(req, validDate, knownImages, knownTechs).status == 400
  {
    AllBlankNoTechIds(req.techStackIds);
  }

  /** All-blank entries keep no tech-stack id. */
  lemma {:induction false} AllBlankNoTechIds(raw: seq<string>)
    requires forall k :: 0 <= k < |raw| ==> GoTrim(raw[k]) == ""
    ensures TechIds(raw) == []
  {
    if raw != [] {
      AllBlankNoTechIds(raw[..|raw| - 1]);
    }
  }

  /** The list stage as the handlers run it: the loops, then the checks. */
  method RunLists(req: WorkRequest, s: Scalars, knownImages: set<string>, knownTechs: set<string>)
    returns (o: Outcome)
    ensures o == CheckLists(req, s, knownImages, knownTechs)
  {
    var imageIds, imageSet := CollectImageIds(req.workImageIds);
    imageSet := imageSet + {s.thumbnailImageId};
    if !(imageSet <= knownImages) {
      return Rejected(400, "unknown image id provided");
    }
    var techIds := CollectTechIds(req.techStackIds);
    if techIds == [] {
      return Rejected(400, "tech_stack_ids is required");
    }
    if !((set x | x in techIds) <= knownTechs) {
      return Rejected(400, "unknown tech stack id provided");
    }
    var urls := FilterUrls(req.urls);
    if urls.None? {
      return Rejected(400, "url entries require both label and url");
    }
    var imageRows := NumberImages(imageIds);
    var urlRows := NumberUrls(urls.value);
    assert imageRows == ImageRows(imageIds);
    assert urlRows == UrlRows(urls.value);
    o := Saved(0, NormalizedWork(s.title, s.comment, s.accentColor, s.description, s.publishedDate,
                                 s.thumbnailImageId, imageRows, urlRows, techIds));
  }

  /** `handleCreateWork`. */
  method HandleCreateWork(req: WorkRequest, validDate: string -> bool, knownImages: set<string>,
                          knownTechs: set<string>) returns (o: Outcome)
    ensures o == CreateWork(req, validDate, knownImages, knownTechs)
  {
    var scalars := CheckScalars(req, validDate);
    if scalars.Fail? {
      return Rejected(scalars.status, scalars.message);
    }
    o := RunLists(req, scalars.value, knownImages, knownTechs);
    o := WithStatus(o, 201);
  }

  /** `handleUpdateWork`. */
  method HandleUpdateWork(rawWorkId: string, req: WorkRequest, validDate: string -> bool,
                          existingWorks: set<string>, knownImages: set<string>, knownTechs: set<string>)
    returns (o: Outcome)
    ensures o == UpdateWork(rawWorkId, req, validDate, existingWorks, knownImages, knownTechs)
  {
    var workId := GoTrim(rawWorkId);
    if workId == "" {
      return Rejected(400, "work id is required");
    }
    var scalars := CheckScalars(req, validDate);
    if scalars.Fail? {
      return Rejected(scalars.status, scalars.message);
    }
    if workId !in existingWorks {
      return Rejected(404, "work not found");
    }
    o := RunLists(req, scalars.value, knownImages, knownTechs);
    o := WithStatus(o, 200);
  }
}
