/**
 * The console's work list: `initializeWorkValues` turns a stored work into
 * the edit form's initial values (images and links ordered by their display
 * order, tech ids in their stored order, missing values as empty strings),
 * and the edit toggle opens or closes one work's form. The ordering is
 * JavaScript's stable `Array.prototype.sort` with the comparator
 * `a.display_order - b.display_order`, modelled as a stable insertion sort.
 */
module WorksViewer {
  import opened Wrappers
  import opened WorkTypes
  import opened WorkUrlsInput

  /** True when `s` is in ascending `order`. */
  predicate SortedBy<T>(s: seq<T>, order: T -> int) {
    forall i, j :: 0 <= i < j < |s| ==> order(s[i]) <= order(s[j])
  }

  /** The elements of `s` whose order is `k`, in their order in `s`. */
  function WithOrder<T>(s: seq<T>, order: T -> int, k: int): (r: seq<T>)
    ensures |r| <= |s|
  {
    if s == [] then [] else (if order(s[0]) == k then [s[0]] else []) + WithOrder(s[1..], order, k)
  }

  /** Places `x` before the first element whose order is not smaller. */
  function Insert<T>(x: T, t: seq<T>, order: T -> int): (r: seq<T>)
    ensures multiset(r) == multiset(t) + multiset{x}
    ensures r[0] == x || (t != [] && r[0] == t[0])
    ensures SortedBy(t, order) ==> SortedBy(r, order)
  {
    if t == [] || order(x) <= order(t[0]) then [x] + t
    else
      assert t == [t[0]] + t[1..];
      var rest := Insert(x, t[1..], order);
      assert SortedBy(t, order) ==> SortedBy(t[1..], order);
      assert SortedBy(t, order) ==> order(t[0]) <= order(rest[0]);
      ConsSorted(t[0], rest, order);
      [t[0]] + rest
  }

  /** Putting an element no larger than the head in front of a sorted list
      keeps it sorted. */
  lemma ConsSorted<T>(y: T, rest: seq<T>, order: T -> int)
    ensures SortedBy(rest, order) && (rest != [] ==> order(y) <= order(rest[0])) ==> SortedBy([y] + rest, order)
  {
    if SortedBy(rest, order) && (rest != [] ==> order(y) <= order(rest[0])) {
      var r := [y] + rest;
      forall i, j | 0 <= i < j < |r|
        ensures order(r[i]) <= order(r[j])
      {
        assert r[j] == rest[j - 1];
        if i == 0 {
          assert order(rest[0]) <= order(rest[j - 1]) || j - 1 == 0;
        } else {
          assert r[i] == rest[i - 1];
        }
      }
    }
  }

  /** The comparator sort. */
  function SortByOrder<T>(s: seq<T>, order: T -> int): (r: seq<T>)
    ensures SortedBy(r, order)
    ensures multiset(r) == multiset(s)
  {
    if s == [] then []
    else
      assert s == [s[0]] + s[1..];
      Insert(s[0], SortByOrder(s[1..], order), order)
  }

  /** `WithOrder` on a list with a known head. */
  lemma WithOrderCons<T>(y: T, rest: seq<T>, order: T -> int, k: int)
    ensures WithOrder([y] + rest, order, k) == (if order(y) == k then [y] else []) + WithOrder(rest, order, k)
  {
    assert ([y] + rest)[0] == y;
    assert ([y] + rest)[1..] == rest;
  }

  /** One unfolding of `Insert`. */
  lemma InsertUnfold<T>(x: T, t: seq<T>, order: T -> int)
    ensures t == [] || order(x) <= order(t[0]) ==> Insert(x, t, order) == [x] + t
    ensures t != [] && order(x) > order(t[0]) ==> Insert(x, t, order) == [t[0]] + Insert(x, t[1..], order)
  {
  }

  lemma {:induction false} InsertWithOrder<T>(x: T, t: seq<T>, order: T -> int, k: int)
    ensures WithOrder(Insert(x, t, order), order, k) == (if order(x) == k then [x] else []) + WithOrder(t, order, k)
    decreases |t|
  {
    InsertUnfold(x, t, order);
    if t == [] || order(x) <= order(t[0]) {
      WithOrderCons(x, t, order, k);
    } else {
      var rest := Insert(x, t[1..], order);
      var tail := WithOrder(t[1..], order, k);
      InsertWithOrder(x, t[1..], order, k);
      WithOrderCons(t[0], rest, order, k);
      WithOrderCons(t[0], t[1..], order, k);
      assert [t[0]] + t[1..] == t;
      if order(x) == k {
        assert order(t[0]) != k;
        assert WithOrder(rest, order, k) == [x] + tail;
      } else if order(t[0]) == k {
        assert WithOrder(rest, order, k) == tail;
        assert WithOrder(t, order, k) == [t[0]] + tail;
      } else {
        assert WithOrder(rest, order, k) == tail;
      }
    }
  }

  /** The sort is stable: the elements sharing one display order keep their
      relative order. */
  lemma {:induction false} SortStable<T>(s: seq<T>, order: T -> int, k: int)
    ensures WithOrder(SortByOrder(s, order), order, k) == WithOrder(s, order, k)
    decreases |s|
  {
    if s != [] {
      SortStable(s[1..], order, k);
      InsertWithOrder(s[0], SortByOrder(s[1..], order), order, k);
    }
  }

  /** A list already in display order comes back unchanged. */
  lemma {:induction false} SortOfSorted<T>(s: seq<T>, order: T -> int)
    requires SortedBy(s, order)
    ensures SortByOrder(s, order) == s
    decreases |s|
  {
    if s != [] {
      assert SortedBy(s[1..], order);
      SortOfSorted(s[1..], order);
      assert s == [s[0]] + s[1..];
    }
  }

  function ImageOrder(image: WorkImage): int { image.displayOrder }
  function UrlOrder(url: WorkUrl): int { url.displayOrder }

  /** The edit form's initial values. */
  datatype WorkFormValues = WorkFormValues(
    title: string,
    comment: string,
    publishedDate: string,
    accentColor: string,
    thumbnailImageId: string,
    workImageIds: seq<string>,
    techStackIds: seq<string>,
    description: string,
    urls: seq<WorkUrlItem>)

  /** The `label`/`url` fields of a link, under its id. */
  function UrlItem(url: WorkUrl): WorkUrlItem {
    WorkUrlItem(url.id, url.labelText, url.url)
  }

  /** `created_at.slice(0, 10)`, or the empty string for an empty value. */
  function PublishedDate(createdAt: string): (date: string)
    ensures |date| <= 10 && |date| <= |createdAt| && date == createdAt[..|date|]
    ensures |createdAt| >= 10 ==> |date| == 10
    ensures |createdAt| < 10 ==> date == createdAt
  {
    if createdAt == "" then "" else if |createdAt| <= 10 then createdAt else createdAt[..10]
  }

  /** `workImageIds`: the image ids in display order, that is, the ids of
      the stably sorted images (sorted, a permutation, ties in stored order). */
  function FormImageIds(images: seq<WorkImage>): (ids: seq<string>)
    ensures |ids| == |images|
    ensures forall i :: 0 <= i < |ids| ==> exists j :: 0 <= j < |images| && images[j].imageId == ids[i]
    ensures var sorted := SortByOrder(images, ImageOrder);
      |sorted| == |ids| && forall i :: 0 <= i < |ids| ==> ids[i] == sorted[i].imageId
  {
    var sorted := SortByOrder(images, ImageOrder);
    assert forall i :: 0 <= i < |sorted| ==> sorted[i] in multiset(images);
    seq(|sorted|, i requires 0 <= i < |sorted| => sorted[i].imageId)
  }

  /** `urls`: the links in display order, as editor items: the items of
      the stably sorted links (sorted, a permutation, ties in stored order). */
  function FormUrls(urls: seq<WorkUrl>): (items: seq<WorkUrlItem>)
    ensures |items| == |urls|
    ensures forall i :: 0 <= i < |items| ==> exists j :: 0 <= j < |urls| && UrlItem(urls[j]) == items[i]
    ensures var sorted := SortByOrder(urls, UrlOrder);
      |sorted| == |items| && forall i :: 0 <= i < |items| ==> items[i] == UrlItem(sorted[i])
  {
    var sorted := SortByOrder(urls, UrlOrder);
    assert forall i :: 0 <= i < |sorted| ==> sorted[i] in multiset(urls);
    seq(|sorted|, i requires 0 <= i < |sorted| => UrlItem(sorted[i]))
  }

  /** `techStackIds`: the tech ids in stored order. */
  function FormTechIds(techs: seq<WorkTechStack>): (ids: seq<string>)
    ensures |ids| == |techs| && forall k :: 0 <= k < |techs| ==> ids[k] == techs[k].techStackId
  {
    seq(|techs|, k requires 0 <= k < |techs| => techs[k].techStackId)
  }

  /** `initializeWorkValues`. Missing lists count as empty. */
  function InitializeWorkValues(work: Work): (v: WorkFormValues)
    ensures v.title == work.title && v.comment == work.comment && v.accentColor == work.accentColor
    ensures v.publishedDate == PublishedDate(work.createdAt)
    ensures v.thumbnailImageId == work.thumbnailImageId.GetOr("")
    ensures v.description == work.description.GetOr("")
    ensures |v.workImageIds| == |work.images.GetOr([])|
    ensures |v.urls| == |work.urls.GetOr([])|
    ensures |v.techStackIds| == |work.techStacks.GetOr([])|
    ensures v.workImageIds == FormImageIds(work.images.GetOr([]))
    ensures v.techStackIds == FormTechIds(work.techStacks.GetOr([]))
    ensures v.urls == FormUrls(work.urls.GetOr([]))
  {
    WorkFormValues(
      work.title,
      work.comment,
      PublishedDate(work.createdAt),
      work.accentColor,
      work.thumbnailImageId.GetOr(""),
      FormImageIds(work.images.GetOr([])),
      FormTechIds(work.techStacks.GetOr([])),
      work.description.GetOr(""),
      FormUrls(work.urls.GetOr([])))
  }

  /** Images and links already stored in display order keep that order in the form. */
  lemma OrderedListsKeepOrder(work: Work)
    requires SortedBy(work.images.GetOr([]), ImageOrder)
    requires SortedBy(work.urls.GetOr([]), UrlOrder)
    ensures var v := InitializeWorkValues(work);
      var images := work.images.GetOr([]);
      var urls := work.urls.GetOr([]);
      (forall i :: 0 <= i < |images| ==> v.workImageIds[i] == images[i].imageId)
      && (forall i :: 0 <= i < |urls| ==> v.urls[i] == UrlItem(urls[i]))
  {
    SortOfSorted(work.images.GetOr([]), ImageOrder);
    SortOfSorted(work.urls.GetOr([]), UrlOrder);
  }

  /** Images are listed by display order: an image listed earlier in the
      form has a display order no larger than one listed later. */
  lemma FormImagesInDisplayOrder(work: Work, i: nat, j: nat)
    requires i < j < |InitializeWorkValues(work).workImageIds|
    ensures var sorted := SortByOrder(work.images.GetOr([]), ImageOrder);
      |sorted| == |InitializeWorkValues(work).workImageIds|
      && InitializeWorkValues(work).workImageIds[i] == sorted[i].imageId
      && InitializeWorkValues(work).workImageIds[j] == sorted[j].imageId
      && sorted[i].displayOrder <= sorted[j].displayOrder
  {
  }

  /** Links are listed by display order: a link listed earlier in the form
      has a display order no larger than one listed later, and each item is
      the id, label and url of the link at that place. */
  lemma FormUrlsInDisplayOrder(work: Work, i: nat, j: nat)
    requires i < j < |InitializeWorkValues(work).urls|
    ensures var sorted := SortByOrder(work.urls.GetOr([]), UrlOrder);
      |sorted| == |InitializeWorkValues(work).urls|
      && InitializeWorkValues(work).urls[i] == UrlItem(sorted[i])
      && InitializeWorkValues(work).urls[j] == UrlItem(sorted[j])
      && sorted[i].displayOrder <= sorted[j].displayOrder
  {
  }

  /** `handleToggleEdit`: the open work's id closes its form, any other id opens that one. */
  function ToggleEdit(editingWorkId: Option<string>, workId: string): (next: Option<string>)
    ensures next == None <==> editingWorkId == Some(workId)
    ensures next != None ==> next == Some(workId)
  {
    if editingWorkId == Some(workId) then None else Some(workId)
  }
}
