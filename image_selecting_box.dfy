/**
 * The console's image picker: in multiple mode a click toggles the image in
 * the selection, in single mode it replaces the selection with that image;
 * an effect reports every new selection through `onChange`. Selected images
 * in multiple mode show their position in the selection as a badge.
 */
module ImageSelecting {
  import opened Wrappers
  import opened IdLists

  /** The `setSelectedIds` updater for a click on image `id`. */
  function NextSelectedIds(prev: seq<string>, id: string, multiple: bool): (next: seq<string>)
    ensures !multiple ==> next == [id]
    ensures multiple ==> (id in next <==> id !in prev)
    ensures multiple ==> forall y :: y != id ==> (y in next <==> y in prev)
    ensures multiple && id !in prev ==> next == prev + [id]
  {
    if multiple then Toggle(prev, id) else [id]
  }

  /** Repeating a click in single mode changes nothing. */
  lemma SingleModeIdempotent(prev: seq<string>, id: string)
    ensures NextSelectedIds(NextSelectedIds(prev, id, false), id, false) == NextSelectedIds(prev, id, false)
  {
  }

  /** A selection built by clicks holds no image twice. */
  lemma NextSelectedIdsDistinct(prev: seq<string>, id: string, multiple: bool)
    requires Distinct(prev)
    ensures Distinct(NextSelectedIds(prev, id, multiple))
  {
    if multiple {
      ToggleDistinct(prev, id);
    }
  }

  /** The badge of an image: shown in multiple mode for a selected image, and
      then its 1-based position (first occurrence) in the selection. */
  function Badge(selectedIds: seq<string>, id: string, multiple: bool): (badge: Option<nat>)
    ensures badge.Some? <==> multiple && id in selectedIds
    ensures badge.Some? ==>
      1 <= badge.value <= |selectedIds| && selectedIds[badge.value - 1] == id
      && forall j :: 0 <= j < badge.value - 1 ==> selectedIds[j] != id
  {
    if multiple && id in selectedIds then Some(IndexOf(selectedIds, id) + 1) else None
  }

  /** A newly selected image gets the next badge number. */
  lemma NewSelectionGetsLastBadge(prev: seq<string>, id: string)
    requires id !in prev
    ensures Badge(NextSelectedIds(prev, id, true), id, true) == Some(|prev| + 1)
  {
    var next := NextSelectedIds(prev, id, true);
    var b := Badge(next, id, true);
    assert b.Some?;
    assert next[|prev|] == id;
  }

  class ImageSelectingBox {
    const multiple: bool
    /** The ids of the images fetched from `/api/images`. */
    var images: seq<string>
    var selectedIds: seq<string>
    /** Every selection passed to `onChange`, oldest first. */
    var reported: seq<seq<string>>

    /** Mounting: nothing loaded or selected, and the effect reports the
        empty selection once. */
    constructor (multiple: bool)
      ensures this.multiple == multiple
      ensures images == [] && selectedIds == [] && reported == [[]]
    {
      this.multiple := multiple;
      images := [];
      selectedIds := [];
      reported := [[]];
    }

    /** The fetched image list arrives. */
    method ImagesLoaded(loaded: seq<string>)
      modifies this
      ensures images == loaded && selectedIds == old(selectedIds) && reported == old(reported)
    {
      images := loaded;
    }

    /** A click on the image at `index`: the updater runs and, the updater
        always producing a new list, the effect reports it. */
    method Click(index: nat)
      requires index < |images|
      modifies this
      ensures images == old(images)
      ensures selectedIds == NextSelectedIds(old(selectedIds), old(images)[index], multiple)
      ensures reported == old(reported) + [selectedIds]
    {
      selectedIds := NextSelectedIds(selectedIds, images[index], multiple);
      reported := reported + [selectedIds];
    }
  }
}
