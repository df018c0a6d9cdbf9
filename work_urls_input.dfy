/**
 * The console's editor for a work's links. Every handler builds a new list
 * from the current `items` and hands it to `onChange`; `items` itself is
 * never changed, so each handler is a function from the current list to
 * the reported one. New items get a fresh id supplied by the caller in
 * place of `crypto.randomUUID()`.
 */
module WorkUrlsInput {

  datatype WorkUrlItem = WorkUrlItem(id: string, labelText: string, url: string)

  /** The two editable fields of an item. */
  datatype Field = LabelField | UrlField

  /** `createEmptyWorkUrlItem`. */
  function CreateEmptyWorkUrlItem(freshId: string): (item: WorkUrlItem)
    ensures item.id == freshId && item.labelText == "" && item.url == ""
  {
    WorkUrlItem(freshId, "", "")
  }

  /** `{ ...item, [field]: value }`. */
  function SetField(item: WorkUrlItem, field: Field, value: string): WorkUrlItem {
    match field
    case LabelField => item.(labelText := value)
    case UrlField => item.(url := value)
  }

  /** `handleFieldChange`: the named field of every item with that id takes
      the value; ids, order, the other field and all other items stay. */
  function HandleFieldChange(items: seq<WorkUrlItem>, id: string, field: Field, value: string): (next: seq<WorkUrlItem>)
    ensures |next| == |items|
    ensures forall k :: 0 <= k < |items| ==> next[k].id == items[k].id
    ensures forall k :: 0 <= k < |items| && items[k].id != id ==> next[k] == items[k]
    ensures forall k :: 0 <= k < |items| && items[k].id == id && field == LabelField ==>
      next[k].labelText == value && next[k].url == items[k].url
    ensures forall k :: 0 <= k < |items| && items[k].id == id && field == UrlField ==>
      next[k].url == value && next[k].labelText == items[k].labelText
  {
    seq(|items|, k requires 0 <= k < |items| => if items[k].id == id then SetField(items[k], field, value) else items[k])
  }

  /** Changing the same field twice keeps only the second value. */
  lemma FieldChangeLastWins(items: seq<WorkUrlItem>, id: string, field: Field, v1: string, v2: string)
    ensures HandleFieldChange(HandleFieldChange(items, id, field, v1), id, field, v2)
         == HandleFieldChange(items, id, field, v2)
  {
    var once := HandleFieldChange(items, id, field, v2);
    var twice := HandleFieldChange(HandleFieldChange(items, id, field, v1), id, field, v2);
    assert forall k :: 0 <= k < |items| ==> twice[k] == once[k];
  }

  /** `handleAddItem`: one empty item is appended. */
  function HandleAddItem(items: seq<WorkUrlItem>, freshId: string): (next: seq<WorkUrlItem>)
    ensures |next| == |items| + 1 && next[..|items|] == items
    ensures next[|items|] == CreateEmptyWorkUrlItem(freshId)
  {
    items + [CreateEmptyWorkUrlItem(freshId)]
  }

  /** `handleRemove`: `items.filter(item => item.id !== id)`. */
  function HandleRemove(items: seq<WorkUrlItem>, id: string): (next: seq<WorkUrlItem>)
    ensures |next| <= |items|
    ensures forall item :: item in next <==> item in items && item.id != id
    ensures (forall k :: 0 <= k < |items| ==> items[k].id != id) ==> next == items
  {
    if items == [] then []
    else (if items[0].id == id then [] else [items[0]]) + HandleRemove(items[1..], id)
  }

  /** Removing keeps the remaining items in their order: it distributes over
      concatenation. */
  lemma {:induction false} RemoveAppend(a: seq<WorkUrlItem>, b: seq<WorkUrlItem>, id: string)
    ensures HandleRemove(a + b, id) == HandleRemove(a, id) + HandleRemove(b, id)
    decreases |a|
  {
    if a == [] {
      assert a + b == b;
    } else {
      assert (a + b)[1..] == a[1..] + b;
      RemoveAppend(a[1..], b, id);
    }
  }

  /** Removing an item just added under a fresh id gives the list back. */
  lemma AddThenRemove(items: seq<WorkUrlItem>, freshId: string)
    requires forall k :: 0 <= k < |items| ==> items[k].id != freshId
    ensures HandleRemove(HandleAddItem(items, freshId), freshId) == items
  {
    RemoveAppend(items, [CreateEmptyWorkUrlItem(freshId)], freshId);
  }

  /** A field change for an id no item has changes nothing. */
  lemma FieldChangeUnknownId(items: seq<WorkUrlItem>, id: string, field: Field, value: string)
    requires forall k :: 0 <= k < |items| ==> items[k].id != id
    ensures HandleFieldChange(items, id, field, value) == items
  {
  }
}
