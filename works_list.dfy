/**
 * The works list (`WorksList`, `WorkCard`): the per-card animation delay
 * derived from a 32-bit string hash of the work id, the select/deselect
 * toggle with its visibility rule, the lookup of the selected work and the
 * CLOSE action.
 */
module WorksList {
  import opened Wrappers
  import opened WorkTypes
  import opened Text

  const TwoTo32: int := 0x1_0000_0000
  const TwoTo31: int := 0x8000_0000

  /** `x | 0`: the signed 32-bit integer congruent to `x` modulo 2^32. */
  function ToInt32(x: int): (r: int)
    ensures -TwoTo31 <= r < TwoTo31
    ensures (r - x) % TwoTo32 == 0
  {
    (x + TwoTo31) % TwoTo32 - TwoTo31
  }

  /** `x >>> 0`: the unsigned 32-bit integer congruent to `x` modulo 2^32. */
  function ToUint32(x: int): (r: int)
    ensures 0 <= r < TwoTo32
    ensures (r - x) % TwoTo32 == 0
  {
    x % TwoTo32
  }

  /** The value of `hash` after the loop has read `units`: `h * 31 + code`,
      wrapped to a signed 32-bit integer after every step. */
  function Hash(units: seq<int>): (h: int)
    ensures -TwoTo31 <= h < TwoTo31
  {
    if units == [] then 0
    else ToInt32(Hash(units[..|units| - 1]) * 31 + units[|units| - 1])
  }

  /** `delayFromId(id, maxDelay)`: the unsigned hash reduced modulo
      `maxDelay + 1`; always within `[0, maxDelay]`, and 0 for the empty id. */
  method DelayFromId(id: string, maxDelay: int) returns (delay: int)
    requires maxDelay >= 0
    ensures delay == ToUint32(Hash(Utf16(id))) % (maxDelay + 1)
    ensures 0 <= delay <= maxDelay
    ensures id == "" ==> delay == 0
  {
    var units := Utf16(id);
    var hash := 0;
    var i := 0;
    while i < |units|
      invariant 0 <= i <= |units|
      invariant hash == Hash(units[..i])
    {
      assert units[..i + 1][..i] == units[..i];
      hash := ToInt32(hash * 31 + units[i]);
      i := i + 1;
    }
    assert units[..i] == units;
    delay := ToUint32(hash) % (maxDelay + 1);
  }

  /** The card's `onClick`: clicking the selected card clears the selection,
      clicking any other card selects it. */
  function ToggleSelection(selectingId: Option<string>, workId: string): (next: Option<string>)
    ensures next == None <==> selectingId == Some(workId)
    ensures next != None ==> next == Some(workId)
  {
    if selectingId == Some(workId) then None else Some(workId)
  }

  /** The selection state machine: Unselected --click(a)--> Selected(a);
      Selected(a) --click(a)--> Unselected; Selected(a) --click(b)--> Selected(b). */
  lemma SelectionMachine(a: string, b: string)
    requires a != b
    ensures ToggleSelection(None, a) == Some(a)
    ensures ToggleSelection(ToggleSelection(None, a), a) == None
    ensures ToggleSelection(ToggleSelection(None, a), b) == Some(b)
  {
  }

  /** A JavaScript truthiness test on the optional selected id. */
  predicate Truthy(id: Option<string>) {
    id.Some? && id.value != ""
  }

  /** The card's class rule: fully shown when it is the selected card or when
      the selection is falsy, hidden (transparent and not clickable) otherwise. */
  predicate CardVisible(selectingId: Option<string>, workId: string) {
    if selectingId == Some(workId) then true
    else if Truthy(selectingId) then false
    else true
  }

  /** A card is visible iff nothing is selected or it is the selected card. */
  lemma CardVisibleIff(selectingId: Option<string>, workId: string)
    ensures CardVisible(selectingId, workId) <==> !Truthy(selectingId) || selectingId == Some(workId)
  {
  }

  /** With a card selected, exactly that card stays visible. */
  lemma OnlySelectedVisible(works: seq<Work>, selected: string, k: nat)
    requires selected != "" && k < |works|
    ensures CardVisible(Some(selected), works[k].id) <==> works[k].id == selected
  {
  }

  /** `works.find((work) => work.id === selectingWorkId)`. */
  function FindSelected(works: seq<Work>, selectingId: Option<string>): (r: Option<Work>)
    ensures r.Some? ==> r.value in works && selectingId == Some(r.value.id)
    ensures r.None? ==> forall w :: w in works ==> selectingId != Some(w.id)
  {
    if works == [] then None
    else if selectingId == Some(works[0].id) then Some(works[0])
    else FindSelected(works[1..], selectingId)
  }

  /** The found work is the first one with the selected id. */
  lemma {:induction false} FindSelectedFirst(works: seq<Work>, selectingId: Option<string>, k: nat)
    requires k < |works| && selectingId == Some(works[k].id)
    requires forall j :: 0 <= j < k ==> works[j].id != works[k].id
    ensures FindSelected(works, selectingId) == Some(works[k])
    decreases k
  {
    if k > 0 {
      FindSelectedFirst(works[1..], selectingId, k - 1);
    }
  }

  /** The CLOSE button: the selection becomes undefined. */
  function CloseSelection(): (next: Option<string>)
    ensures !Truthy(next)
  {
    None
  }

  /** After CLOSE every card is visible and no work is shown in detail. */
  lemma CloseShowsAll(works: seq<Work>, workId: string)
    ensures CardVisible(CloseSelection(), workId)
    ensures FindSelected(works, CloseSelection()) == None
  {
  }
}
