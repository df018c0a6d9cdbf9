/**
 * The tech-stack lookup of `useTechInfoGetter` (and the identical lookup in
 * the work card): a map from tech id to tech built from the tech list, then
 * the work's tech entries mapped through it in order, unknown ids skipped.
 */
module TechInfo {
  import opened WorkTypes

  /** `new Map(techs.map(stack => [stack.id, stack]))`. */
  function TechsById(techs: seq<TechStack>): (byId: map<string, TechStack>)
    ensures forall id :: id in byId <==> exists i :: 0 <= i < |techs| && techs[i].id == id
    ensures forall id :: id in byId ==> byId[id].id == id && byId[id] in techs
  {
    if techs == [] then map[]
    else
      var init := techs[..|techs| - 1];
      var last := techs[|techs| - 1];
      assert forall i :: 0 <= i < |init| ==> init[i] == techs[i];
      TechsById(init)[last.id := last]
  }

  /** When ids repeat, the map holds the last tech with that id. */
  lemma {:induction false} LaterEntryWins(techs: seq<TechStack>, i: nat)
    requires i < |techs|
    requires forall j :: i < j < |techs| ==> techs[j].id != techs[i].id
    ensures techs[i].id in TechsById(techs) && TechsById(techs)[techs[i].id] == techs[i]
    decreases |techs|
  {
    if i < |techs| - 1 {
      var init := techs[..|techs| - 1];
      assert init[i] == techs[i];
      LaterEntryWins(init, i);
    }
  }

  /** `techStacks.flatMap(stack => byId.get(stack.tech_stack_id) ? [tech] : [])`. */
  function TechsInfo(techStacks: seq<WorkTechStack>, byId: map<string, TechStack>): (infos: seq<TechStack>)
    ensures |infos| <= |techStacks|
    ensures forall t :: t in infos ==>
      exists k :: 0 <= k < |techStacks| && techStacks[k].techStackId in byId && byId[techStacks[k].techStackId] == t
  {
    if techStacks == [] then []
    else
      var id := techStacks[0].techStackId;
      var rest := TechsInfo(techStacks[1..], byId);
      assert forall t :: t in rest ==>
        exists k :: 1 <= k < |techStacks| && techStacks[k].techStackId in byId && byId[techStacks[k].techStackId] == t;
      (if id in byId then [byId[id]] else []) + rest
  }

  /** The lookup keeps the order of the entries: it distributes over concatenation. */
  lemma {:induction false} TechsInfoAppend(a: seq<WorkTechStack>, b: seq<WorkTechStack>, byId: map<string, TechStack>)
    ensures TechsInfo(a + b, byId) == TechsInfo(a, byId) + TechsInfo(b, byId)
    decreases |a|
  {
    if a == [] {
      assert a + b == b;
    } else {
      assert (a + b)[1..] == a[1..] + b;
      TechsInfoAppend(a[1..], b, byId);
    }
  }

  /** When every entry is known, the output is entry by entry the tech with
      the entry's id, so repeated entries give repeated techs. */
  lemma {:induction false} TechsInfoAllKnown(techStacks: seq<WorkTechStack>, byId: map<string, TechStack>)
    requires forall k :: 0 <= k < |techStacks| ==> techStacks[k].techStackId in byId
    ensures |TechsInfo(techStacks, byId)| == |techStacks|
    ensures forall k :: 0 <= k < |techStacks| ==> TechsInfo(techStacks, byId)[k] == byId[techStacks[k].techStackId]
    decreases |techStacks|
  {
    if techStacks != [] {
      TechsInfoAllKnown(techStacks[1..], byId);
    }
  }

  /** Entries whose id is unknown contribute nothing. */
  lemma {:induction false} TechsInfoSkipsUnknown(techStacks: seq<WorkTechStack>, byId: map<string, TechStack>)
    requires forall k :: 0 <= k < |techStacks| ==> techStacks[k].techStackId !in byId
    ensures TechsInfo(techStacks, byId) == []
    decreases |techStacks|
  {
    if techStacks != [] {
      TechsInfoSkipsUnknown(techStacks[1..], byId);
    }
  }

  /** `useTechInfoGetter`: the techs of a work's entries, looked up in the tech list. */
  function UseTechInfoGetter(techStacks: seq<WorkTechStack>, techs: seq<TechStack>): (techsInfo: seq<TechStack>)
    ensures |techsInfo| <= |techStacks|
    ensures forall t :: t in techsInfo ==>
      t in techs && exists k :: 0 <= k < |techStacks| && techStacks[k].techStackId == t.id
  {
    TechsInfo(techStacks, TechsById(techs))
  }

  /** One entry whose id two techs share gives the later of the two. */
  lemma DuplicateTechIdExample(a: TechStack, b: TechStack, entry: WorkTechStack)
    requires a.id == b.id == entry.techStackId && a != b
    ensures UseTechInfoGetter([entry], [a, b]) == [b]
  {
    LaterEntryWins([a, b], 1);
  }
}
