/**
 * The bookkeeping behind the MobileInputReaction component: for each reaction
 * field (by index) whether it uses action triggers and whether it uses
 * argument triggers, kept both as an index list and as an index -> bool
 * usage container. The component rebuilds the containers from the lists on
 * start; its editor inspector resizes the containers to the number of
 * reaction fields and writes lists and containers back to the component.
 *
 * Dictionary enumeration order is not specified by the runtime, so the loops
 * over a container pick their next key with `:|` and the contracts hold for
 * every order.
 */
module Reaction {
  /** A usage container: reaction field index -> whether the field uses the trigger kind. */
  type Usage = map<int, bool>

  /** The container rebuilt from an index list: the same keys, each mapped to whether the list holds it. */
  function Rebuilt(container: Usage, indices: seq<int>): (r: Usage)
    ensures r.Keys == container.Keys
  {
    map k | k in container :: k in indices
  }

  /** The usage container for the first n fields, read off an index list. */
  function FromIndexList(n: nat, indices: seq<int>): (r: Usage)
    ensures forall k :: k in r <==> 0 <= k < n
  {
    map k | 0 <= k < n :: k in indices
  }

  /** A container resized to n fields: the entries below n kept, missing ones false, the rest dropped. */
  function Resized(container: Usage, n: nat): (r: Usage)
    ensures forall k :: k in r <==> 0 <= k < n
  {
    map k | 0 <= k < n :: if k in container then container[k] else false
  }

  /** The keys of the container are exactly 0 .. Count - 1. */
  ghost predicate Dense(container: Usage) {
    forall k :: k in container <==> 0 <= k < |container|
  }

  /** The index list holds each key whose entry is true, each once, and nothing else. */
  ghost predicate ListsUsed(indices: seq<int>, container: Usage) {
    && (forall k :: k in indices <==> k in container && container[k])
    && (forall i, j :: 0 <= i < j < |indices| ==> indices[i] != indices[j])
  }

  /** Rebuilding changes no entry into anything but list membership, and adds no key from the list. */
  lemma RebuiltFollowsList(container: Usage, indices: seq<int>)
    ensures forall k :: k in Rebuilt(container, indices) ==> (Rebuilt(container, indices)[k] <==> k in indices)
    ensures forall k :: k in indices && k !in container ==> k !in Rebuilt(container, indices)
  {
  }

  /** Rebuilding a second time from the same list changes nothing. */
  lemma RebuildIdempotent(container: Usage, indices: seq<int>)
    ensures Rebuilt(Rebuilt(container, indices), indices) == Rebuilt(container, indices)
  {
  }

  /** Rebuilding from the list of the keys that are used gives back the container entry for entry. */
  lemma {:induction false} RebuiltFromUsedList(container: Usage, indices: seq<int>)
    requires ListsUsed(indices, container)
    ensures Rebuilt(container, indices) == container
  {
    var r := Rebuilt(container, indices);
    forall k | k in container ensures r[k] == container[k] {
      assert k in indices <==> container[k];
    }
  }

  /** Resizing a dense container that already has n entries leaves it as it is. */
  lemma ResizedDenseIsSame(container: Usage, n: nat)
    requires Dense(container) && |container| == n
    ensures Resized(container, n) == container
  {
  }

  /** The container built from a list is dense, and resizing it to its own size keeps it. */
  lemma FromIndexListIsResized(n: nat, indices: seq<int>)
    ensures Resized(FromIndexList(n, indices), n) == FromIndexList(n, indices)
    ensures forall k :: k in indices && !(0 <= k < n) ==> k !in FromIndexList(n, indices)
  {
  }

  /** A non-empty set of indices has a member to visit next. */
  lemma HasMember(s: set<int>)
    requires s != {}
    ensures exists k: int :: k in s
  {
    if forall k: int :: k !in s {
      assert false;
    }
  }

  /** The foreach over a container that Adds (key, list.Contains(key)) to a new dictionary. */
  method RebuildUsageContainer(container: Usage, indices: seq<int>) returns (updated: Usage)
    ensures updated == Rebuilt(container, indices)
  {
    updated := map[];
    var toVisit := container.Keys;
    while toVisit != {}
      invariant toVisit <= container.Keys
      invariant updated.Keys == container.Keys - toVisit
      invariant forall k :: k in updated ==> updated[k] == (k in indices)
      decreases toVisit
    {
      HasMember(toVisit);
      var key: int :| key in toVisit;
      updated := updated[key := key in indices];
      toVisit := toVisit - {key};
    }
    var r := Rebuilt(container, indices);
    assert toVisit == {};
    assert forall k :: k in updated <==> k in r;
    assert forall k :: k in updated ==> updated[k] == r[k];
  }

  /** The foreach over a container that adds to a new list each key whose value is true. */
  method CollectUsedIndices(container: Usage) returns (used: seq<int>)
    ensures ListsUsed(used, container)
  {
    used := [];
    var toVisit := container.Keys;
    while toVisit != {}
      invariant toVisit <= container.Keys
      invariant forall k :: k in used <==> k in container - toVisit && container[k]
      invariant forall i, j :: 0 <= i < j < |used| ==> used[i] != used[j]
      decreases toVisit
    {
      HasMember(toVisit);
      var key: int :| key in toVisit;
      if container[key] {
        used := used + [key];
      }
      toVisit := toVisit - {key};
    }
  }

  /** The MobileInputReaction component's index lists and usage containers. */
  class MobileInputReaction {
    var reactionFieldsUsingActions: seq<int>
    var reactionFieldsUsingArguments: seq<int>
    var useActionTriggerContainer: Usage
    var useArgumentTriggerContainer: Usage

    constructor ()
      ensures reactionFieldsUsingActions == [] && reactionFieldsUsingArguments == []
      ensures useActionTriggerContainer == map[] && useArgumentTriggerContainer == map[]
    {
      reactionFieldsUsingActions := [];
      reactionFieldsUsingArguments := [];
      useActionTriggerContainer := map[];
      useArgumentTriggerContainer := map[];
    }

    /** Setup: both containers rebuilt from their index lists; the lists are left alone. */
    method Setup()
      modifies this
      ensures useActionTriggerContainer == Rebuilt(old(useActionTriggerContainer), reactionFieldsUsingActions)
      ensures useArgumentTriggerContainer == Rebuilt(old(useArgumentTriggerContainer), reactionFieldsUsingArguments)
      ensures reactionFieldsUsingActions == old(reactionFieldsUsingActions)
      ensures reactionFieldsUsingArguments == old(reactionFieldsUsingArguments)
    {
      useActionTriggerContainer := RebuildUsageContainer(useActionTriggerContainer, reactionFieldsUsingActions);
      useArgumentTriggerContainer := RebuildUsageContainer(useArgumentTriggerContainer, reactionFieldsUsingArguments);
    }
  }

  /** The editor inspector of MobileInputReaction: its own usage containers and the reaction field count. */
  class MobileInputReactionInspector {
    /** inputReactionFields.arraySize: the number of reaction fields. */
    var arraySize: nat
    var useActionTriggerContainer: Usage
    var useArgumentTriggerContainer: Usage

    constructor (fieldAmount: nat)
      ensures arraySize == fieldAmount
      ensures useActionTriggerContainer == map[] && useArgumentTriggerContainer == map[]
    {
      arraySize := fieldAmount;
      useActionTriggerContainer := map[];
      useArgumentTriggerContainer := map[];
    }

    /** The loops of SetupSerializedProperties: one entry per reaction field, true when the target lists it. */
    method SetupSerializedProperties(target: MobileInputReaction)
      modifies this
      ensures arraySize == old(arraySize)
      ensures useActionTriggerContainer == FromIndexList(arraySize, target.reactionFieldsUsingActions)
      ensures useArgumentTriggerContainer == FromIndexList(arraySize, target.reactionFieldsUsingArguments)
      ensures Dense(useActionTriggerContainer) && |useActionTriggerContainer| == arraySize
      ensures Dense(useArgumentTriggerContainer) && |useArgumentTriggerContainer| == arraySize
    {
      var useActionTriggerDictionary := BuildUsage(arraySize, target.reactionFieldsUsingActions);
      var useArgumentTriggerDictionary := BuildUsage(arraySize, target.reactionFieldsUsingArguments);
      useActionTriggerContainer := useActionTriggerDictionary;
      useArgumentTriggerContainer := useArgumentTriggerDictionary;
    }

    /** One loop of SetupSerializedProperties: Add(i, list.Contains(i)) for i from 0 below n. */
    static method BuildUsage(n: nat, indices: seq<int>) returns (usage: Usage)
      ensures usage == FromIndexList(n, indices)
      ensures Dense(usage) && |usage| == n
    {
      usage := map[];
      for i := 0 to n
        invariant usage == FromIndexList(i, indices)
        invariant Dense(usage) && |usage| == i
      {
        usage := usage[i := i in indices];
      }
    }

    /**
     * UpdateArgumentTriggerUsage: the target's list becomes the keys used
     * according to the inspector's container, and the target's container is
     * rebuilt from that list. The action fields are left alone.
     */
    method UpdateArgumentTriggerUsage(castedTarget: MobileInputReaction)
      modifies castedTarget
      ensures ListsUsed(castedTarget.reactionFieldsUsingArguments, useArgumentTriggerContainer)
      ensures castedTarget.useArgumentTriggerContainer == useArgumentTriggerContainer
      ensures castedTarget.reactionFieldsUsingActions == old(castedTarget.reactionFieldsUsingActions)
      ensures castedTarget.useActionTriggerContainer == old(castedTarget.useActionTriggerContainer)
    {
      var updatedTriggersUsingArguments := CollectUsedIndices(useArgumentTriggerContainer);
      var updatedUseArgumentTriggerContainer := RebuildUsageContainer(useArgumentTriggerContainer, updatedTriggersUsingArguments);
      RebuiltFromUsedList(useArgumentTriggerContainer, updatedTriggersUsingArguments);
      castedTarget.reactionFieldsUsingArguments := updatedTriggersUsingArguments;
      castedTarget.useArgumentTriggerContainer := updatedUseArgumentTriggerContainer;
    }

    /** UpdateActionTriggerUsage: the same for the action list and container; the argument fields are left alone. */
    method UpdateActionTriggerUsage(castedTarget: MobileInputReaction)
      modifies castedTarget
      ensures ListsUsed(castedTarget.reactionFieldsUsingActions, useActionTriggerContainer)
      ensures castedTarget.useActionTriggerContainer == useActionTriggerContainer
      ensures castedTarget.reactionFieldsUsingArguments == old(castedTarget.reactionFieldsUsingArguments)
      ensures castedTarget.useArgumentTriggerContainer == old(castedTarget.useArgumentTriggerContainer)
    {
      var updatedTriggersUsingActions := CollectUsedIndices(useActionTriggerContainer);
      var updatedUseActionTrigger := RebuildUsageContainer(useActionTriggerContainer, updatedTriggersUsingActions);
      RebuiltFromUsedList(useActionTriggerContainer, updatedTriggersUsingActions);
      castedTarget.reactionFieldsUsingActions := updatedTriggersUsingActions;
      castedTarget.useActionTriggerContainer := updatedUseActionTrigger;
    }

    /**
     * ResizeUsageDictionary: removes the key Count - 1 or adds the key Count
     * mapped to false, and recurses until Count equals the field count.
     */
    method ResizeUsageDictionary(dictionaryToResize: Usage) returns (r: Usage)
      requires Dense(dictionaryToResize)
      ensures Dense(r) && |r| == arraySize
      ensures r == Resized(dictionaryToResize, arraySize)
      decreases if arraySize < |dictionaryToResize| then |dictionaryToResize| - arraySize else arraySize - |dictionaryToResize|
    {
      r := dictionaryToResize;
      if arraySize < |r| {
        r := RemoveLast(r);
      }
      if arraySize > |r| {
        r := AddLast(r);
      }
      if arraySize != |r| {
        r := ResizeUsageDictionary(r);
      } else {
        ResizedDenseIsSame(r, arraySize);
      }
    }
  }

  /** Remove(Count - 1) on a dense, non-empty container. */
  function RemoveLast(container: Usage): (r: Usage)
    requires Dense(container) && |container| > 0
    ensures Dense(r) && |r| == |container| - 1
    ensures forall n: nat :: n <= |r| ==> Resized(r, n) == Resized(container, n)
  {
    var last := |container| - 1;
    assert last in container;
    var r := container - {last};
    assert r.Keys == container.Keys - {last};
    r
  }

  /** Add(Count, false) on a dense container. */
  function AddLast(container: Usage): (r: Usage)
    requires Dense(container)
    ensures Dense(r) && |r| == |container| + 1
    ensures forall n: nat :: n >= |r| ==> Resized(r, n) == Resized(container, n)
  {
    var next := |container|;
    assert next !in container;
    container[next := false]
  }
}
