/**
 * Game-mode helpers over the cosmos (src/game/modes/mode_helpers.h): faction enumeration,
 * team-spawn point markers, and clearing dropped test items.
 * Point markers are given in the cosmos's iteration order.
 */
module ModeHelpers {
  import opened Ints
  import opened Wrappers
  import opened Factions
  import opened CallbackResults
  import Inventory

  /** `for_each_faction`: the factions that can play, in this order. */
  function ForEachFaction(): (r: seq<Faction>)
    ensures |r| == 3 && r[0] == Metropolis && r[1] == Atlantis && r[2] == Resistance
  {
    [Metropolis, Atlantis, Resistance]
  }

  /** Every faction but SPECTATOR is enumerated, exactly once. */
  lemma ForEachFactionEnumeratesActualFactions()
    ensures forall f: Faction :: f in ForEachFaction() <==> f != Spectator
    ensures forall i, j | 0 <= i < j < |ForEachFaction()| :: ForEachFaction()[i] != ForEachFaction()[j]
  {
  }

  datatype PointMarkerType = TeamSpawn | OtherMarker(code: nat)

  datatype PointMarker = PointMarker(id: nat, markerType: PointMarkerType, officialFaction: Faction)

  predicate IsFactionSpawn(m: PointMarker, f: Faction) {
    m.markerType == TeamSpawn && m.officialFaction == f
  }

  /** What one marker contributes to the faction's spawns. */
  function SpawnOf(m: PointMarker, f: Faction): seq<nat> {
    if IsFactionSpawn(m, f) then [m.id] else []
  }

  /** The ids `for_each_faction_spawn` considers: team-spawn markers of the faction, in iteration order. */
  function FactionSpawns(markers: seq<PointMarker>, f: Faction): (r: seq<nat>)
    ensures |r| <= |markers|
  {
    if markers == [] then [] else SpawnOf(markers[0], f) + FactionSpawns(markers[1..], f)
  }

  /** A marker's id is among the faction's spawns when it is one of its team spawns, and every spawn comes from such a marker. */
  lemma {:induction false} FactionSpawnsAreExactlyMatchingMarkers(markers: seq<PointMarker>, f: Faction)
    ensures forall k | 0 <= k < |markers| && IsFactionSpawn(markers[k], f) :: markers[k].id in FactionSpawns(markers, f)
    ensures forall x | x in FactionSpawns(markers, f) :: exists k | 0 <= k < |markers| :: IsFactionSpawn(markers[k], f) && markers[k].id == x
  {
    if markers != [] {
      FactionSpawnsAreExactlyMatchingMarkers(markers[1..], f);
      forall k | 0 <= k < |markers| && IsFactionSpawn(markers[k], f)
        ensures markers[k].id in FactionSpawns(markers, f)
      {
        if k > 0 {
          assert markers[1..][k - 1] == markers[k];
        }
      }
      forall x | x in FactionSpawns(markers, f)
        ensures exists k | 0 <= k < |markers| :: IsFactionSpawn(markers[k], f) && markers[k].id == x
      {
        if !(IsFactionSpawn(markers[0], f) && markers[0].id == x) {
          var k' :| 0 <= k' < |markers[1..]| && IsFactionSpawn(markers[1..][k'], f) && markers[1..][k'].id == x;
          assert markers[k' + 1] == markers[1..][k'];
        }
      }
    }
  }

  /** The spawns among the first k markers, extended by one more marker. */
  lemma FactionSpawnsStep(markers: seq<PointMarker>, k: nat, f: Faction)
    requires k < |markers|
    ensures FactionSpawns(markers[..k + 1], f) == FactionSpawns(markers[..k], f) + SpawnOf(markers[k], f)
  {
    FactionSpawnsConcat(markers[..k], [markers[k]], f);
    assert markers[..k + 1] == markers[..k] + [markers[k]];
  }

  lemma {:induction false} FactionSpawnsConcat(a: seq<PointMarker>, b: seq<PointMarker>, f: Faction)
    ensures FactionSpawns(a + b, f) == FactionSpawns(a, f) + FactionSpawns(b, f)
  {
    if a == [] {
      assert a + b == b;
    } else {
      var ab := a + b;
      assert ab != [] && ab[0] == a[0];
      assert ab[1..] == a[1..] + b;
      calc {
        FactionSpawns(ab, f);
        SpawnOf(a[0], f) + FactionSpawns(a[1..] + b, f);
        { FactionSpawnsConcat(a[1..], b, f); }
        SpawnOf(a[0], f) + (FactionSpawns(a[1..], f) + FactionSpawns(b, f));
        (SpawnOf(a[0], f) + FactionSpawns(a[1..], f)) + FactionSpawns(b, f);
      }
    }
  }

  /** The spawns of all markers are those before marker k, then marker k's, then those after it. */
  lemma FactionSpawnsAround(markers: seq<PointMarker>, k: nat, f: Faction)
    requires k < |markers|
    ensures FactionSpawns(markers, f) == FactionSpawns(markers[..k], f) + SpawnOf(markers[k], f) + FactionSpawns(markers[k + 1..], f)
  {
    FactionSpawnsConcat(markers[..k + 1], markers[k + 1..], f);
    assert markers[..k + 1] + markers[k + 1..] == markers;
    FactionSpawnsStep(markers, k, f);
  }

  /** A spawn that answers ABORT, after spawns that all answered CONTINUE, ends the visit there. */
  lemma AbortAtSpawn(markers: seq<PointMarker>, f: Faction, k: nat, callback: nat -> CallbackResult)
    requires k < |markers| && IsFactionSpawn(markers[k], f) && callback(markers[k].id) == Abort
    requires forall j | 0 <= j < |FactionSpawns(markers[..k], f)| :: callback(FactionSpawns(markers[..k], f)[j]) == Continue
    ensures FactionSpawns(markers[..k], f) + [markers[k].id] == VisitedUntilAbort(FactionSpawns(markers, f), callback)
  {
    var before := FactionSpawns(markers[..k], f);
    var all := FactionSpawns(markers, f);
    FactionSpawnsAround(markers, k, f);
    assert all[..|before|] == before;
    assert all[|before|] == markers[k].id;
    VisitAfterContinues(all, |before|, callback);
    VisitStep(all, |before|, callback);
  }

  /**
   * `for_each_faction_spawn`: hands the faction's team spawns to the callback, in iteration
   * order, until it answers ABORT.
   */
  method ForEachFactionSpawn(markers: seq<PointMarker>, f: Faction, callback: nat -> CallbackResult) returns (visited: seq<nat>)
    ensures visited == VisitedUntilAbort(FactionSpawns(markers, f), callback)
  {
    visited := [];
    var k := 0;
    while k < |markers|
      invariant 0 <= k <= |markers|
      invariant visited == FactionSpawns(markers[..k], f)
      invariant forall j | 0 <= j < |visited| :: callback(visited[j]) == Continue
    {
      FactionSpawnsStep(markers, k, f);
      if IsFactionSpawn(markers[k], f) {
        if callback(markers[k].id) == Abort {
          AbortAtSpawn(markers, f, k, callback);
          visited := visited + [markers[k].id];
          return;
        }
        visited := visited + [markers[k].id];
      }
      k := k + 1;
    }
    assert markers[..k] == markers;
    VisitsAllWithoutAbort(visited, callback);
  }

  /** `get_num_faction_spawns`: counts the faction's team spawns. */
  method GetNumFactionSpawns(markers: seq<PointMarker>, f: Faction) returns (total: nat)
    ensures total == |FactionSpawns(markers, f)|
  {
    total := 0;
    var k := 0;
    while k < |markers|
      invariant 0 <= k <= |markers|
      invariant total == |FactionSpawns(markers[..k], f)|
    {
      FactionSpawnsStep(markers, k, f);
      if IsFactionSpawn(markers[k], f) {
        total := total + 1;
      }
      k := k + 1;
    }
    assert markers[..k] == markers;
  }

  /**
   * `find_faction_spawn`: the spawn with the given 0-based index among the faction's team
   * spawns, or the dead handle when there are not that many.
   */
  method FindFactionSpawn(markers: seq<PointMarker>, f: Faction, spawnIndex: uint32) returns (r: Option<nat>)
    ensures spawnIndex < |FactionSpawns(markers, f)| ==> r == Some(FactionSpawns(markers, f)[spawnIndex])
    ensures spawnIndex >= |FactionSpawns(markers, f)| ==> r.None?
  {
    var remaining: int := spawnIndex;
    var k := 0;
    while k < |markers|
      invariant 0 <= k <= |markers|
      invariant remaining == spawnIndex - |FactionSpawns(markers[..k], f)| >= 0
    {
      FactionSpawnsStep(markers, k, f);
      if IsFactionSpawn(markers[k], f) {
        if remaining > 0 {
          remaining := remaining - 1;
        } else {
          FactionSpawnsAround(markers, k, f);
          return Some(markers[k].id);
        }
      }
      k := k + 1;
    }
    assert markers[..k] == markers;
    return None;
  }

  /** `calc_spawnable_factions`: for each playing faction, whether it has at least one team spawn. */
  method CalcSpawnableFactions(markers: seq<PointMarker>) returns (result: map<Faction, bool>)
    ensures forall f | f in ForEachFaction() :: f in result && (result[f] <==> |FactionSpawns(markers, f)| > 0)
  {
    result := map[Metropolis := false, Atlantis := false, Resistance := false];
    var factions := ForEachFaction();
    var i := 0;
    while i < |factions|
      invariant 0 <= i <= |factions|
      invariant forall f | f in factions :: f in result
      invariant forall j | 0 <= j < i :: result[factions[j]] <==> |FactionSpawns(markers, factions[j])| > 0
      invariant forall j | i <= j < |factions| :: !result[factions[j]]
    {
      var f := factions[i];
      var k := 0;
      while k < |markers|
        invariant 0 <= k <= |markers|
        invariant FactionSpawns(markers[..k], f) == []
      {
        FactionSpawnsStep(markers, k, f);
        if IsFactionSpawn(markers[k], f) {
          FactionSpawnsAround(markers, k, f);
          result := result[f := true];
          break;
        }
        k := k + 1;
      }
      if k == |markers| {
        assert markers[..k] == markers;
      }
      i := i + 1;
    }
  }

  /** Whether an entity is an item lying in no live slot. */
  predicate IsDroppedItem(c: Inventory.Cosmos, e: nat) {
    e in c.entities && c.entities[e].item.Some?
    && (c.entities[e].item.value.None? || !Inventory.SlotAlive(c, c.entities[e].item.value.value))
  }

  /** What one entity adds to the deletion queue: itself and everything inside it, when it is a dropped item. */
  function QueuedFor(c: Inventory.Cosmos, e: nat, fuel: nat): seq<nat> {
    if IsDroppedItem(c, e) then [e] + Inventory.ContainedRecursive(c, e, fuel) else []
  }

  /** The deletion queue: each dropped item, followed by everything inside it (at most `fuel` levels deep). */
  function DroppedItemsQueue(c: Inventory.Cosmos, itemOrder: seq<nat>, fuel: nat): seq<nat> {
    if itemOrder == [] then [] else QueuedFor(c, itemOrder[0], fuel) + DroppedItemsQueue(c, itemOrder[1..], fuel)
  }

  lemma {:induction false} DroppedItemsQueueConcat(c: Inventory.Cosmos, a: seq<nat>, b: seq<nat>, fuel: nat)
    ensures DroppedItemsQueue(c, a + b, fuel) == DroppedItemsQueue(c, a, fuel) + DroppedItemsQueue(c, b, fuel)
  {
    if a == [] {
      assert a + b == b;
    } else {
      var ab := a + b;
      assert ab != [] && ab[0] == a[0];
      assert ab[1..] == a[1..] + b;
      calc {
        DroppedItemsQueue(c, ab, fuel);
        QueuedFor(c, a[0], fuel) + DroppedItemsQueue(c, a[1..] + b, fuel);
        { DroppedItemsQueueConcat(c, a[1..], b, fuel); }
        QueuedFor(c, a[0], fuel) + (DroppedItemsQueue(c, a[1..], fuel) + DroppedItemsQueue(c, b, fuel));
        (QueuedFor(c, a[0], fuel) + DroppedItemsQueue(c, a[1..], fuel)) + DroppedItemsQueue(c, b, fuel);
      }
    }
  }

  /** The queue for the first k entities, extended by one more entity. */
  lemma DroppedItemsQueueStep(c: Inventory.Cosmos, itemOrder: seq<nat>, k: nat, fuel: nat)
    requires k < |itemOrder|
    ensures DroppedItemsQueue(c, itemOrder[..k + 1], fuel) == DroppedItemsQueue(c, itemOrder[..k], fuel) + QueuedFor(c, itemOrder[k], fuel)
  {
    var e := itemOrder[k];
    DroppedItemsQueueConcat(c, itemOrder[..k], [e], fuel);
    assert itemOrder[..k + 1] == itemOrder[..k] + [e];
    assert [e][1..] == [];
    assert DroppedItemsQueue(c, [e], fuel) == QueuedFor(c, e, fuel) + DroppedItemsQueue(c, [], fuel);
  }

  /** Every dropped item is queued. */
  lemma {:induction false} DroppedItemsAreQueued(c: Inventory.Cosmos, itemOrder: seq<nat>, fuel: nat)
    ensures forall k | 0 <= k < |itemOrder| && IsDroppedItem(c, itemOrder[k]) :: itemOrder[k] in DroppedItemsQueue(c, itemOrder, fuel)
  {
    if itemOrder != [] {
      DroppedItemsAreQueued(c, itemOrder[1..], fuel);
      forall k | 0 <= k < |itemOrder| && IsDroppedItem(c, itemOrder[k])
        ensures itemOrder[k] in DroppedItemsQueue(c, itemOrder, fuel)
      {
        if k > 0 {
          assert itemOrder[1..][k - 1] == itemOrder[k];
        }
      }
    }
  }

  /**
   * What `itemOrder` stands for: the cosmos's iteration over the entities with an item
   * component, so it lists those entities and nothing else.
   */
  predicate IteratesItems(c: Inventory.Cosmos, itemOrder: seq<nat>) {
    && (forall k | 0 <= k < |itemOrder| :: itemOrder[k] in c.entities && c.entities[itemOrder[k]].item.Some?)
    && (forall e | e in c.entities && c.entities[e].item.Some? :: e in itemOrder)
  }

  /** Over the cosmos's own item iteration, every dropped item of the cosmos is queued. */
  lemma EveryDroppedItemQueued(c: Inventory.Cosmos, itemOrder: seq<nat>, fuel: nat)
    requires IteratesItems(c, itemOrder)
    ensures forall e | IsDroppedItem(c, e) :: e in DroppedItemsQueue(c, itemOrder, fuel)
  {
    DroppedItemsAreQueued(c, itemOrder, fuel);
    forall e | IsDroppedItem(c, e)
      ensures e in DroppedItemsQueue(c, itemOrder, fuel)
    {
      var k :| 0 <= k < |itemOrder| && itemOrder[k] == e;
    }
  }

  /** The first pass of `remove_test_dropped_items`: queues every dropped item with its recursive contents. */
  method QueueDroppedItems(c: Inventory.Cosmos, itemOrder: seq<nat>, fuel: nat) returns (q: seq<nat>)
    ensures q == DroppedItemsQueue(c, itemOrder, fuel)
  {
    q := [];
    var k := 0;
    while k < |itemOrder|
      invariant 0 <= k <= |itemOrder|
      invariant q == DroppedItemsQueue(c, itemOrder[..k], fuel)
    {
      var e := itemOrder[k];
      DroppedItemsQueueStep(c, itemOrder, k, fuel);
      if IsDroppedItem(c, e) {
        q := q + [e] + Inventory.ContainedRecursive(c, e, fuel);
      }
      k := k + 1;
    }
    assert itemOrder[..k] == itemOrder;
  }

  /**
   * The second pass of `remove_test_dropped_items`: deletes each queued entity that is still
   * alive, once; every other entity is left as it was.
   */
  method DeleteQueued(c: Inventory.Cosmos, q: seq<nat>) returns (deleted: seq<nat>, after: Inventory.Cosmos)
    ensures after.entities.Keys == c.entities.Keys - set x | x in q
    ensures forall e | e in after.entities :: after.entities[e] == c.entities[e]
    ensures forall x | x in deleted :: x in c.entities && x in q
    ensures forall i, j | 0 <= i < j < |deleted| :: deleted[i] != deleted[j]
  {
    deleted := [];
    after := c;
    var i := 0;
    while i < |q|
      invariant 0 <= i <= |q|
      invariant after.entities.Keys == c.entities.Keys - set x | x in q[..i]
      invariant forall e | e in after.entities :: after.entities[e] == c.entities[e]
      invariant forall x | x in deleted :: x in c.entities && x in q[..i]
      invariant forall x | x in deleted :: x !in after.entities
      invariant forall a, b | 0 <= a < b < |deleted| :: deleted[a] != deleted[b]
    {
      var e := q[i];
      assert q[..i + 1] == q[..i] + [e];
      if e in after.entities {
        after := Inventory.Cosmos(after.entities - {e});
        deleted := deleted + [e];
      }
      i := i + 1;
    }
    assert q[..i] == q;
  }

  /**
   * `remove_test_dropped_items`: queues every dropped item (in the order of `itemOrder`, the
   * cosmos's iteration over entities with an item component) with its recursive contents,
   * then deletes each queued entity that is still alive. Deleting removes that one entity.
   * When `itemOrder` is that iteration (`IteratesItems`), no dropped item survives.
   */
  method RemoveTestDroppedItems(c: Inventory.Cosmos, itemOrder: seq<nat>, fuel: nat)
    returns (deleted: seq<nat>, after: Inventory.Cosmos)
    ensures after.entities.Keys == c.entities.Keys - set x | x in DroppedItemsQueue(c, itemOrder, fuel)
    ensures forall e | e in after.entities :: after.entities[e] == c.entities[e]
    ensures forall x | x in deleted :: x in c.entities && x in DroppedItemsQueue(c, itemOrder, fuel)
    ensures forall i, j | 0 <= i < j < |deleted| :: deleted[i] != deleted[j]
    ensures IteratesItems(c, itemOrder) ==> forall e | IsDroppedItem(c, e) :: e !in after.entities
  {
    if IteratesItems(c, itemOrder) {
      EveryDroppedItemQueued(c, itemOrder, fuel);
    }
    var q := QueueDroppedItems(c, itemOrder, fuel);
    deleted, after := DeleteQueued(c, q);
  }
}
