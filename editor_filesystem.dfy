/**
 * The editor's resource tree (src/application/setups/editor/gui/editor_filesystem_gui.cpp):
 * shift-click range selection over the tree in UI order, the fixed folders of the special
 * (non-file) resources, and rebuilding those folders from the resource pools.
 * The inspector's own bookkeeping lives in code that is not part of this model; here
 * inspecting replaces the selection, quietly adding appends, and clearing empties it.
 */
module EditorFilesystem {
  import opened Wrappers
  import opened Decimal

  datatype ResourceType = Light | Particles | WanderingPixels | Firearm | Ammunition | Melee | Explosive | PointMarker | AreaMarker

  /** `editor_resource_id`; a default-constructed one is unset. */
  datatype ResourceId = Unset | ResourceId(isOfficial: bool, raw: nat, resourceType: ResourceType)

  predicate IsSet(id: ResourceId) { id.ResourceId? }

  /** What the inspector can hold: a resource, or any other inspectable object. */
  datatype Inspected = InspectedResource(id: ResourceId) | InspectedOther(code: nat)

  // ---------------------------------------------------------------------------------------
  // Shift-click range selection

  /**
   * What the shift-click callback adds, visiting `order` from position `k` with callback state
   * `state`: the state counts the endpoints met so far, every set id is added once the first
   * endpoint is met, and nothing is visited after the second.
   */
  function RangeFrom(order: seq<ResourceId>, k: nat, state: nat, a: ResourceId, b: ResourceId): seq<ResourceId>
    decreases |order| - k
  {
    if k >= |order| || state == 2 then []
    else
      var s := if IsEndpoint(order[k], a, b) then state + 1 else state;
      (if s > 0 && IsSet(order[k]) then [order[k]] else []) + RangeFrom(order, k + 1, s, a, b)
  }

  /** The set ids of a stretch of the tree, in order. */
  function SetIds(order: seq<ResourceId>): (r: seq<ResourceId>)
    ensures |r| <= |order|
    ensures forall x | x in r :: IsSet(x) && x in order
  {
    if order == [] then []
    else (if IsSet(order[0]) then [order[0]] else []) + SetIds(order[1..])
  }

  lemma SetIdsStep(order: seq<ResourceId>, k: nat, j: nat)
    requires k < j <= |order|
    ensures SetIds(order[k..j]) == (if IsSet(order[k]) then [order[k]] else []) + SetIds(order[k + 1..j])
  {
    assert order[k..j][0] == order[k] && order[k..j][1..] == order[k + 1..j];
  }

  predicate IsEndpoint(x: ResourceId, a: ResourceId, b: ResourceId) { x == a || x == b }

  predicate NoEndpointBetween(order: seq<ResourceId>, from: nat, to: nat, a: ResourceId, b: ResourceId)
    requires from <= to <= |order|
  {
    forall m | from <= m < to :: !IsEndpoint(order[m], a, b)
  }

  /** Inside the range (one endpoint met), the callback adds the set ids up to and including the next endpoint. */
  lemma {:induction false} RangeInside(order: seq<ResourceId>, k: nat, j: nat, a: ResourceId, b: ResourceId)
    requires k <= j < |order| && IsEndpoint(order[j], a, b) && NoEndpointBetween(order, k, j, a, b)
    ensures RangeFrom(order, k, 1, a, b) == SetIds(order[k..j + 1])
    decreases j - k
  {
    SetIdsStep(order, k, j + 1);
    if k == j {
      assert order[k + 1..j + 1] == [];
    } else {
      RangeInside(order, k + 1, j, a, b);
    }
  }

  /** Inside the range with no second endpoint after it, the callback adds every set id to the end. */
  lemma {:induction false} RangeToEnd(order: seq<ResourceId>, k: nat, a: ResourceId, b: ResourceId)
    requires k <= |order| && NoEndpointBetween(order, k, |order|, a, b)
    ensures RangeFrom(order, k, 1, a, b) == SetIds(order[k..])
    decreases |order| - k
  {
    if k < |order| {
      SetIdsStep(order, k, |order|);
      RangeToEnd(order, k + 1, a, b);
    }
  }

  /**
   * With the first endpoint at `i` and the second at `j`, the callback adds exactly the set
   * ids from `i` through `j`, in tree order.
   */
  lemma {:induction false} RangeBetweenEndpoints(order: seq<ResourceId>, k: nat, i: nat, j: nat, a: ResourceId, b: ResourceId)
    requires k <= i < j < |order| && IsEndpoint(order[i], a, b) && IsEndpoint(order[j], a, b)
    requires NoEndpointBetween(order, k, i, a, b) && NoEndpointBetween(order, i + 1, j, a, b)
    ensures RangeFrom(order, k, 0, a, b) == SetIds(order[i..j + 1])
    decreases i - k
  {
    if k == i {
      SetIdsStep(order, i, j + 1);
      RangeInside(order, i + 1, j, a, b);
    } else {
      RangeBetweenEndpoints(order, k + 1, i, j, a, b);
    }
  }

  /** With only one endpoint in the tree (the other row filtered out), the callback adds every set id from it to the end. */
  lemma {:induction false} RangeFromSingleEndpoint(order: seq<ResourceId>, k: nat, i: nat, a: ResourceId, b: ResourceId)
    requires k <= i < |order| && IsEndpoint(order[i], a, b)
    requires NoEndpointBetween(order, k, i, a, b) && NoEndpointBetween(order, i + 1, |order|, a, b)
    ensures RangeFrom(order, k, 0, a, b) == SetIds(order[i..])
    decreases i - k
  {
    if k == i {
      SetIdsStep(order, i, |order|);
      RangeToEnd(order, i + 1, a, b);
    } else {
      RangeFromSingleEndpoint(order, k + 1, i, a, b);
    }
  }

  /** With neither endpoint in the tree, nothing is added. */
  lemma {:induction false} RangeWithoutEndpoints(order: seq<ResourceId>, k: nat, a: ResourceId, b: ResourceId)
    requires k <= |order| && NoEndpointBetween(order, k, |order|, a, b)
    ensures RangeFrom(order, k, 0, a, b) == []
    decreases |order| - k
  {
    if k < |order| {
      RangeWithoutEndpoints(order, k + 1, a, b);
    }
  }

  /** The editor state the shift-click touches. */
  class EditorSetup {
    var inspected: seq<Inspected>
    var lastInspected: Option<Inspected>

    constructor ()
      ensures inspected == [] && lastInspected.None?
    {
      inspected := [];
      lastInspected := None;
    }

    predicate InspectsAnyResource()
      reads this
    {
      exists k | 0 <= k < |inspected| :: inspected[k].InspectedResource?
    }

    /**
     * A resource row was pressed. With shift held outside multi-selection, and an inspected
     * resource other than the clicked one as the anchor, the inspector is cleared, gets every
     * set resource from the first endpoint through the second in UI order, and the anchor stays
     * the last inspected. Without shift (or in multi-selection) the clicked resource is inspected.
     */
    method ResourcePressed(order: seq<ResourceId>, clicked: ResourceId, resourceExists: bool, shiftHeld: bool, wantsMultipleSelection: bool)
      modifies this
      ensures !resourceExists ==> inspected == old(inspected) && lastInspected == old(lastInspected)
      ensures resourceExists && !(shiftHeld && !wantsMultipleSelection) ==>
                inspected == [InspectedResource(clicked)] && lastInspected == Some(InspectedResource(clicked))
      ensures resourceExists && shiftHeld && !wantsMultipleSelection ==>
                if old(InspectsAnyResource()) && old(lastInspected).Some? && old(lastInspected).value.InspectedResource?
                   && old(lastInspected).value.id != clicked
                then inspected == Inspect(RangeFrom(order, 0, 0, clicked, old(lastInspected).value.id))
                     && lastInspected == old(lastInspected)
                else inspected == old(inspected) && lastInspected == old(lastInspected)
    {
      if !resourceExists {
        return;
      }
      if shiftHeld && !wantsMultipleSelection {
        var last := lastInspected;
        if InspectsAnyResource() && last.Some? && last.value.InspectedResource? && last.value.id != clicked {
          var anchor := last.value.id;
          var added := CollectRange(order, clicked, anchor);
          inspected := Inspect(added);
          lastInspected := Some(InspectedResource(anchor));
        }
      } else {
        inspected := [InspectedResource(clicked)];
        lastInspected := Some(InspectedResource(clicked));
      }
    }
  }

  /**
   * The shift-click callback run over the tree in UI order: a counter of endpoints met, every
   * set id added once the first is met, and the walk stopped after the second.
   */
  method CollectRange(order: seq<ResourceId>, a: ResourceId, b: ResourceId) returns (added: seq<ResourceId>)
    ensures added == RangeFrom(order, 0, 0, a, b)
  {
    added := [];
    var state := 0;
    var k := 0;
    while k < |order|
      invariant 0 <= k <= |order| && state <= 2
      invariant added + RangeFrom(order, k, state, a, b) == RangeFrom(order, 0, 0, a, b)
    {
      if state != 2 {
        var id := order[k];
        CollectStep(order, k, state, a, b, added);
        if id == a || id == b {
          state := state + 1;
        }
        if state > 0 && IsSet(id) {
          added := added + [id];
        }
      }
      k := k + 1;
    }
  }

  /** One visit of the shift-click callback keeps what was added followed by what is still to come. */
  lemma CollectStep(order: seq<ResourceId>, k: nat, state: nat, a: ResourceId, b: ResourceId, added: seq<ResourceId>)
    requires k < |order| && state < 2
    ensures var s := if IsEndpoint(order[k], a, b) then state + 1 else state;
            var added' := if s > 0 && IsSet(order[k]) then added + [order[k]] else added;
            added' + RangeFrom(order, k + 1, s, a, b) == added + RangeFrom(order, k, state, a, b)
  {
    var s := if IsEndpoint(order[k], a, b) then state + 1 else state;
    var rest := RangeFrom(order, k + 1, s, a, b);
    if s > 0 && IsSet(order[k]) {
      assert RangeFrom(order, k, state, a, b) == [order[k]] + rest;
      assert (added + [order[k]]) + rest == added + ([order[k]] + rest);
    } else {
      assert RangeFrom(order, k, state, a, b) == [] + rest;
      assert [] + rest == rest;
    }
  }

  /** The inspector entries for a list of resources. */
  function Inspect(ids: seq<ResourceId>): (r: seq<Inspected>)
    ensures |r| == |ids| && forall k | 0 <= k < |r| :: r[k] == InspectedResource(ids[k])
  {
    if ids == [] then [] else [InspectedResource(ids[0])] + Inspect(ids[1..])
  }

  // ---------------------------------------------------------------------------------------
  // Special resource folders

  datatype NodeType = Folder | OtherResource

  datatype FileNode = FileNode(associatedResource: ResourceId, nodeType: NodeType)

  datatype FolderNode = FolderNode(name: string, nodeType: NodeType, afterText: string, files: seq<FileNode>)

  const SPECIAL_FOLDER_NAMES: seq<string> := [
    "Lights", "Particles", "Wandering pixels", "Prefabs",
    "Firearms", "Ammunition", "Melee weapons", "Explosives",
    "Point markers", "Area markers"]

  /** Folder positions in the special root. */
  const LIGHTS := 0
  const PARTICLES := 1
  const WANDERING_PIXELS := 2
  const PREFABS := 3
  const FIREARMS := 4
  const AMMUNITION := 5
  const MELEE_WEAPONS := 6
  const EXPLOSIVES := 7
  const POINT_MARKERS := 8
  const AREA_MARKERS := 9

  /** The resource pools of a project (or of the official content), as the raw ids of each pool in pool order. */
  datatype ResourcePools = ResourcePools(
    lights: seq<nat>, particles: seq<nat>, wanderingPixels: seq<nat>,
    firearms: seq<nat>, ammunition: seq<nat>, melee: seq<nat>, explosives: seq<nat>,
    pointMarkers: seq<nat>, areaMarkers: seq<nat>)

  /** The label shown after a rebuilt folder's name: its number of resources in parentheses. */
  function CountLabel(n: nat): (s: string)
    ensures |s| >= 3 && s[0] == '(' && s[|s| - 1] == ')' && DecimalValue(s[1..|s| - 1]) == n
  {
    DecimalRoundTrip(n);
    assert ("(" + DecimalString(n) + ")")[1..|DecimalString(n)| + 1] == DecimalString(n);
    "(" + DecimalString(n) + ")"
  }

  /** The root of a special filesystem. */
  class SpecialRoot {
    var subfolders: seq<FolderNode>
    var files: seq<FileNode>
    var shouldSort: bool

    constructor ()
      ensures subfolders == [] && files == [] && shouldSort
    {
      subfolders := [];
      files := [];
      shouldSort := true;
    }

    /** The folders exist, with their fixed names and types, in their fixed order. */
    predicate HasSpecialFolders()
      reads this
    {
      |subfolders| == |SPECIAL_FOLDER_NAMES|
      && forall k | 0 <= k < |subfolders| :: subfolders[k].name == SPECIAL_FOLDER_NAMES[k] && subfolders[k].nodeType == Folder
    }

    /** `setup_special_filesystem`: ten empty folders with fixed names, kept in this order. */
    method SetupSpecialFilesystem()
      modifies this
      ensures HasSpecialFolders() && !shouldSort && files == []
      ensures forall k | 0 <= k < |subfolders| :: subfolders[k].files == [] && subfolders[k].afterText == ""
    {
      var folders: seq<FolderNode> := [];
      var k := 0;
      while k < 10
        invariant 0 <= k <= 10 && |folders| == k
        invariant forall j | 0 <= j < k :: folders[j] == FolderNode(SPECIAL_FOLDER_NAMES[j], Folder, "", [])
      {
        folders := folders + [FolderNode(SPECIAL_FOLDER_NAMES[k], Folder, "", [])];
        k := k + 1;
      }
      subfolders := folders;
      files := [];
      shouldSort := false;
    }

    /** `handle`: a folder lists its pool's resources, one file per pool element, and shows their count. */
    method HandleFolder(folder: nat, pool: seq<nat>, resourceType: ResourceType, official: bool)
      requires folder < |subfolders|
      modifies this
      ensures subfolders == RefilledAt(old(subfolders), folder, pool, resourceType, official)
      ensures files == old(files) && shouldSort == old(shouldSort)
    {
      var newFiles := MakePoolFiles(pool, resourceType, official);
      subfolders := subfolders[folder := subfolders[folder].(afterText := CountLabel(|pool|), files := newFiles)];
    }

    /** `rebuild_special_filesystem`: every folder but Prefabs is refilled from its pool. */
    method RebuildSpecialFilesystem(pools: ResourcePools, official: bool)
      requires |subfolders| == 10
      modifies this
      ensures |subfolders| == 10 && files == old(files) && shouldSort == old(shouldSort)
      ensures subfolders == RebuiltFolders(old(subfolders), pools, official)
    {
      HandleFolder(PARTICLES, pools.particles, Particles, official);
      HandleFolder(WANDERING_PIXELS, pools.wanderingPixels, WanderingPixels, official);
      HandleFolder(LIGHTS, pools.lights, Light, official);
      HandleFolder(FIREARMS, pools.firearms, Firearm, official);
      HandleFolder(AMMUNITION, pools.ammunition, Ammunition, official);
      HandleFolder(MELEE_WEAPONS, pools.melee, Melee, official);
      HandleFolder(EXPLOSIVES, pools.explosives, Explosive, official);
      HandleFolder(POINT_MARKERS, pools.pointMarkers, PointMarker, official);
      HandleFolder(AREA_MARKERS, pools.areaMarkers, AreaMarker, official);
    }
  }

  /** The folders after `handle` on one of them. */
  function RefilledAt(s: seq<FolderNode>, folder: nat, pool: seq<nat>, resourceType: ResourceType, official: bool): (r: seq<FolderNode>)
    requires folder < |s|
    ensures |r| == |s|
  {
    s[folder := Refilled(s[folder], pool, resourceType, official)]
  }

  /** The special folders after a rebuild: each folder but Prefabs refilled from its pool, in the order the rebuild visits them. */
  function RebuiltFolders(s: seq<FolderNode>, pools: ResourcePools, official: bool): (r: seq<FolderNode>)
    requires |s| == 10
    ensures |r| == 10
  {
    RefilledAt(RefilledAt(RefilledAt(RefilledAt(RefilledAt(RefilledAt(RefilledAt(RefilledAt(RefilledAt(s, PARTICLES, pools.particles, Particles, official), WANDERING_PIXELS, pools.wanderingPixels, WanderingPixels, official), LIGHTS, pools.lights, Light, official), FIREARMS, pools.firearms, Firearm, official), AMMUNITION, pools.ammunition, Ammunition, official), MELEE_WEAPONS, pools.melee, Melee, official), EXPLOSIVES, pools.explosives, Explosive, official), POINT_MARKERS, pools.pointMarkers, PointMarker, official), AREA_MARKERS, pools.areaMarkers, AreaMarker, official)
  }

  /**
   * A rebuild leaves Prefabs alone, keeps every folder's name and type, and refills each of
   * the other nine from its own pool: its label is the pool's count and its files the pool's resources.
   */
  lemma RebuildRefillsEachFolder(s: seq<FolderNode>, pools: ResourcePools, official: bool)
    requires |s| == 10
    ensures var r := RebuiltFolders(s, pools, official);
              r[PREFABS] == s[PREFABS]
              && (forall k | 0 <= k < 10 :: r[k].name == s[k].name && r[k].nodeType == s[k].nodeType)
              && r[LIGHTS] == Refilled(s[LIGHTS], pools.lights, Light, official)
              && r[PARTICLES] == Refilled(s[PARTICLES], pools.particles, Particles, official)
              && r[WANDERING_PIXELS] == Refilled(s[WANDERING_PIXELS], pools.wanderingPixels, WanderingPixels, official)
              && r[FIREARMS] == Refilled(s[FIREARMS], pools.firearms, Firearm, official)
              && r[AMMUNITION] == Refilled(s[AMMUNITION], pools.ammunition, Ammunition, official)
              && r[MELEE_WEAPONS] == Refilled(s[MELEE_WEAPONS], pools.melee, Melee, official)
              && r[EXPLOSIVES] == Refilled(s[EXPLOSIVES], pools.explosives, Explosive, official)
              && r[POINT_MARKERS] == Refilled(s[POINT_MARKERS], pools.pointMarkers, PointMarker, official)
              && r[AREA_MARKERS] == Refilled(s[AREA_MARKERS], pools.areaMarkers, AreaMarker, official)
  {
    var r := RebuiltFolders(s, pools, official);
    forall k | 0 <= k < 10
      ensures r[k].name == s[k].name && r[k].nodeType == s[k].nodeType
    {
      assert k in {0, 1, 2, 3, 4, 5, 6, 7, 8, 9};
    }
  }

  /** A folder after `handle`: same name and type, the pool's count as its label and the pool's resources as its files. */
  function Refilled(f: FolderNode, pool: seq<nat>, resourceType: ResourceType, official: bool): FolderNode {
    f.(afterText := CountLabel(|pool|), files := PoolFiles(pool, resourceType, official))
  }

  /** The file nodes of a pool, built one pool element at a time. */
  method MakePoolFiles(pool: seq<nat>, resourceType: ResourceType, official: bool) returns (files: seq<FileNode>)
    ensures files == PoolFiles(pool, resourceType, official)
  {
    files := [];
    var i := 0;
    while i < |pool|
      invariant 0 <= i <= |pool| && |files| == i
      invariant forall k | 0 <= k < i :: files[k] == FileNode(ResourceId(official, pool[k], resourceType), OtherResource)
    {
      files := files + [FileNode(ResourceId(official, pool[i], resourceType), OtherResource)];
      i := i + 1;
    }
    ghost var expected := PoolFiles(pool, resourceType, official);
    assert forall k | 0 <= k < |files| :: files[k] == expected[k];
  }

  /** The files of a folder fed by a pool: one resource node per pool element, in pool order. */
  function PoolFiles(pool: seq<nat>, resourceType: ResourceType, official: bool): (r: seq<FileNode>)
    ensures |r| == |pool|
    ensures forall k | 0 <= k < |r| :: r[k] == FileNode(ResourceId(official, pool[k], resourceType), OtherResource)
  {
    if pool == [] then []
    else [FileNode(ResourceId(official, pool[0], resourceType), OtherResource)] + PoolFiles(pool[1..], resourceType, official)
  }
}
