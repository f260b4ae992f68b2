/**
 * Inventory queries over a cosmos (game/detail/entity/inventory_getters.cpp).
 * A cosmos is a map from entity ids to the components the queries read: whether the entity
 * has item-slot transfers, its item component (with the slot it sits in), its container
 * component (its slots in iteration order) and whether it has a gun component.
 * `can_contain`, whose space and category rules live in code that is not part of this
 * model, is a parameter.
 */
module Inventory {
  import opened Wrappers

  type EntityId = nat

  datatype SlotFunction = PrimaryHand | SecondaryHand | ShoulderSlot | ItemDeposit | TorsoArmorSlot | OtherSlot(code: nat)

  /** `inventory_slot_id`: a slot of a container entity. */
  datatype SlotId = SlotId(container: EntityId, slotFunction: SlotFunction)

  datatype Slot = Slot(slotFunction: SlotFunction, itemsInside: seq<EntityId>)

  datatype Entity = Entity(
    hasItemSlotTransfers: bool,
    item: Option<Option<SlotId>>,      // None: no item component; Some(None): an item lying in no slot
    container: Option<seq<Slot>>,      // None: no container component
    hasGun: bool)

  datatype Cosmos = Cosmos(entities: map<EntityId, Entity>)

  predicate Alive(c: Cosmos, id: EntityId) { id in c.entities }

  /** The slot with the given function of a live container, if there is one. */
  function FindSlot(c: Cosmos, s: SlotId): (r: Option<Slot>)
    ensures r.Some? ==> Alive(c, s.container) && c.entities[s.container].container.Some?
                        && r.value in c.entities[s.container].container.value && r.value.slotFunction == s.slotFunction
  {
    if Alive(c, s.container) && c.entities[s.container].container.Some? then
      FindSlotIn(c.entities[s.container].container.value, s.slotFunction)
    else None
  }

  function FindSlotIn(slots: seq<Slot>, f: SlotFunction): (r: Option<Slot>)
    ensures r.Some? ==> r.value in slots && r.value.slotFunction == f
    ensures r.None? ==> forall k | 0 <= k < |slots| :: slots[k].slotFunction != f
  {
    if slots == [] then None
    else if slots[0].slotFunction == f then Some(slots[0])
    else FindSlotIn(slots[1..], f)
  }

  /** A slot handle is alive when its container is alive and has that slot. */
  predicate SlotAlive(c: Cosmos, s: SlotId) { FindSlot(c, s).Some? }

  /** `is_empty_slot`: a live slot holding no items. */
  predicate IsEmptySlot(c: Cosmos, s: SlotId) { SlotAlive(c, s) && FindSlot(c, s).value.itemsInside == [] }

  /** `has_items`: a live slot holding at least one item. */
  predicate HasItems(c: Cosmos, s: SlotId) { SlotAlive(c, s) && FindSlot(c, s).value.itemsInside != [] }

  /**
   * `get_owning_transfer_capability`: walks up the containment chain to the first entity
   * with item-slot transfers. `None` is the dead handle. The walk is bounded by `fuel`.
   */
  function OwningTransferCapability(c: Cosmos, id: EntityId, fuel: nat): (r: Option<EntityId>)
    ensures !Alive(c, id) ==> r.None?
    ensures Alive(c, id) && c.entities[id].hasItemSlotTransfers ==> r == Some(id)
    ensures Alive(c, id) && !c.entities[id].hasItemSlotTransfers
            && (c.entities[id].item.None? || c.entities[id].item.value.None? || !SlotAlive(c, c.entities[id].item.value.value))
            ==> r.None?
    ensures r.Some? ==> Alive(c, r.value) && c.entities[r.value].hasItemSlotTransfers
    decreases fuel
  {
    if !Alive(c, id) then None
    else if c.entities[id].hasItemSlotTransfers then Some(id)
    else
      var item := c.entities[id].item;
      if item.None? || item.value.None? || !SlotAlive(c, item.value.value) then None
      else if fuel == 0 then None
      else OwningTransferCapability(c, item.value.value.container, fuel - 1)
  }

  /** One step up: a loose-free item without transfers hands the question to the container of its slot. */
  lemma OwningTransferCapabilityClimbs(c: Cosmos, id: EntityId, fuel: nat)
    requires Alive(c, id) && !c.entities[id].hasItemSlotTransfers
    requires c.entities[id].item.Some? && c.entities[id].item.value.Some? && SlotAlive(c, c.entities[id].item.value.value)
    ensures OwningTransferCapability(c, id, fuel + 1)
            == OwningTransferCapability(c, c.entities[id].item.value.value.container, fuel)
  {
  }

  /** `first_free_hand`: the primary hand if empty, else the secondary hand if empty, else the dead slot. */
  function FirstFreeHand(c: Cosmos, id: EntityId): (r: Option<SlotId>)
    ensures IsEmptySlot(c, SlotId(id, PrimaryHand)) ==> r == Some(SlotId(id, PrimaryHand))
    ensures !IsEmptySlot(c, SlotId(id, PrimaryHand)) && IsEmptySlot(c, SlotId(id, SecondaryHand)) ==> r == Some(SlotId(id, SecondaryHand))
    ensures r.None? <==> !IsEmptySlot(c, SlotId(id, PrimaryHand)) && !IsEmptySlot(c, SlotId(id, SecondaryHand))
    ensures r.Some? ==> IsEmptySlot(c, r.value)
  {
    if IsEmptySlot(c, SlotId(id, PrimaryHand)) then Some(SlotId(id, PrimaryHand))
    else if IsEmptySlot(c, SlotId(id, SecondaryHand)) then Some(SlotId(id, SecondaryHand))
    else None
  }

  /**
   * `determine_hand_holstering_slot_in`: the shoulder slot if it takes the item; else the
   * item deposit of whatever hangs on the shoulder; without a shoulder slot, the torso armor slot.
   */
  function HandHolsteringSlotIn(c: Cosmos, canContain: (SlotId, EntityId) -> bool, item: EntityId, root: EntityId): (r: Option<SlotId>)
    requires Alive(c, item) && Alive(c, root)
    ensures r.Some? ==> SlotAlive(c, r.value) && canContain(r.value, item)
    ensures r.Some? ==> r.value.slotFunction in {ShoulderSlot, ItemDeposit, TorsoArmorSlot}
    ensures SlotAlive(c, SlotId(root, ShoulderSlot)) && canContain(SlotId(root, ShoulderSlot), item) ==> r == Some(SlotId(root, ShoulderSlot))
    ensures SlotAlive(c, SlotId(root, ShoulderSlot)) ==> r.None? || r.value.slotFunction != TorsoArmorSlot
    ensures var shoulder := SlotId(root, ShoulderSlot);
      SlotAlive(c, shoulder) && !canContain(shoulder, item) ==>
        var onShoulder := FindSlot(c, shoulder).value.itemsInside;
        (r.Some? <==> onShoulder != [] && SlotAlive(c, SlotId(onShoulder[0], ItemDeposit))
                      && canContain(SlotId(onShoulder[0], ItemDeposit), item))
        && (r.Some? ==> r.value == SlotId(onShoulder[0], ItemDeposit))
    ensures !SlotAlive(c, SlotId(root, ShoulderSlot)) ==>
      (r.Some? <==> SlotAlive(c, SlotId(root, TorsoArmorSlot)) && canContain(SlotId(root, TorsoArmorSlot), item))
      && (r.Some? ==> r.value == SlotId(root, TorsoArmorSlot))
  {
    var shoulder := SlotId(root, ShoulderSlot);
    if SlotAlive(c, shoulder) then
      if canContain(shoulder, item) then Some(shoulder)
      else if |FindSlot(c, shoulder).value.itemsInside| > 0 then
        var deposit := SlotId(FindSlot(c, shoulder).value.itemsInside[0], ItemDeposit);
        if SlotAlive(c, deposit) && canContain(deposit, item) then Some(deposit) else None
      else None
    else
      var armor := SlotId(root, TorsoArmorSlot);
      if SlotAlive(c, armor) && canContain(armor, item) then Some(armor) else None
  }

  /** `determine_pickup_target_slot_in`: holstering slot, then primary hand, then secondary hand, then the dead slot. */
  function PickupTargetSlotIn(c: Cosmos, canContain: (SlotId, EntityId) -> bool, item: EntityId, root: EntityId): (r: Option<SlotId>)
    requires Alive(c, item) && Alive(c, root)
    ensures HandHolsteringSlotIn(c, canContain, item, root).Some? ==> r == HandHolsteringSlotIn(c, canContain, item, root)
    ensures HandHolsteringSlotIn(c, canContain, item, root).None? && canContain(SlotId(root, PrimaryHand), item)
            ==> r == Some(SlotId(root, PrimaryHand))
    ensures HandHolsteringSlotIn(c, canContain, item, root).None? && !canContain(SlotId(root, PrimaryHand), item)
            ==> r == (if canContain(SlotId(root, SecondaryHand), item) then Some(SlotId(root, SecondaryHand)) else None)
    ensures r.Some? ==> canContain(r.value, item)
  {
    var hidden := HandHolsteringSlotIn(c, canContain, item, root);
    if hidden.Some? then hidden
    else if canContain(SlotId(root, PrimaryHand), item) then Some(SlotId(root, PrimaryHand))
    else if canContain(SlotId(root, SecondaryHand), item) then Some(SlotId(root, SecondaryHand))
    else None
  }

  /** `map_primary_action_to_secondary_hand_if_primary_empty`. */
  function MapPrimaryActionToSecondaryHandIfPrimaryEmpty(c: Cosmos, root: EntityId, isActionSecondary: int): (r: SlotId)
    ensures r.container == root && r.slotFunction in {PrimaryHand, SecondaryHand}
    ensures IsEmptySlot(c, SlotId(root, PrimaryHand)) ==> r.slotFunction == SecondaryHand
    ensures !IsEmptySlot(c, SlotId(root, PrimaryHand)) ==> (r.slotFunction == SecondaryHand <==> isActionSecondary != 0)
  {
    if IsEmptySlot(c, SlotId(root, PrimaryHand)) then SlotId(root, SecondaryHand)
    else if isActionSecondary != 0 then SlotId(root, SecondaryHand)
    else SlotId(root, PrimaryHand)
  }

  /** The first item held in a hand is a live entity with a gun component. */
  predicate GunInHand(c: Cosmos, hand: SlotId) {
    HasItems(c, hand) && FindSlot(c, hand).value.itemsInside[0] in c.entities
    && c.entities[FindSlot(c, hand).value.itemsInside[0]].hasGun
  }

  /** The first item held in a hand, when it has a gun component. */
  function WieldedGun(c: Cosmos, hand: SlotId): (r: seq<EntityId>)
    ensures |r| <= 1
    ensures |r| == 1 <==> GunInHand(c, hand)
    ensures |r| == 1 ==> r[0] == FindSlot(c, hand).value.itemsInside[0] && c.entities[r[0]].hasGun
  {
    if HasItems(c, hand) then
      var wielded := FindSlot(c, hand).value.itemsInside[0];
      if wielded in c.entities && c.entities[wielded].hasGun then [wielded] else []
    else []
  }

  /** `guns_wielded`: the gun in the primary hand, then the gun in the secondary hand. */
  function GunsWielded(c: Cosmos, subject: EntityId): (r: seq<EntityId>)
    ensures var primary, secondary := SlotId(subject, PrimaryHand), SlotId(subject, SecondaryHand);
      |r| == (if GunInHand(c, primary) then 1 else 0) + (if GunInHand(c, secondary) then 1 else 0)
      && (GunInHand(c, primary) ==> r[0] == FindSlot(c, primary).value.itemsInside[0])
      && (GunInHand(c, secondary) ==> r[|r| - 1] == FindSlot(c, secondary).value.itemsInside[0])
    ensures forall k | 0 <= k < |r| :: r[k] in c.entities && c.entities[r[k]].hasGun
  {
    WieldedGun(c, SlotId(subject, PrimaryHand)) + WieldedGun(c, SlotId(subject, SecondaryHand))
  }

  /** The items directly inside an entity: each slot's items, slot by slot. */
  function DirectContents(c: Cosmos, id: EntityId): seq<EntityId> {
    if Alive(c, id) && c.entities[id].container.Some? then Flatten(c.entities[id].container.value) else []
  }

  function Flatten(slots: seq<Slot>): seq<EntityId> {
    if slots == [] then [] else slots[0].itemsInside + Flatten(slots[1..])
  }

  /**
   * `for_each_contained_item_recursive`: the sequence of items handed to the callback, each
   * item immediately followed by its own contents (pre-order). Nesting deeper than `fuel`
   * levels is not descended into.
   */
  function ContainedRecursive(c: Cosmos, id: EntityId, fuel: nat): seq<EntityId>
    decreases fuel, 1
  {
    VisitEach(c, DirectContents(c, id), fuel)
  }

  function VisitEach(c: Cosmos, items: seq<EntityId>, fuel: nat): seq<EntityId>
    decreases fuel, 0, |items|
  {
    if items == [] then []
    else [items[0]] + (if fuel == 0 then [] else ContainedRecursive(c, items[0], fuel - 1)) + VisitEach(c, items[1..], fuel)
  }

  /** Visiting two item lists one after the other is visiting their concatenation: the per-slot loops compose. */
  lemma {:induction false} VisitEachConcat(c: Cosmos, a: seq<EntityId>, b: seq<EntityId>, fuel: nat)
    ensures VisitEach(c, a + b, fuel) == VisitEach(c, a, fuel) + VisitEach(c, b, fuel)
  {
    if a == [] {
      assert a + b == b;
    } else {
      var ab := a + b;
      assert ab != [] && ab[0] == a[0];
      assert ab[1..] == a[1..] + b;
      var head := [a[0]] + (if fuel == 0 then [] else ContainedRecursive(c, a[0], fuel - 1));
      calc {
        VisitEach(c, ab, fuel);
        head + VisitEach(c, a[1..] + b, fuel);
        { VisitEachConcat(c, a[1..], b, fuel); }
        head + (VisitEach(c, a[1..], fuel) + VisitEach(c, b, fuel));
        (head + VisitEach(c, a[1..], fuel)) + VisitEach(c, b, fuel);
      }
    }
  }

  /** Every direct item is visited, and the first one comes first, before its own contents. */
  lemma {:induction false} VisitEachIncludesEveryItem(c: Cosmos, items: seq<EntityId>, fuel: nat)
    ensures forall x | x in items :: x in VisitEach(c, items, fuel)
    ensures items != [] ==> VisitEach(c, items, fuel)[0] == items[0]
  {
    if items != [] {
      VisitEachIncludesEveryItem(c, items[1..], fuel);
      forall x | x in items
        ensures x in VisitEach(c, items, fuel)
      {
        if x != items[0] {
          assert x in items[1..];
        }
      }
    }
  }

  /** A live item's nested contents are visited right after it (pre-order). */
  lemma {:induction false} VisitEachIsPreOrder(c: Cosmos, items: seq<EntityId>, fuel: nat)
    requires items != [] && fuel > 0
    ensures var v := VisitEach(c, items, fuel);
      var inner := ContainedRecursive(c, items[0], fuel - 1);
      |v| >= 1 + |inner| && v[0] == items[0] && v[1..1 + |inner|] == inner
  {
  }
}
