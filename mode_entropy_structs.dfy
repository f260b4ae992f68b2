/** The "add player" general mode command (src/game/modes/mode_commands/mode_entropy_structs.h). */
module ModeEntropyStructs {
  import opened Factions

  datatype AddPlayerInput = AddPlayerInput(
    id: ModePlayerId,
    name: string,
    faction: Faction,
    migrateFromId: ModePlayerId)

  /** A default-constructed input: dead id, empty name, SPECTATOR, default migrate_from_id. */
  function DefaultAddPlayerInput(): (r: AddPlayerInput)
    ensures r.faction == Spectator && r.migrateFromId == Dead && !IsSet(r.id)
  {
    AddPlayerInput(Dead, "", Spectator, Dead)
  }

  predicate IsSetInput(a: AddPlayerInput) {
    IsSet(a.id)
  }

  /** `operator==`: compares id, name and faction; migrate_from_id is not compared. */
  predicate Equal(a: AddPlayerInput, b: AddPlayerInput) {
    a.id == b.id && a.name == b.name && a.faction == b.faction
  }

  /** An input is set exactly when its id is set; the default input is unset. */
  lemma IsSetIffIdSet(a: AddPlayerInput)
    ensures IsSetInput(a) <==> a.id.PlayerId?
    ensures !IsSetInput(DefaultAddPlayerInput())
  {
  }

  /** Equality ignores migrate_from_id: two inputs differing only there are equal. */
  lemma EqualIgnoresMigrateFrom(a: AddPlayerInput, m: ModePlayerId)
    ensures Equal(a, a.(migrateFromId := m))
  {
  }

  /** Equality holds exactly when the three compared fields agree. */
  lemma EqualIffComparedFieldsAgree(a: AddPlayerInput, b: AddPlayerInput)
    ensures Equal(a, b) <==> a.(migrateFromId := Dead) == b.(migrateFromId := Dead)
  {
  }

  /** Being a conjunction of component equalities, `==` is an equivalence relation. */
  lemma EqualIsEquivalence(a: AddPlayerInput, b: AddPlayerInput, c: AddPlayerInput)
    ensures Equal(a, a)
    ensures Equal(a, b) ==> Equal(b, a)
    ensures Equal(a, b) && Equal(b, c) ==> Equal(a, c)
  {
  }
}
