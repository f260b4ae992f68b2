/**
 * Factions and mode player ids shared by the game-mode modules. Their declaring headers
 * (faction_type.h, mode_player_id.h) are not part of this model: the model keeps the
 * factions the core names, and a player id that is either dead or a number.
 */
module Factions {
  datatype Faction = Metropolis | Atlantis | Resistance | Spectator

  /** `mode_player_id`: default-constructed ids are dead (unset). */
  datatype ModePlayerId = Dead | PlayerId(value: nat)

  predicate IsSet(id: ModePlayerId) { id.PlayerId? }
}
