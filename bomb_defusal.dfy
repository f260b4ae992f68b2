/**
 * Rules and per-faction state of the bomb defusal mode (src/game/modes/bomb_defusal.h):
 * the even round count, the pair of participating factions and its swap, the half-time
 * reset of a faction's state, and the two player visitors.
 */
module BombDefusal {
  import opened Ints
  import opened Wrappers
  import opened Factions
  import opened CallbackResults

  const DEFAULT_MAX_ROUNDS: uint32 := 30

  /** `get_num_rounds`: `max_rounds` rounded down to an even number, but never fewer than 2. */
  function NumRounds(maxRounds: uint32): (r: uint32)
    ensures r % 2 == 0 && r >= 2
    ensures maxRounds >= 2 ==> r <= maxRounds && maxRounds - r <= 1
    ensures maxRounds < 2 ==> r == 2
  {
    Max((maxRounds / 2) * 2, 2)
  }

  /** The default ruleset plays 30 rounds, 15 per half. */
  lemma DefaultNumRounds()
    ensures NumRounds(DEFAULT_MAX_ROUNDS) == 30
  {
  }

  /** `bomb_defusal_faction_state`. */
  class FactionState {
    var currentSpawnIndex: uint32
    var score: uint32
    var consecutiveLosses: uint32
    var shuffledSpawns: seq<nat>

    constructor ()
      ensures currentSpawnIndex == 0 && score == 0 && consecutiveLosses == 0 && shuffledSpawns == []
    {
      currentSpawnIndex := 0;
      score := 0;
      consecutiveLosses := 0;
      shuffledSpawns := [];
    }

    /** At half time everything but the score starts over. */
    method ClearForNextHalf()
      modifies this
      ensures currentSpawnIndex == 0 && consecutiveLosses == 0 && shuffledSpawns == []
      ensures score == old(score)
    {
      currentSpawnIndex := 0;
      consecutiveLosses := 0;
      shuffledSpawns := [];
    }
  }

  /** `participating_factions`: both sides default to SPECTATOR. */
  datatype ParticipatingFactions = ParticipatingFactions(bombing: Faction, defusing: Faction)

  const DEFAULT_PARTICIPATING: ParticipatingFactions := ParticipatingFactions(Spectator, Spectator)

  /** `get_all`: the factions `for_each` visits, in its order. */
  function GetAll(p: ParticipatingFactions): (r: seq<Faction>)
    ensures |r| == 2 && r[0] == p.bombing && r[1] == p.defusing
  {
    [p.bombing, p.defusing]
  }

  /** `for_each`: the callback's answers for the bombing side, then for the defusing side. */
  function ForEach<R>(p: ParticipatingFactions, callback: Faction -> R): (r: seq<R>)
    ensures |r| == Size(p)
    ensures forall k | 0 <= k < |r| :: r[k] == callback(GetAll(p)[k])
  {
    [callback(p.bombing), callback(p.defusing)]
  }

  /** `size`: always two, whatever the factions are. */
  function Size(p: ParticipatingFactions): (n: nat)
    ensures n == |GetAll(p)|
  {
    2
  }

  /** What `make_swapped` leaves in its argument. */
  function Swapped(p: ParticipatingFactions, f: Faction): (g: Faction)
    ensures f == p.bombing ==> g == p.defusing
    ensures f != p.bombing && f == p.defusing ==> g == p.bombing
    ensures f != p.bombing && f != p.defusing ==> g == f
  {
    if f == p.bombing then p.defusing
    else if f == p.defusing then p.bombing
    else f
  }

  /** `make_swapped(f)`: the in-out argument becomes the other participating faction. */
  method MakeSwapped(p: ParticipatingFactions, f: Faction) returns (g: Faction)
    ensures g == Swapped(p, f)
  {
    g := f;
    if g == p.bombing {
      g := p.defusing;
      return;
    }
    if g == p.defusing {
      g := p.bombing;
      return;
    }
  }

  /** Swapping twice gives the faction back, also when both sides are the same faction. */
  lemma SwapIsInvolution(p: ParticipatingFactions, f: Faction)
    ensures Swapped(p, Swapped(p, f)) == f
  {
  }

  /** Swapping maps the participating factions onto themselves and fixes every other faction. */
  lemma SwapPermutesParticipants(p: ParticipatingFactions, f: Faction)
    ensures f in GetAll(p) <==> Swapped(p, f) in GetAll(p)
    ensures f !in GetAll(p) ==> Swapped(p, f) == f
  {
  }

  /**
   * The ordered `players` map of the mode, as its keys in iteration order (ascending ids),
   * each with the entity id of its controlled character.
   */
  datatype PlayerTable = PlayerTable(ids: seq<nat>, controlledCharacter: map<nat, nat>)

  predicate Ascending(s: seq<nat>) {
    forall i, j | 0 <= i < j < |s| :: s[i] < s[j]
  }

  /** `for_each_player_id`: visits ids in ascending order and returns right after the first ABORT. */
  method ForEachPlayerId(t: PlayerTable, callback: nat -> CallbackResult) returns (visited: seq<nat>)
    requires Ascending(t.ids)
    ensures visited == VisitedUntilAbort(t.ids, callback)
    ensures Ascending(visited)
  {
    var ids := t.ids;
    visited := [];
    var k := 0;
    while k < |ids|
      invariant 0 <= k <= |ids|
      invariant visited == ids[..k]
      invariant forall j | 0 <= j < k :: callback(ids[j]) == Continue
    {
      visited := ids[..k + 1];
      if callback(ids[k]) == Abort {
        VisitAfterContinues(ids, k, callback);
        VisitStep(ids, k, callback);
        return;
      }
      k := k + 1;
    }
    VisitAfterContinues(ids, k, callback);
  }

  /**
   * The handle `on_player_handle` passes on: the player's controlled character when the
   * player is known and that entity is alive in the cosmos, otherwise nothing.
   */
  function PlayerHandle(t: PlayerTable, alive: set<nat>, id: ModePlayerId): (h: Option<nat>)
    ensures h.Some? <==> id.PlayerId? && id.value in t.controlledCharacter && t.controlledCharacter[id.value] in alive
    ensures h.Some? ==> h.value == t.controlledCharacter[id.value]
  {
    if id.PlayerId? && id.value in t.controlledCharacter && t.controlledCharacter[id.value] in alive
    then Some(t.controlledCharacter[id.value])
    else None
  }

  /** `on_player_handle`: the callback always runs exactly once, with the handle or with nullopt. */
  function OnPlayerHandle<R>(t: PlayerTable, alive: set<nat>, id: ModePlayerId, callback: Option<nat> -> R): (r: R)
    ensures !id.PlayerId? || id.value !in t.controlledCharacter ==> r == callback(None)
    ensures id.PlayerId? && id.value in t.controlledCharacter && t.controlledCharacter[id.value] !in alive ==> r == callback(None)
    ensures id.PlayerId? && id.value in t.controlledCharacter && t.controlledCharacter[id.value] in alive ==>
              r == callback(Some(t.controlledCharacter[id.value]))
  {
    callback(PlayerHandle(t, alive, id))
  }
}
