/**
 * Network addresses (`netcode_address_t`) and the heartbeat a game server sends to the
 * server list (src/application/setups/server/server_setup.cpp, `server_heartbeat`).
 */
module Heartbeat {
  import opened Ints
  import opened Wrappers

  /** An address: its family with the family's data, and a port. */
  datatype NetAddress =
    | NoAddress(port: uint16)
    | Ipv4(a: uint8, b: uint8, c: uint8, d: uint8, port: uint16)
    | Ipv6(groups: seq<uint16>, port: uint16)

  /** The address with its port cleared, as compared when the port must not matter. */
  function WithoutPort(n: NetAddress): (r: NetAddress)
    ensures r.port == 0 && r.(port := n.port) == n
  {
    n.(port := 0)
  }

  /**
   * `nat_type`. Its declaring header is not part of this model; the server list's ordering
   * relies on public internet being 0 and on the five enumerators being 0 to 4.
   */
  const PUBLIC_INTERNET: nat := 0
  const LAST_NAT_TYPE: nat := 4
  type NatType = t: nat | t <= LAST_NAT_TYPE

  datatype ServerHeartbeat = ServerHeartbeat(
    serverName: string,
    currentArena: string,
    gameMode: string,
    numOnline: nat,
    maxOnline: nat,
    natType: NatType,
    internalNetworkAddress: Option<NetAddress>)

  /** `is_full`: every slot is taken. */
  predicate IsFull(h: ServerHeartbeat) {
    h.numOnline == h.maxOnline
  }

  const DEFAULT_SERVER_NAME := "Hypersomnia Server"
  const DEFAULT_ARENA := "NONE"

  /** `validate`: an empty server name or arena is replaced by its default; everything else stays. */
  function Validate(h: ServerHeartbeat): (r: ServerHeartbeat)
    ensures r.serverName == (if h.serverName == [] then DEFAULT_SERVER_NAME else h.serverName)
    ensures r.currentArena == (if h.currentArena == [] then DEFAULT_ARENA else h.currentArena)
    ensures r == h.(serverName := r.serverName, currentArena := r.currentArena)
    ensures r.serverName != [] && r.currentArena != []
  {
    var named := if h.serverName == [] then h.(serverName := DEFAULT_SERVER_NAME) else h;
    if named.currentArena == [] then named.(currentArena := DEFAULT_ARENA) else named
  }

  /**
   * `is_valid`: the name uses only characters allowed in nicknames (that check is not part of
   * this model and is a parameter), at least two players fit, and name, arena and game mode are set.
   */
  function IsValid(h: ServerHeartbeat, nicknameCharactersValid: string -> bool): (r: bool)
    ensures r <==> nicknameCharactersValid(h.serverName) && h.maxOnline >= 2
                   && h.serverName != [] && h.currentArena != [] && h.gameMode != []
  {
    if !nicknameCharactersValid(h.serverName) then false
    else h.maxOnline >= 2 && h.serverName != [] && h.currentArena != [] && h.gameMode != []
  }

  /** A validated heartbeat with a set game mode, room for two and an accepted name is valid. */
  lemma ValidatedIsValid(h: ServerHeartbeat, nicknameCharactersValid: string -> bool)
    requires h.gameMode != [] && h.maxOnline >= 2 && nicknameCharactersValid(Validate(h).serverName)
    ensures IsValid(Validate(h), nicknameCharactersValid)
  {
  }

  /** Validating twice changes nothing more. */
  lemma ValidateIsIdempotent(h: ServerHeartbeat)
    ensures Validate(Validate(h)) == Validate(h)
  {
  }
}
