/**
 * Free-standing logic of the game server (src/application/setups/server/server_setup.cpp):
 * the timing-attack resistant password comparison, the remote-console authorisation ladder,
 * the arithmetic that splits a file into fixed-size chunks for direct download, the id
 * conversions between clients and mode players, and the tick countdowns.
 */
module ServerHelpers {
  import opened Ints
  import opened Wrappers
  import opened Factions

  // ---------------------------------------------------------------------------------------
  // Passwords

  /** What `safe_equal` decides: a password is set and the candidate is exactly that password. */
  predicate PasswordAccepted(candidate: string, actual: string) {
    |actual| > 0 && candidate == actual
  }

  /** The running score of the comparison loop: +1 for each agreeing position, -1 for each disagreeing one. */
  function MatchScore(candidate: string, actual: string, i: nat): (r: int)
    requires i <= |candidate| && i <= |actual|
    ensures -(i as int) <= r <= i
  {
    if i == 0 then 0
    else MatchScore(candidate, actual, i - 1) + (if candidate[i - 1] == actual[i - 1] then 1 else -1)
  }

  /** The score reaches the number of compared positions exactly when they all agree. */
  lemma {:induction false} FullScoreIffEqualPrefix(candidate: string, actual: string, i: nat)
    requires i <= |candidate| && i <= |actual|
    ensures MatchScore(candidate, actual, i) == i <==> candidate[..i] == actual[..i]
  {
    if i > 0 {
      FullScoreIffEqualPrefix(candidate, actual, i - 1);
      assert candidate[..i] == candidate[..i - 1] + [candidate[i - 1]];
      assert actual[..i] == actual[..i - 1] + [actual[i - 1]];
      if candidate[..i] == actual[..i] {
        assert candidate[..i - 1] == candidate[..i][..i - 1] == actual[..i][..i - 1] == actual[..i - 1];
        assert candidate[i - 1] == candidate[..i][i - 1] == actual[..i][i - 1] == actual[i - 1];
      }
    }
  }

  /**
   * `safe_equal`: compares every position up to the shorter length without stopping early,
   * then accepts only a full score on equal lengths; an empty actual password disables it.
   */
  method SafeEqual(candidate: string, actual: string) returns (r: bool)
    ensures r <==> PasswordAccepted(candidate, actual)
  {
    if |actual| == 0 {
      return false;
    }
    var matches := 0;
    var n := Min(|candidate|, |actual|);
    for i := 0 to n
      invariant matches == MatchScore(candidate, actual, i)
    {
      if candidate[i] == actual[i] {
        matches := matches + 1;
      } else {
        matches := matches - 1;
      }
    }
    FullScoreIffEqualPrefix(candidate, actual, n);
    r := matches == |actual| && |candidate| == |actual|;
    if |candidate| == |actual| {
      assert candidate[..n] == candidate && actual[..n] == actual;
    }
  }

  // ---------------------------------------------------------------------------------------
  // Remote console

  datatype RconLevel = Denied | IntegratedOnly | Basic | Master

  /** The facts about the requesting client that `get_rcon_level` looks at. */
  datatype RconRequest = RconRequest(isIntegratedClient: bool, isLoopback: bool, isInternal: bool, password: string)

  /** The server settings that `get_rcon_level` looks at. */
  datatype RconSettings = RconSettings(
    isIntegrated: bool,
    autoAuthorizeLoopback: bool,
    autoAuthorizeInternal: bool,
    masterRconPassword: string,
    rconPassword: string)

  /** `get_rcon_level`: the authorisation ladder, tried top to bottom. */
  function GetRconLevel(s: RconSettings, c: RconRequest): RconLevel {
    if s.isIntegrated then
      (if c.isIntegratedClient then Master else IntegratedOnly)
    else if s.autoAuthorizeLoopback && c.isLoopback then Master
    else if s.autoAuthorizeInternal && c.isInternal then Master
    else if PasswordAccepted(c.password, s.masterRconPassword) then Master
    else if PasswordAccepted(c.password, s.rconPassword) then
      (if s.masterRconPassword == [] then Master else Basic)
    else Denied
  }

  /**
   * On a dedicated server a client gets master rights exactly through an enabled automatic
   * authorisation, the master password, or the basic password while no master password is set;
   * basic rights exactly through the basic password when a different, set master password exists.
   */
  lemma RconLevelOnDedicatedServer(s: RconSettings, c: RconRequest)
    requires !s.isIntegrated
    ensures GetRconLevel(s, c) == Master <==>
      (s.autoAuthorizeLoopback && c.isLoopback) || (s.autoAuthorizeInternal && c.isInternal)
      || (|s.masterRconPassword| > 0 && c.password == s.masterRconPassword)
      || (|s.rconPassword| > 0 && c.password == s.rconPassword && s.masterRconPassword == [])
    ensures GetRconLevel(s, c) == Basic <==>
      !(s.autoAuthorizeLoopback && c.isLoopback) && !(s.autoAuthorizeInternal && c.isInternal)
      && |s.rconPassword| > 0 && c.password == s.rconPassword
      && |s.masterRconPassword| > 0 && c.password != s.masterRconPassword
    ensures GetRconLevel(s, c) != IntegratedOnly
  {
  }

  /** With both passwords empty and no automatic authorisation, a remote client is always denied. */
  lemma EmptyPasswordsDenyRemoteClients(s: RconSettings, c: RconRequest)
    requires !s.isIntegrated && !s.autoAuthorizeLoopback && !s.autoAuthorizeInternal
    requires s.masterRconPassword == [] && s.rconPassword == []
    ensures GetRconLevel(s, c) == Denied
  {
  }

  /** On a server integrated into a game client, only that client is master and passwords play no role. */
  lemma IntegratedServerIgnoresPasswords(s: RconSettings, c: RconRequest, password: string)
    requires s.isIntegrated
    ensures GetRconLevel(s, c) == (if c.isIntegratedClient then Master else IntegratedOnly)
    ensures GetRconLevel(s, c.(password := password)) == GetRconLevel(s, c)
  {
  }

  // ---------------------------------------------------------------------------------------
  // File chunks

  /** `send_file_chunk`'s chunk count: the size divided by the chunk size, rounded up, but one chunk for an empty file. */
  function NumChunks(n: nat, chunkSize: nat): (r: nat)
    requires chunkSize > 0
    ensures r >= 1
    ensures n > 0 ==> (r - 1) * chunkSize < n <= r * chunkSize
    ensures n == 0 ==> r == 1
  {
    var count := n / chunkSize + (if n % chunkSize != 0 then 1 else 0);
    if n == 0 then 1 else count
  }

  /** The byte range `[start, end)` of chunk `i`, the last chunk ending at the end of the file. */
  function ChunkBounds(n: nat, chunkSize: nat, i: nat): (r: (nat, nat))
    requires chunkSize > 0 && i < NumChunks(n, chunkSize)
    ensures r.0 == i * chunkSize && r.1 == Min(n, (i + 1) * chunkSize)
    ensures r.0 <= r.1 <= n
  {
    var start := i * chunkSize;
    var end := if i == NumChunks(n, chunkSize) - 1 then n else start + chunkSize;
    assert i < NumChunks(n, chunkSize) - 1 ==> (i + 1) * chunkSize <= (NumChunks(n, chunkSize) - 1) * chunkSize;
    (start, end)
  }

  /**
   * `send_file_chunk`: a chunk index past the last chunk sends nothing; otherwise the chunk's
   * bytes are sent when a socket is available. Returns whether a packet went out and the bytes it carried.
   */
  method SendFileChunk(bytes: seq<uint8>, chunkSize: nat, chunkIndex: nat, haveSocket: bool)
    returns (sent: bool, chunk: seq<uint8>)
    requires chunkSize > 0
    ensures sent <==> haveSocket && chunkIndex < NumChunks(|bytes|, chunkSize)
    ensures sent ==> chunk == bytes[chunkIndex * chunkSize .. Min(|bytes|, (chunkIndex + 1) * chunkSize)]
    ensures !sent ==> chunk == []
  {
    var n := |bytes|;
    var numAllChunks := n / chunkSize;
    if n % chunkSize != 0 {
      numAllChunks := numAllChunks + 1;
    }
    if n == 0 {
      numAllChunks := 1;
    }
    var lastChunkIndex := numAllChunks - 1;
    if chunkIndex <= lastChunkIndex {
      var bounds := ChunkBounds(n, chunkSize, chunkIndex);
      if haveSocket {
        return true, bytes[bounds.0..bounds.1];
      }
    }
    return false, [];
  }

  /** The bytes of chunks `0..k` laid end to end. */
  function Reassembled(bytes: seq<uint8>, chunkSize: nat, k: nat): seq<uint8>
    requires chunkSize > 0 && k <= NumChunks(|bytes|, chunkSize)
  {
    if k == 0 then []
    else
      var b := ChunkBounds(|bytes|, chunkSize, k - 1);
      Reassembled(bytes, chunkSize, k - 1) + bytes[b.0..b.1]
  }

  /** Receiving every chunk in order gives back the whole file: the chunks tile it with no gap or overlap. */
  lemma {:induction false} ChunksReassembleFile(bytes: seq<uint8>, chunkSize: nat, k: nat)
    requires chunkSize > 0 && k <= NumChunks(|bytes|, chunkSize)
    ensures Reassembled(bytes, chunkSize, k) == bytes[..Min(|bytes|, k * chunkSize)]
    ensures k == NumChunks(|bytes|, chunkSize) ==> Reassembled(bytes, chunkSize, k) == bytes
  {
    var n := |bytes|;
    if k > 0 {
      ChunksReassembleFile(bytes, chunkSize, k - 1);
      var b := ChunkBounds(n, chunkSize, k - 1);
      var prev := (k - 1) * chunkSize;
      assert prev + chunkSize == k * chunkSize by { MulSucc(k - 1, chunkSize); }
      assert Min(n, prev) == b.0;
      assert bytes[..b.1] == bytes[..b.0] + bytes[b.0..b.1];
    }
    if k == NumChunks(n, chunkSize) {
      assert n <= k * chunkSize;
      assert bytes[..Min(n, k * chunkSize)] == bytes;
    }
  }

  lemma MulSucc(a: nat, b: nat)
    ensures a * b + b == (a + 1) * b
  {
  }

  // ---------------------------------------------------------------------------------------
  // Ids and countdowns

  /** `to_mode_player_id`: a client's slot number becomes its mode player id. */
  function ToModePlayerId(clientId: uint32): (r: ModePlayerId)
    ensures r.PlayerId? && r.value == clientId
  {
    PlayerId(clientId)
  }

  /** `to_client_id`: a set mode player id's value read back as a client slot number. */
  function ToClientId(id: ModePlayerId): (r: uint32)
    requires id.PlayerId? && id.value < UINT32_LIMIT
  {
    id.value
  }

  /** The two conversions are inverse to each other on client ids and on set 32-bit mode player ids. */
  lemma ClientIdRoundTrip(clientId: uint32, id: ModePlayerId)
    ensures ToClientId(ToModePlayerId(clientId)) == clientId
    ensures id.PlayerId? && id.value < UINT32_LIMIT ==> ToModePlayerId(ToClientId(id)) == id
  {
  }

  /**
   * The countdown of `send_server_step_entropies` and `send_packets_if_its_time`: it fires at zero
   * and then restarts at the interval minus one, in 32-bit arithmetic; otherwise it is left as is.
   */
  function Countdown(remaining: uint32, every: uint32): (r: (bool, uint32))
    ensures r.0 <==> remaining == 0
    ensures !r.0 ==> r.1 == remaining
    ensures r.0 && every >= 1 ==> r.1 == every - 1
    ensures r.0 && every == 0 ==> r.1 == UINT32_MAX
  {
    if remaining == 0 then (true, ToUint32(every + UINT32_MAX)) else (false, remaining)
  }

  /** The first byte of a netcode connection request. */
  const NETCODE_CONNECTION_REQUEST_PACKET: uint8 := 0

  /**
   * `is_connection_request_packet`: a packet is a connection request when it has a first byte
   * and that byte is the request code; the sender's address plays no role. While the server
   * is not joinable, such packets are swallowed before they reach the netcode server.
   */
  function IsConnectionRequestPacket(packet: seq<uint8>): (r: bool)
    ensures r ==> |packet| >= 1
    ensures r <==> packet != [] && packet[0] == NETCODE_CONNECTION_REQUEST_PACKET
  {
    if |packet| < 1 then false else packet[0] == NETCODE_CONNECTION_REQUEST_PACKET
  }

  /** `is_joinable`: while a ranked match is live or starting, only when some players are suspended. */
  function IsJoinable(rankedLiveOrStarting: bool, hasSuspendedPlayers: bool): (r: bool)
    ensures !rankedLiveOrStarting ==> r
    ensures rankedLiveOrStarting ==> (r <==> hasSuspendedPlayers)
  {
    if rankedLiveOrStarting then hasSuspendedPlayers else true
  }
}
