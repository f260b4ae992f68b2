/**
 * The server browser (src/application/gui/browse_servers_gui.cpp): the order servers are
 * ranked in, private-network address classification, the three-key column comparator,
 * matching official hosts, the error path of reading the downloaded list, and the ping
 * state machine that measures each server under a per-frame packet budget. Times are whole
 * numbers of seconds; the HTTP download, socket I/O and drawing are not part of this model.
 */
module BrowseServers {
  import opened Ints
  import opened Wrappers
  import opened Decimal
  import opened Heartbeat

  datatype EntryState = AwaitingResponse | PingMeasured | GivenUp

  /** `server_entry_progress`; a first-ping time below zero means no ping was sent yet. */
  datatype EntryProgress = EntryProgress(
    state: EntryState,
    ping: int,
    pingSequence: uint64,
    whenSentFirstPing: int,
    whenSentLastPing: int,
    foundOnInternalNetwork: bool)

  const FRESH_PROGRESS := EntryProgress(AwaitingResponse, -1, 0, -1, -1, false)

  datatype ServerListEntry = ServerListEntry(
    address: NetAddress,
    timeHosted: int,
    heartbeat: ServerHeartbeat,
    progress: EntryProgress,
    customConnectString: string)

  // ---------------------------------------------------------------------------------------
  // Ranking

  /**
   * The seven classes the server list is documented to rank by, best first: local servers,
   * non-empty public, non-empty NAT, empty public, empty NAT, full public, full NAT. A full
   * server is in a full class even when it was found on the local network.
   */
  function OrderClass(e: ServerListEntry): (r: nat)
    ensures r <= 6
  {
    var a := e.heartbeat;
    var public := a.natType == PUBLIC_INTERNET;
    if IsFull(a) then (if public then 5 else 6)
    else if e.progress.foundOnInternalNetwork then 0
    else if a.numOnline > 0 then (if public then 1 else 2)
    else if public then 3
    else 4
  }

  /**
   * `order_category`: full servers last (public before NAT), then by whether found on the
   * local network, whether anyone plays, and the NAT type. Each class gets its own band of
   * categories.
   */
  function OrderCategory(e: ServerListEntry): (r: nat)
    ensures OrderClass(e) == 0 ==> r == 0
    ensures OrderClass(e) == 1 ==> r == 1
    ensures OrderClass(e) == 2 ==> 2 <= r <= 5
    ensures OrderClass(e) == 3 ==> r == 10
    ensures OrderClass(e) == 4 ==> 101 <= r <= 104
    ensures OrderClass(e) == 5 ==> r == 1000
    ensures OrderClass(e) == 6 ==> r == 10000
    ensures IsFull(e.heartbeat) ==> r == (if e.heartbeat.natType == PUBLIC_INTERNET then 1000 else 10000)
    ensures !IsFull(e.heartbeat) && e.progress.foundOnInternalNetwork ==> r == 0
    ensures !IsFull(e.heartbeat) && !e.progress.foundOnInternalNetwork ==>
              r == (if e.heartbeat.numOnline > 0 then 1 else if e.heartbeat.natType == PUBLIC_INTERNET then 10 else 100)
                   + e.heartbeat.natType
  {
    var a := e.heartbeat;
    if IsFull(a) then
      (if a.natType == PUBLIC_INTERNET then 1000 else 10000)
    else if e.progress.foundOnInternalNetwork then 0
    else if a.numOnline > 0 && a.natType == PUBLIC_INTERNET then 1
    else if a.numOnline > 0 then 1 + a.natType
    else if a.numOnline == 0 && a.natType == PUBLIC_INTERNET then 10 + a.natType
    else 100 + a.natType
  }

  /** Whether `a` ranks before `b`: lower category, then lower ping, then hosted more recently. */
  function CompareServers(a: ServerListEntry, b: ServerListEntry): bool {
    var ca := OrderCategory(a);
    var cb := OrderCategory(b);
    if ca != cb then ca < cb
    else if a.progress.ping != b.progress.ping then a.progress.ping < b.progress.ping
    else a.timeHosted > b.timeHosted
  }

  /** The ranking is the lexicographic order on (category, ping, minus time hosted). */
  lemma CompareServersIsLexicographic(a: ServerListEntry, b: ServerListEntry)
    ensures CompareServers(a, b) <==>
      OrderCategory(a) < OrderCategory(b)
      || (OrderCategory(a) == OrderCategory(b) && a.progress.ping < b.progress.ping)
      || (OrderCategory(a) == OrderCategory(b) && a.progress.ping == b.progress.ping && a.timeHosted > b.timeHosted)
  {
  }

  /** The ranking is a strict order: irreflexive and transitive. */
  lemma CompareServersIsStrictOrder(a: ServerListEntry, b: ServerListEntry, c: ServerListEntry)
    ensures !CompareServers(a, a)
    ensures CompareServers(a, b) && CompareServers(b, c) ==> CompareServers(a, c)
    ensures CompareServers(a, b) ==> !CompareServers(b, a)
  {
    CompareServersIsLexicographic(a, b);
    CompareServersIsLexicographic(b, c);
    CompareServersIsLexicographic(a, c);
  }

  /**
   * The categories keep the documented order: a server in a better class always has a smaller
   * category, and so ranks first; a smaller category never belongs to a worse class.
   */
  lemma CategoriesFollowClasses(a: ServerListEntry, b: ServerListEntry)
    ensures OrderClass(a) < OrderClass(b) ==> OrderCategory(a) < OrderCategory(b) && CompareServers(a, b)
    ensures OrderCategory(a) < OrderCategory(b) ==> OrderClass(a) <= OrderClass(b)
  {
  }

  /** A server found on the local network outranks every server that is not full and was not found there. */
  lemma LocalServersFirst(a: ServerListEntry, b: ServerListEntry)
    requires !IsFull(a.heartbeat) && a.progress.foundOnInternalNetwork
    requires !b.progress.foundOnInternalNetwork || IsFull(b.heartbeat)
    ensures CompareServers(a, b)
  {
  }

  /**
   * `find_best_server`: none for an empty list, otherwise the first entry that no other
   * entry outranks (the first minimum, as `std::min_element` picks it).
   */
  method FindBestServer(list: seq<ServerListEntry>) returns (best: Option<nat>)
    ensures best.None? <==> list == []
    ensures best.Some? ==> (best.value < |list|
      && (forall j | 0 <= j < |list| :: !CompareServers(list[j], list[best.value]))
      && (forall j | 0 <= j < best.value :: CompareServers(list[best.value], list[j])))
  {
    if list == [] {
      return None;
    }
    var b := 0;
    for k := 1 to |list|
      invariant 0 <= b < k
      invariant forall j | 0 <= j < k :: !CompareServers(list[j], list[b])
      invariant forall j | 0 <= j < b :: CompareServers(list[b], list[j])
    {
      if CompareServers(list[k], list[b]) {
        forall j | 0 <= j < k
          ensures !CompareServers(list[j], list[k]) && CompareServers(list[k], list[j])
        {
          CompareServersIsStrictOrder(list[j], list[k], list[b]);
          CompareServersIsLexicographic(list[k], list[b]);
          CompareServersIsLexicographic(list[j], list[b]);
          CompareServersIsLexicographic(list[k], list[j]);
        }
        b := k;
      }
    }
    return Some(b);
  }

  // ---------------------------------------------------------------------------------------
  // Private networks

  /**
   * `is_internal`: the IPv4 loopback block 127/8 (RFC 1122 section 3.2.1.3) and the private
   * blocks 10/8, 172.16/12 and 192.168/16 (RFC 1918 section 3); nothing else, and no IPv6 address.
   */
  function IsInternal(n: NetAddress): (r: bool)
    ensures r <==> n.Ipv4? && (n.a == 127 || n.a == 10 || (n.a == 172 && 16 <= n.b <= 31) || (n.a == 192 && n.b == 168))
  {
    if n.Ipv4? then
      if n.a == 127 then true
      else if n.a == 10 then true
      else if n.a == 172 && n.b >= 16 && n.b <= 31 then true
      else if n.a == 192 && n.b == 168 then true
      else false
    else false
  }

  /** The 172.16/12 block is exactly the addresses whose first twelve bits are those of 172.16.0.0. */
  lemma Private172Is12BitPrefix(n: NetAddress)
    requires n.Ipv4? && n.a == 172
    ensures IsInternal(n) <==> n.b / 16 == 16 / 16
  {
  }

  // ---------------------------------------------------------------------------------------
  // Column sorting

  /**
   * `make_comparator`: the primary key decides when it tells the two apart, in the requested
   * direction; a tie on it falls to the secondary key and then the tertiary one, both always ascending.
   */
  function MakeComparator<T>(ascending: bool, op1: (T, T) -> bool, op2: (T, T) -> bool, op3: (T, T) -> bool, a: T, b: T): bool {
    var aLessB := op1(a, b);
    var bLessA := op1(b, a);
    if !aLessB && !bLessA then
      var aLessB2 := op2(a, b);
      var bLessA2 := op2(b, a);
      if !aLessB2 && !bLessA2 then op3(a, b) else aLessB2
    else if ascending then aLessB else bLessA
  }

  /**
   * Flipping the direction reverses the order of two entries exactly when the primary key
   * tells them apart; on a tie it changes nothing.
   */
  lemma DirectionOnlyFlipsPrimaryKey<T>(op1: (T, T) -> bool, op2: (T, T) -> bool, op3: (T, T) -> bool, a: T, b: T)
    ensures (op1(a, b) || op1(b, a)) ==>
              MakeComparator(false, op1, op2, op3, a, b) == MakeComparator(true, op1, op2, op3, b, a)
    ensures !(op1(a, b) || op1(b, a)) ==>
              MakeComparator(false, op1, op2, op3, a, b) == MakeComparator(true, op1, op2, op3, a, b)
  {
  }

  // ---------------------------------------------------------------------------------------
  // Official hosts

  /** A resolved official host: its name and the address it resolved to. */
  datatype ResolvedOfficial = ResolvedOfficial(host: string, addr: NetAddress)

  /** `find_resolved_official`: the first official host whose address matches, ports ignored. */
  function FindResolvedOfficial(officials: seq<ResolvedOfficial>, n: NetAddress): (r: Option<nat>)
    ensures r.None? <==> forall k | 0 <= k < |officials| :: WithoutPort(officials[k].addr) != WithoutPort(n)
    ensures r.Some? ==> (r.value < |officials| && WithoutPort(officials[r.value].addr) == WithoutPort(n)
      && forall k | 0 <= k < r.value :: WithoutPort(officials[k].addr) != WithoutPort(n))
  {
    if officials == [] then None
    else if WithoutPort(officials[0].addr) == WithoutPort(n) then Some(0)
    else match FindResolvedOfficial(officials[1..], n)
      case None => None
      case Some(k) => Some(k + 1)
  }

  /** Officiality does not depend on the port. */
  lemma OfficialIgnoresPort(officials: seq<ResolvedOfficial>, n: NetAddress, port: uint16)
    ensures FindResolvedOfficial(officials, n.(port := port)) == FindResolvedOfficial(officials, n)
  {
    assert WithoutPort(n.(port := port)) == WithoutPort(n);
  }

  /**
   * The connect string shown for an entry: an official server's host name, followed by
   * ":port" unless it listens on the default game port; empty for other servers.
   */
  function ConnectString(officials: seq<ResolvedOfficial>, address: NetAddress, defaultGamePort: uint16): (r: string)
    ensures FindResolvedOfficial(officials, address).None? ==> r == []
    ensures FindResolvedOfficial(officials, address).Some? && address.port == defaultGamePort ==>
              r == officials[FindResolvedOfficial(officials, address).value].host
    ensures FindResolvedOfficial(officials, address).Some? && address.port != defaultGamePort ==>
              r == officials[FindResolvedOfficial(officials, address).value].host + ":" + DecimalString(address.port)
  {
    match FindResolvedOfficial(officials, address)
    case Some(k) =>
      if address.port == defaultGamePort then officials[k].host
      else officials[k].host + ":" + DecimalString(address.port)
    case None => []
  }

  // ---------------------------------------------------------------------------------------
  // Reading the downloaded list

  datatype HttpResponse = HttpResponse(status: nat, body: seq<uint8>)

  /**
   * `to_server_list`: a failed connection or an unsuccessful status gives an empty list and
   * the matching message; otherwise the body is read entry by entry, and a read error empties
   * the list and explains itself. Whether a status is successful and how an entry is read are
   * parameters. The message is `None` when it is left untouched.
   */
  function ToServerList(
    result: Option<HttpResponse>,
    successful: nat -> bool,
    deserialize: seq<uint8> -> Option<seq<ServerListEntry>>,
    readErrorWhat: string
  ): (r: (seq<ServerListEntry>, Option<string>))
    ensures result.None? ==> r == ([], Some("Couldn't connect to the server list host."))
    ensures result.Some? && !successful(result.value.status) ==>
              r == ([], Some("Couldn't download the server list.\n" + "HTTP response: " + DecimalString(result.value.status)))
    ensures r.1.None? <==> result.Some? && successful(result.value.status) && deserialize(result.value.body).Some?
    ensures r.1.Some? ==> r.0 == []
  {
    if result.None? then ([], Some("Couldn't connect to the server list host."))
    else if !successful(result.value.status) then
      ([], Some("Couldn't download the server list.\n" + "HTTP response: " + DecimalString(result.value.status)))
    else match deserialize(result.value.body)
      case Some(entries) => (entries, None)
      case None => ([], Some("There was a problem deserializing the server list:\n" + readErrorWhat
                               + "\n\nTry restarting the game and updating your client!"))
  }

  // ---------------------------------------------------------------------------------------
  // Pinging

  const PING_RETRY_INTERVAL := 1
  const REPING_INTERVAL := 10
  const SERVER_ENTRY_TIMEOUT := 5
  const MAX_PACKETS_PER_FRAME := 64

  /** A ping request sent to an address with a sequence number. */
  datatype PingRequest = PingRequest(to: NetAddress, sequence: uint64)

  /** `request_ping`'s packets: the public address always, and the internal one too when it is on a private network. */
  function PingPackets(e: ServerListEntry, sequence: uint64): (r: seq<PingRequest>)
    ensures 1 <= |r| <= 2 && r[0] == PingRequest(e.address, sequence)
    ensures forall k | 0 <= k < |r| :: r[k].sequence == sequence
  {
    var internal := e.heartbeat.internalNetworkAddress;
    [PingRequest(e.address, sequence)]
    + (if internal.Some? && IsInternal(internal.value) then [PingRequest(internal.value, sequence)] else [])
  }

  /** `request_ping` on an entry: the ping time and sequence are recorded. */
  function Pinged(e: ServerListEntry, now: int, sequence: uint64): ServerListEntry {
    e.(progress := e.progress.(whenSentLastPing := now, pingSequence := sequence))
  }

  /** One visited entry: its new value and whether a ping was requested for it (with sequence `sequence`). */
  function VisitEntry(e: ServerListEntry, now: int, show: bool, sequence: uint64): (r: (ServerListEntry, bool))
    ensures e.progress.state == GivenUp ==> r == (e, false)
    ensures r.0.address == e.address && r.0.heartbeat == e.heartbeat
  {
    var p := e.progress;
    if p.state == AwaitingResponse then
      var fire := now - p.whenSentLastPing >= PING_RETRY_INTERVAL;
      var e1 := if fire then
                  Pinged(e.(progress := p.(whenSentFirstPing := if p.whenSentFirstPing < 0 then now else p.whenSentFirstPing)), now, sequence)
                else e;
      if e1.progress.whenSentFirstPing >= 0 && now - e1.progress.whenSentFirstPing >= SERVER_ENTRY_TIMEOUT
      then (e1.(progress := e1.progress.(state := GivenUp)), fire)
      else (e1, fire)
    else if p.state == PingMeasured then
      if show && now - p.whenSentLastPing >= REPING_INTERVAL then (Pinged(e, now, sequence), true) else (e, false)
    else (e, false)
  }

  /**
   * An entry still awaiting its pingback is pinged again once the retry interval has passed
   * since its last ping, whether or not the browser is shown; its first ping records the
   * time. It is given up once the timeout has passed since that first ping.
   */
  lemma AwaitingGivesUpAfterTimeout(e: ServerListEntry, now: int, show: bool, sequence: uint64)
    requires e.progress.state == AwaitingResponse
    ensures var r := VisitEntry(e, now, show, sequence).0;
      r.progress.state == GivenUp <==> r.progress.whenSentFirstPing >= 0 && now - r.progress.whenSentFirstPing >= SERVER_ENTRY_TIMEOUT
    ensures var r := VisitEntry(e, now, show, sequence).0;
      r.progress.state != PingMeasured
    ensures var (r, pinged) := VisitEntry(e, now, show, sequence);
      && (pinged <==> now - e.progress.whenSentLastPing >= PING_RETRY_INTERVAL)
      && (pinged ==> r.progress == e.progress.(state := r.progress.state, whenSentLastPing := now, pingSequence := sequence,
                                               whenSentFirstPing := if e.progress.whenSentFirstPing < 0 then now else e.progress.whenSentFirstPing))
      && (!pinged ==> r.progress == e.progress.(state := r.progress.state))
  {
  }

  /** A measured entry is only re-pinged while the browser is shown and the re-ping interval has passed; it stays measured. */
  lemma MeasuredRepingsOnlyWhenShown(e: ServerListEntry, now: int, show: bool, sequence: uint64)
    requires e.progress.state == PingMeasured
    ensures var (r, pinged) := VisitEntry(e, now, show, sequence);
      && r.progress.state == PingMeasured
      && (pinged <==> show && now - e.progress.whenSentLastPing >= REPING_INTERVAL)
      && (pinged ==> r.progress.pingSequence == sequence && r.progress.whenSentLastPing == now)
      && (!pinged ==> r == e)
  {
  }

  /** The outcome of one frame of pinging over the list from position `k`. */
  datatype PingRound = PingRound(entries: seq<ServerListEntry>, counter: nat, packetsLeft: int, sent: seq<PingRequest>)

  /**
   * The ping loop from entry `k` on: stop once the budget is used up, otherwise visit the
   * entry, sending its packets under the next sequence number when a ping is requested.
   */
  function PingFrom(entries: seq<ServerListEntry>, k: nat, now: int, show: bool, counter: nat, packetsLeft: int): (r: PingRound)
    requires k <= |entries|
    ensures |r.entries| == |entries| && r.counter >= counter
    ensures forall j | 0 <= j < k :: r.entries[j] == entries[j]
    decreases |entries| - k
  {
    if k == |entries| || packetsLeft <= 0 then PingRound(entries, counter, packetsLeft, [])
    else
      var (e, pinged) := VisitEntry(entries[k], now, show, counter % UINT64_LIMIT);
      var packets := if pinged then PingPackets(entries[k], counter % UINT64_LIMIT) else [];
      var rest := PingFrom(entries[k := e], k + 1, now, show, if pinged then counter + 1 else counter, packetsLeft - |packets|);
      PingRound(rest.entries, rest.counter, rest.packetsLeft, packets + rest.sent)
  }

  /**
   * The budget: visiting stops once it is used up, so a frame sends at most the budget plus
   * one packet (the last visited entry may add its internal address), and one sequence number
   * is used per ping request.
   */
  lemma {:induction false} PingBudget(entries: seq<ServerListEntry>, k: nat, now: int, show: bool, counter: nat, packetsLeft: int)
    requires k <= |entries|
    ensures var r := PingFrom(entries, k, now, show, counter, packetsLeft);
      && |r.sent| <= (if packetsLeft <= 0 then 0 else packetsLeft + 1)
      && r.counter - counter <= |r.sent|
      && (r.sent != [] ==> r.counter > counter)
    decreases |entries| - k
  {
    if k < |entries| && packetsLeft > 0 {
      var (e, pinged) := VisitEntry(entries[k], now, show, counter % UINT64_LIMIT);
      var packets := if pinged then PingPackets(entries[k], counter % UINT64_LIMIT) else [];
      var counter' := if pinged then counter + 1 else counter;
      PingFromStep(entries, k, now, show, counter, packetsLeft, e, pinged);
      PingBudget(entries[k := e], k + 1, now, show, counter', packetsLeft - |packets|);
    }
  }

  /** The browser state the ping logic and the list refresh touch. */
  class Browser {
    var serverList: seq<ServerListEntry>
    var officialServerAddresses: seq<ResolvedOfficial>
    var pingSequenceCounter: nat
    var show: bool

    constructor ()
      ensures serverList == [] && officialServerAddresses == [] && pingSequenceCounter == 0 && !show
    {
      serverList := [];
      officialServerAddresses := [];
      pingSequenceCounter := 0;
      show := false;
    }

    /**
     * `send_pings_and_punch_requests`: visits the entries in order while packets are left
     * in this frame's budget, and returns the ping packets it sent.
     */
    method SendPingsAndPunchRequests(now: int) returns (sent: seq<PingRequest>)
      modifies this
      ensures var r := PingFrom(old(serverList), 0, now, old(show), old(pingSequenceCounter), MAX_PACKETS_PER_FRAME);
        serverList == r.entries && pingSequenceCounter == r.counter && sent == r.sent
      ensures |sent| <= MAX_PACKETS_PER_FRAME + 1 && pingSequenceCounter >= old(pingSequenceCounter)
      ensures officialServerAddresses == old(officialServerAddresses) && show == old(show)
    {
      PingBudget(serverList, 0, now, show, pingSequenceCounter, MAX_PACKETS_PER_FRAME);
      var r := PingLoop(serverList, now, show, pingSequenceCounter);
      serverList, pingSequenceCounter, sent := r.entries, r.counter, r.sent;
    }

    /**
     * `handle_gameserver_response`: a ping response from a listed public address sets the
     * measured ping when its sequence is the one last sent; failing that, a response from a
     * server's internal address with that server's sequence marks it found on the local
     * network. Any ping response is consumed; anything else is left for other handlers.
     */
    method HandleGameserverResponse(from: NetAddress, maybeSequence: Option<uint64>, now: int) returns (handled: bool)
      modifies this
      ensures handled <==> maybeSequence.Some?
      ensures serverList == old(AfterPingback(serverList, from, maybeSequence, now))
      ensures officialServerAddresses == old(officialServerAddresses) && pingSequenceCounter == old(pingSequenceCounter)
    {
      if maybeSequence.None? {
        return false;
      }
      serverList := AfterPingback(serverList, from, maybeSequence, now);
      return true;
    }

    /** `refresh_custom_connect_strings`: every entry's connect string is recomputed from the official hosts. */
    method RefreshCustomConnectStrings(defaultGamePort: uint16)
      modifies this
      ensures |serverList| == |old(serverList)|
      ensures forall k | 0 <= k < |serverList| ::
                serverList[k] == old(serverList)[k].(customConnectString := ConnectString(officialServerAddresses, old(serverList)[k].address, defaultGamePort))
      ensures officialServerAddresses == old(officialServerAddresses) && pingSequenceCounter == old(pingSequenceCounter)
    {
      for k := 0 to |serverList|
        invariant |serverList| == |old(serverList)| && officialServerAddresses == old(officialServerAddresses)
        invariant pingSequenceCounter == old(pingSequenceCounter)
        invariant forall j | 0 <= j < k ::
                    serverList[j] == old(serverList)[j].(customConnectString := ConnectString(officialServerAddresses, old(serverList)[j].address, defaultGamePort))
        invariant forall j | k <= j < |serverList| :: serverList[j] == old(serverList)[j]
      {
        var s := serverList[k];
        var c := ConnectString(officialServerAddresses, s.address, defaultGamePort);
        serverList := serverList[k := s.(customConnectString := c)];
      }
    }
  }

  /** The loop of `send_pings_and_punch_requests` over the entries, with a budget of 64 packets. */
  method PingLoop(entries: seq<ServerListEntry>, now: int, show: bool, counter: nat) returns (r: PingRound)
    ensures r == PingFrom(entries, 0, now, show, counter, MAX_PACKETS_PER_FRAME)
  {
    var list, c: nat, packetsLeft, sent := entries, counter, MAX_PACKETS_PER_FRAME, [];
    var k := 0;
    ghost var total := PingFrom(entries, 0, now, show, counter, MAX_PACKETS_PER_FRAME);
    ghost var rest := total;
    assert [] + rest.sent == rest.sent;
    while k < |list| && packetsLeft > 0
      invariant 0 <= k <= |list| == |entries|
      invariant rest == PingFrom(list, k, now, show, c, packetsLeft)
      invariant SentBefore(sent, rest) == total
      decreases |list| - k
    {
      var packets;
      list, c, packetsLeft, packets := PingOne(list, k, now, show, c, packetsLeft);
      ghost var after := PingFrom(list, k + 1, now, show, c, packetsLeft);
      SentBeforeTwice(sent, packets, after);
      sent := sent + packets;
      rest := after;
      k := k + 1;
    }
    assert rest == PingRound(list, c, packetsLeft, []);
    assert sent + [] == sent;
    r := PingRound(list, c, packetsLeft, sent);
  }

  /** A round whose sent packets are preceded by packets sent earlier in the frame. */
  function SentBefore(sent: seq<PingRequest>, r: PingRound): PingRound {
    r.(sent := sent + r.sent)
  }

  lemma SentBeforeTwice(sent: seq<PingRequest>, packets: seq<PingRequest>, r: PingRound)
    ensures SentBefore(sent, SentBefore(packets, r)) == SentBefore(sent + packets, r)
  {
    assert sent + (packets + r.sent) == (sent + packets) + r.sent;
  }

  /** The body of the ping loop: entry `k` is visited and its packets are counted against the budget. */
  method PingOne(entries: seq<ServerListEntry>, k: nat, now: int, show: bool, c: nat, packetsLeft: int)
    returns (entries': seq<ServerListEntry>, c': nat, packetsLeft': int, packets: seq<PingRequest>)
    requires k < |entries| && packetsLeft > 0
    ensures |entries'| == |entries|
    ensures PingFrom(entries, k, now, show, c, packetsLeft) == SentBefore(packets, PingFrom(entries', k + 1, now, show, c', packetsLeft'))
  {
    var e, pinged := VisitEntryStep(entries[k], now, show, c % UINT64_LIMIT);
    packets := if pinged then PingPackets(entries[k], c % UINT64_LIMIT) else [];
    PingFromStep(entries, k, now, show, c, packetsLeft, e, pinged);
    entries', c', packetsLeft' := entries[k := e], if pinged then c + 1 else c, packetsLeft - |packets|;
  }

  /** One step of the ping loop, in terms of the visit of entry `k`. */
  lemma PingFromStep(entries: seq<ServerListEntry>, k: nat, now: int, show: bool, c: nat, packetsLeft: int,
                     e: ServerListEntry, pinged: bool)
    requires k < |entries| && packetsLeft > 0
    requires (e, pinged) == VisitEntry(entries[k], now, show, c % UINT64_LIMIT)
    ensures var packets := if pinged then PingPackets(entries[k], c % UINT64_LIMIT) else [];
      var after := PingFrom(entries[k := e], k + 1, now, show, if pinged then c + 1 else c, packetsLeft - |packets|);
      PingFrom(entries, k, now, show, c, packetsLeft) == PingRound(after.entries, after.counter, after.packetsLeft, packets + after.sent)
  {
  }

  /** The visit of one entry, as the loop body performs it. */
  method VisitEntryStep(e: ServerListEntry, now: int, show: bool, sequence: uint64) returns (r: ServerListEntry, pinged: bool)
    ensures (r, pinged) == VisitEntry(e, now, show, sequence)
    ensures e.progress.state == GivenUp ==> r == e && !pinged
  {
    r, pinged := e, false;
    var p := e.progress;
    if p.state == AwaitingResponse {
      if now - p.whenSentLastPing >= PING_RETRY_INTERVAL {
        if p.whenSentFirstPing < 0 {
          r := r.(progress := r.progress.(whenSentFirstPing := now));
        }
        r := Pinged(r, now, sequence);
        pinged := true;
      }
      if r.progress.whenSentFirstPing >= 0 && now - r.progress.whenSentFirstPing >= SERVER_ENTRY_TIMEOUT {
        r := r.(progress := r.progress.(state := GivenUp));
        return;
      }
    }
    if r.progress.state == PingMeasured {
      if show && now - r.progress.whenSentLastPing >= REPING_INTERVAL {
        r := Pinged(r, now, sequence);
        pinged := true;
      }
    }
  }

  /** `find_entry`: the first entry listed under this public address. */
  function FindEntry(list: seq<ServerListEntry>, address: NetAddress): (r: Option<nat>)
    ensures r.None? <==> forall k | 0 <= k < |list| :: list[k].address != address
    ensures r.Some? ==> (r.value < |list| && list[r.value].address == address
      && forall k | 0 <= k < r.value :: list[k].address != address)
  {
    if list == [] then None
    else if list[0].address == address then Some(0)
    else match FindEntry(list[1..], address)
      case None => None
      case Some(k) => Some(k + 1)
  }

  predicate MatchesInternally(e: ServerListEntry, address: NetAddress, sequence: uint64) {
    e.progress.pingSequence == sequence && e.heartbeat.internalNetworkAddress == Some(address)
  }

  /** `find_entry_by_internal_address`: the first entry with this sequence whose internal address this is. */
  function FindEntryByInternalAddress(list: seq<ServerListEntry>, address: NetAddress, sequence: uint64): (r: Option<nat>)
    ensures r.None? <==> forall k | 0 <= k < |list| :: !MatchesInternally(list[k], address, sequence)
    ensures r.Some? ==> (r.value < |list| && MatchesInternally(list[r.value], address, sequence)
      && forall k | 0 <= k < r.value :: !MatchesInternally(list[k], address, sequence))
  {
    if list == [] then None
    else if MatchesInternally(list[0], address, sequence) then Some(0)
    else match FindEntryByInternalAddress(list[1..], address, sequence)
      case None => None
      case Some(k) => Some(k + 1)
  }

  /** A measured pingback: the ping is the time since the last ping was sent. */
  function Measured(p: EntryProgress, now: int): EntryProgress {
    p.(ping := now - p.whenSentLastPing, state := PingMeasured)
  }

  /** The list after a packet from `from` that may be a ping response. */
  function AfterPingback(list: seq<ServerListEntry>, from: NetAddress, maybeSequence: Option<uint64>, now: int): (r: seq<ServerListEntry>)
    ensures |r| == |list|
    ensures maybeSequence.None? ==> r == list
    ensures forall k | 0 <= k < |list| :: r[k].address == list[k].address && r[k].heartbeat == list[k].heartbeat
  {
    if maybeSequence.None? then list
    else
      var sequence := maybeSequence.value;
      match FindEntry(list, from)
      case Some(k) =>
        if sequence == list[k].progress.pingSequence
        then list[k := list[k].(progress := Measured(list[k].progress, now))]
        else list
      case None =>
        match FindEntryByInternalAddress(list, from, sequence)
        case Some(k) => list[k := list[k].(progress := Measured(list[k].progress, now).(foundOnInternalNetwork := true))]
        case None => list
  }

  /**
   * A pingback changes at most one entry. From a listed public address only a matching
   * sequence measures it, and it is never marked local; the local-network mark needs a match
   * of both internal address and sequence.
   */
  lemma PingbackChangesOneEntry(list: seq<ServerListEntry>, from: NetAddress, sequence: uint64, now: int)
    ensures var r := AfterPingback(list, from, Some(sequence), now);
      && (forall j, k | 0 <= j < k < |list| :: r[j] == list[j] || r[k] == list[k])
      && (forall k | 0 <= k < |list| && r[k] != list[k] ::
            r[k].progress.state == PingMeasured && r[k].progress.ping == now - list[k].progress.whenSentLastPing
            && (r[k].progress.foundOnInternalNetwork != list[k].progress.foundOnInternalNetwork ==>
                  FindEntry(list, from).None? && MatchesInternally(list[k], from, sequence)))
      && (FindEntry(list, from).Some? && sequence != list[FindEntry(list, from).value].progress.pingSequence ==> r == list)
  {
  }
}
