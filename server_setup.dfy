/**
 * The per-tick client bookkeeping of the game server (src/application/setups/server/server_setup.cpp):
 * draining each client's jitter buffer of pending inputs ("entropies") into the step, kicking
 * and lingering before disconnecting, admitting and removing at most one player per tick, the
 * per-tick broadcast of the accepted counts and the state-hash countdown, one-shot flags, and
 * the shuffled arena cycle.
 *
 * An entropy is a value of a type parameter `E`; its `+=` merge, the empty entropy and the
 * emptiness test are parameters. The game mode and the client predicates the tick consults
 * (who is already a player, who timed out, who is AFK, ...) are inputs of the tick.
 * Times are whole seconds.
 */
module ServerSetup {
  import opened Ints
  import opened Wrappers
  import opened Factions
  import opened ModeEntropyStructs
  import opened ServerHelpers

  /** `client_state_type`, in the order the server compares states. */
  datatype ClientState = Invalid | PendingWelcome | WelcomeArrived | ReceivingInitialSnapshot | InGame

  function StateRank(s: ClientState): nat {
    match s
    case Invalid => 0
    case PendingWelcome => 1
    case WelcomeArrived => 2
    case ReceivingInitialSnapshot => 3
    case InGame => 4
  }

  /** The client's requested jitter settings. */
  datatype JitterVars = JitterVars(bufferAtLeastSteps: nat, bufferAtLeastMs: nat, maxCommandsToSquashAtOnce: uint8)

  /** One client slot of the server's client table. */
  datatype Client<E> = Client(
    isSet: bool,
    state: ClientState,
    nickname: string,
    pendingEntropies: seq<E>,
    numEntropiesAccepted: uint8,
    whenKicked: Option<int>,
    kickNoLinger: bool,
    jitter: JitterVars,
    pausesSolvableStream: bool)

  /** `unset`: the slot returns to a disconnected default. */
  function UnsetClient<E>(): (r: Client<E>)
    ensures !r.isSet && r.pendingEntropies == [] && r.whenKicked.None?
  {
    Client(false, Invalid, "", [], 0, None, false, JitterVars(0, 0, 0), false)
  }

  /** How entropies combine: `+=`, the default-constructed entropy, and `empty()`. */
  datatype EntropyOps<!E> = EntropyOps(merge: (E, E) -> E, empty: E, isEmpty: E -> bool)

  // ---------------------------------------------------------------------------------------
  // Jitter buffer

  /** The squash threshold: the larger of the step count and the millisecond target in whole steps. */
  function SquashThreshold(j: JitterVars, tickMs: nat): (r: nat)
    requires tickMs > 0
    ensures r >= j.bufferAtLeastSteps && r >= j.bufferAtLeastMs / tickMs
    ensures r == j.bufferAtLeastSteps || r == j.bufferAtLeastMs / tickMs
  {
    var inSteps := j.bufferAtLeastMs / tickMs;
    if j.bufferAtLeastSteps >= inSteps then j.bufferAtLeastSteps else inSteps
  }

  /** The entropies merged left to right into a default-constructed one. */
  function MergedAll<E>(ops: EntropyOps<E>, es: seq<E>): E {
    if es == [] then ops.empty else ops.merge(MergedAll(ops, es[..|es| - 1]), es[|es| - 1])
  }

  /** How many of the pending entropies one tick consumes, and what it makes of them. */
  function Drain<E>(pending: seq<E>, j: JitterVars, tickMs: nat, ops: EntropyOps<E>): (r: (nat, E))
    requires tickMs > 0 && |pending| > 0
    ensures r.0 <= |pending|
  {
    if |pending| >= SquashThreshold(j, tickMs) then
      var n := Min(|pending|, j.maxCommandsToSquashAtOnce);
      (n, MergedAll(ops, pending[..n]))
    else (1, pending[0])
  }

  /**
   * A tick takes entropies from the front of the buffer only: below the threshold exactly the
   * oldest one, as is; at or above it the oldest `min(pending, max squash)` merged in arrival
   * order. A buffer with something in it always shrinks unless squashing is configured to zero.
   */
  lemma DrainTakesOldest<E>(pending: seq<E>, j: JitterVars, tickMs: nat, ops: EntropyOps<E>)
    requires tickMs > 0 && |pending| > 0
    ensures var (n, e) := Drain(pending, j, tickMs, ops);
      && pending == pending[..n] + pending[n..]
      && (|pending| < SquashThreshold(j, tickMs) ==> n == 1 && e == pending[0])
      && (|pending| >= SquashThreshold(j, tickMs) ==>
            n == Min(|pending|, j.maxCommandsToSquashAtOnce) && e == MergedAll(ops, pending[..n]))
      && (n == 0 <==> |pending| >= SquashThreshold(j, tickMs) && j.maxCommandsToSquashAtOnce == 0)
      && n <= Max(1, j.maxCommandsToSquashAtOnce)
  {
  }

  /** The effect of `contribute_to_step_entropy` on one client: its buffer and accepted count, and what it hands to the step. */
  function Contributed<E>(c: Client<E>, tickMs: nat, ops: EntropyOps<E>): (r: (Client<E>, Option<E>))
    requires tickMs > 0
    ensures c.pendingEntropies == [] ==> r == (c, None)
    ensures r.0 == c.(pendingEntropies := r.0.pendingEntropies, numEntropiesAccepted := r.0.numEntropiesAccepted)
  {
    if |c.pendingEntropies| == 0 then (c, None)
    else
      var (n, e) := Drain(c.pendingEntropies, c.jitter, tickMs, ops);
      (c.(pendingEntropies := c.pendingEntropies[n..], numEntropiesAccepted := n), Some(e))
  }

  /** `accept_entropy_of_client`: only a non-empty entropy joins the step, tagged with the player. */
  function Accepted<E>(collected: seq<(nat, E)>, id: nat, e: Option<E>, ops: EntropyOps<E>): (r: seq<(nat, E)>)
    ensures e.None? || ops.isEmpty(e.value) ==> r == collected
    ensures e.Some? && !ops.isEmpty(e.value) ==> r == collected + [(id, e.value)]
  {
    if e.Some? && !ops.isEmpty(e.value) then collected + [(id, e.value)] else collected
  }

  /**
   * The consumed prefix of a buffer is exactly the entropies the tick accounted for: the buffer
   * loses them from its front, the accepted count equals their number, and the contribution is
   * made of them.
   */
  lemma ContributionAccountsForConsumed<E>(c: Client<E>, tickMs: nat, ops: EntropyOps<E>)
    requires tickMs > 0 && c.pendingEntropies != []
    ensures var (c', e) := Contributed(c, tickMs, ops);
      var n := c'.numEntropiesAccepted;
      && n <= |c.pendingEntropies|
      && c.pendingEntropies == c.pendingEntropies[..n] + c'.pendingEntropies
      && e.Some?
      && (n == 1 && |c.pendingEntropies| < SquashThreshold(c.jitter, tickMs) ==> e.value == c.pendingEntropies[0])
      && (|c.pendingEntropies| >= SquashThreshold(c.jitter, tickMs) ==> e.value == MergedAll(ops, c.pendingEntropies[..n]))
  {
    DrainTakesOldest(c.pendingEntropies, c.jitter, tickMs, ops);
  }

  // ---------------------------------------------------------------------------------------
  // Kicks and the tick

  /** `kick`: marks a connected client as kicked at `now`, unless it is unset or already kicked. */
  function KickedClient<E>(c: Client<E>, now: int): (r: Client<E>)
    ensures !c.isSet || c.whenKicked.Some? ==> r == c
    ensures c.isSet && c.whenKicked.None? ==> r == c.(whenKicked := Some(now))
  {
    if !c.isSet || c.whenKicked.Some? then c else c.(whenKicked := Some(now))
  }

  /** Kicking twice is kicking once, whatever the second time is: the first kick time stays. */
  lemma KickIsIdempotent<E>(c: Client<E>, now: int, later: int)
    ensures KickedClient(KickedClient(c, now), later) == KickedClient(c, now)
  {
  }

  /** The inputs of one tick of `advance_clients_state` besides the client table. */
  datatype TickEnv = TickEnv(
    now: int,
    tickMs: nat,
    joinable: bool,
    addedToMode: set<nat>,
    wrongMatch: set<nat>,
    afk: set<nat>,
    timedOut: set<nat>,
    unauthenticated: set<nat>,
    authFulfilled: set<nat>,
    suspendedIds: map<nat, nat>,
    maxBufferedClientCommands: nat,
    maxKickBanLingerSecs: int)

  /** Whether any kick condition holds for client `id`; a pending count above the maximum is one. */
  predicate ShouldKick<E>(c: Client<E>, id: nat, env: TickEnv) {
    || (id !in env.addedToMode && (!env.joinable || id in env.wrongMatch))
    || (c.state == InGame && id in env.afk)
    || id in env.timedOut
    || id in env.unauthenticated
    || |c.pendingEntropies| > env.maxBufferedClientCommands
  }

  /** The kick linger window, clamped to between 0 and 15 seconds. */
  function LingerSecs(env: TickEnv): (r: int)
    ensures 0 <= r <= 15
  {
    if env.maxKickBanLingerSecs < 0 then 0 else if env.maxKickBanLingerSecs > 15 then 15 else env.maxKickBanLingerSecs
  }

  /** Whether a kicked client is disconnected now: when its kick skips the linger, or the linger window has passed. */
  predicate LingerOver<E>(c: Client<E>, env: TickEnv) {
    c.whenKicked.Some? && (c.kickNoLinger || env.now - c.whenKicked.value > LingerSecs(env))
  }

  /** The tick's state besides the client table's other fields: what is collected and the once-per-tick flags. */
  datatype Tick<E> = Tick(
    clients: seq<Client<E>>,
    addedPlayer: Option<AddPlayerInput>,
    removedPlayer: Option<nat>,
    stepCollected: seq<(nat, E)>,
    addedSomeone: bool,
    removedSomeone: bool)

  /** `check_all_kick_conditions` for client `id`: every applicable kick, then the linger check. */
  function CheckedClient<E>(c: Client<E>, id: nat, removedSomeone: bool, env: TickEnv): (r: Client<E>) {
    if !c.isSet then c
    else
      var k := if ShouldKick(c, id, env) then KickedClient(c, env.now) else c;
      var k' := if id in env.timedOut then k.(kickNoLinger := true) else k;
      if !removedSomeone && LingerOver(k', env) then UnsetClient() else k'
  }

  /** `remove_from_game_if_kicked`: the first disconnected slot still in the game is removed from it. */
  function RemovedIfKicked<E>(t: Tick<E>, id: nat, env: TickEnv): (r: Tick<E>)
    requires id < |t.clients|
  {
    if !t.removedSomeone && !t.clients[id].isSet && id in env.addedToMode
    then t.(removedSomeone := true, removedPlayer := Some(id))
    else t
  }

  /** Whether client `id` is one the tick tries to add to the game. */
  predicate WantsAdding<E>(t: Tick<E>, id: nat, env: TickEnv)
    requires id < |t.clients|
  {
    !t.addedSomeone && StateRank(t.clients[id].state) > StateRank(PendingWelcome)
    && id !in env.addedToMode && id in env.authFulfilled
  }

  /** The add command for client `id`: a spectator, migrating from a suspended player when there is one. */
  function AddCommand(id: nat, nickname: string, env: TickEnv): AddPlayerInput {
    AddPlayerInput(PlayerId(id), nickname, Spectator, if id in env.suspendedIds then PlayerId(env.suspendedIds[id]) else Dead)
  }

  /** The admission step: a client with an empty nickname is disconnected instead; a welcomed one starts receiving its snapshot. */
  function Admitted<E>(t: Tick<E>, id: nat, env: TickEnv): (r: Tick<E>)
    requires id < |t.clients|
    ensures |r.clients| == |t.clients|
  {
    var c := t.clients[id];
    if !WantsAdding(t, id, env) then t
    else if c.nickname == [] then t.(clients := t.clients[id := UnsetClient()])
    else
      var c' := if c.state == WelcomeArrived then c.(state := ReceivingInitialSnapshot) else c;
      t.(clients := t.clients[id := c'], addedPlayer := Some(AddCommand(id, c.nickname, env)), addedSomeone := true)
  }

  /** The contribution step: an in-game client drains its buffer into the step. */
  function ContributedTick<E>(t: Tick<E>, id: nat, env: TickEnv, ops: EntropyOps<E>): (r: Tick<E>)
    requires id < |t.clients| && env.tickMs > 0
    ensures |r.clients| == |t.clients|
  {
    var c := t.clients[id];
    if c.state != InGame then t
    else
      var (c', e) := Contributed(c, env.tickMs, ops);
      t.(clients := t.clients[id := c'], stepCollected := Accepted(t.stepCollected, id, e, ops))
  }

  /** `process_client` for slot `id`. */
  function ProcessedClient<E>(t: Tick<E>, id: nat, env: TickEnv, ops: EntropyOps<E>): (r: Tick<E>)
    requires id < |t.clients| && env.tickMs > 0
    ensures |r.clients| == |t.clients|
  {
    var t1 := t.(clients := t.clients[id := CheckedClient(t.clients[id], id, t.removedSomeone, env)]);
    var t2 := RemovedIfKicked(t1, id, env);
    if !t2.clients[id].isSet then t2
    else
      var t3 := Admitted(t2, id, env);
      if !t3.clients[id].isSet then t3
      else ContributedTick(t3, id, env, ops)
  }

  /** The tick over slots `k..`. */
  function ProcessedFrom<E>(t: Tick<E>, k: nat, env: TickEnv, ops: EntropyOps<E>): (r: Tick<E>)
    requires k <= |t.clients| && env.tickMs > 0
    ensures |r.clients| == |t.clients|
    decreases |t.clients| - k
  {
    if k == |t.clients| then t else ProcessedFrom(ProcessedClient(t, k, env, ops), k + 1, env, ops)
  }

  /**
   * Processing one slot touches that slot only; the add and remove commands are written only
   * while their once-per-tick flags are clear, and those flags never go back to clear.
   */
  lemma ProcessedClientFrame<E>(t: Tick<E>, id: nat, env: TickEnv, ops: EntropyOps<E>)
    requires id < |t.clients| && env.tickMs > 0
    ensures var r := ProcessedClient(t, id, env, ops);
      && (forall j | 0 <= j < |t.clients| && j != id :: r.clients[j] == t.clients[j])
      && (t.addedSomeone ==> r.addedSomeone && r.addedPlayer == t.addedPlayer)
      && (t.removedSomeone ==> r.removedSomeone && r.removedPlayer == t.removedPlayer)
      && (!r.addedSomeone ==> r.addedPlayer == t.addedPlayer)
      && (!r.removedSomeone ==> r.removedPlayer == t.removedPlayer)
  {
  }

  /**
   * At most one player is added and at most one removed per tick: once a command has been
   * written, no later slot overwrites it; and nothing is written while the flag stays clear.
   */
  lemma {:induction false} AtMostOneAddAndRemovePerTick<E>(t: Tick<E>, k: nat, env: TickEnv, ops: EntropyOps<E>)
    requires k <= |t.clients| && env.tickMs > 0
    ensures var r := ProcessedFrom(t, k, env, ops);
      && (t.addedSomeone ==> r.addedSomeone && r.addedPlayer == t.addedPlayer)
      && (t.removedSomeone ==> r.removedSomeone && r.removedPlayer == t.removedPlayer)
      && (!r.addedSomeone ==> r.addedPlayer == t.addedPlayer)
      && (!r.removedSomeone ==> r.removedPlayer == t.removedPlayer)
    decreases |t.clients| - k
  {
    if k < |t.clients| {
      ProcessedClientFrame(t, k, env, ops);
      AtMostOneAddAndRemovePerTick(ProcessedClient(t, k, env, ops), k + 1, env, ops);
    }
  }

  /**
   * A connected client whose pending count exceeds the maximum ends the slot's processing
   * kicked or disconnected; a client that was not kicked before is kicked only for a reason.
   */
  lemma OverflowKicks<E>(t: Tick<E>, id: nat, env: TickEnv, ops: EntropyOps<E>)
    requires id < |t.clients| && env.tickMs > 0
    ensures var c := t.clients[id];
      var r := ProcessedClient(t, id, env, ops).clients[id];
      && (c.isSet && |c.pendingEntropies| > env.maxBufferedClientCommands ==> !r.isSet || r.whenKicked.Some?)
      && (c.whenKicked.None? && r.whenKicked.Some? ==> ShouldKick(c, id, env) && r.whenKicked == Some(env.now))
  {
    LaterStagesKeepKick(t, id, env, ops);
  }

  /** After the kick check, the slot's remaining steps either disconnect the client or leave its kick time alone. */
  lemma LaterStagesKeepKick<E>(t: Tick<E>, id: nat, env: TickEnv, ops: EntropyOps<E>)
    requires id < |t.clients| && env.tickMs > 0
    ensures var c1 := CheckedClient(t.clients[id], id, t.removedSomeone, env);
      var r := ProcessedClient(t, id, env, ops).clients[id];
      !r.isSet || (c1.isSet && r.whenKicked == c1.whenKicked)
  {
    var t1 := t.(clients := t.clients[id := CheckedClient(t.clients[id], id, t.removedSomeone, env)]);
    var t2 := RemovedIfKicked(t1, id, env);
    assert t2.clients[id] == t1.clients[id];
    if t2.clients[id].isSet {
      var t3 := Admitted(t2, id, env);
      assert !t3.clients[id].isSet || t3.clients[id].whenKicked == t2.clients[id].whenKicked;
    }
  }

  /**
   * A connected client is disconnected by the linger check only after a kick, once the linger
   * window has passed or its kick skips lingering, and only while nobody was removed yet.
   */
  lemma LingerBeforeDisconnect<E>(c: Client<E>, id: nat, removedSomeone: bool, env: TickEnv)
    requires c.isSet
    ensures var r := CheckedClient(c, id, removedSomeone, env);
      !r.isSet <==> !removedSomeone && (ShouldKick(c, id, env) || c.whenKicked.Some?)
                    && (c.kickNoLinger || id in env.timedOut
                        || env.now - (if c.whenKicked.Some? then c.whenKicked.value else env.now) > LingerSecs(env))
  {
  }

  /** Only an in-game client contributes to the step, and only a non-empty contribution is collected. */
  lemma OnlyInGameClientsContribute<E>(t: Tick<E>, id: nat, env: TickEnv, ops: EntropyOps<E>)
    requires id < |t.clients| && env.tickMs > 0
    ensures var r := ProcessedClient(t, id, env, ops);
      && (r.stepCollected != t.stepCollected ==>
            t.clients[id].state == InGame && r.stepCollected == t.stepCollected + [(id, r.stepCollected[|r.stepCollected| - 1].1)]
            && !ops.isEmpty(r.stepCollected[|r.stepCollected| - 1].1))
  {
  }

  // ---------------------------------------------------------------------------------------
  // Broadcast bookkeeping

  /** A client that gets this tick's step: connected, not paused, and at least receiving its initial snapshot. */
  predicate Recipient<E>(c: Client<E>) {
    c.isSet && !c.pausesSolvableStream && StateRank(c.state) >= StateRank(ReceivingInitialSnapshot)
  }

  /** A recipient's accepted count is sent and reset; other clients keep theirs. */
  function AfterBroadcast<E>(c: Client<E>): (r: Client<E>)
    ensures Recipient(c) ==> r == c.(numEntropiesAccepted := 0)
    ensures !Recipient(c) ==> r == c
  {
    if Recipient(c) then c.(numEntropiesAccepted := 0) else c
  }

  /** The (client, accepted count) contexts sent to slots `k..`, in slot order. */
  function SentContexts<E>(cs: seq<Client<E>>, k: nat): seq<(nat, uint8)>
    requires k <= |cs|
    decreases |cs| - k
  {
    if k == |cs| then []
    else (if Recipient(cs[k]) then [(k, cs[k].numEntropiesAccepted)] else []) + SentContexts(cs, k + 1)
  }

  /**
   * The broadcast loop of `send_server_step_entropies`, from the last slot down: each
   * recipient's context is prepended and its accepted count reset.
   */
  method BroadcastAccepted<E>(clients: seq<Client<E>>) returns (cs: seq<Client<E>>, contexts: seq<(nat, uint8)>)
    ensures |cs| == |clients| && forall k | 0 <= k < |cs| :: cs[k] == AfterBroadcast(clients[k])
    ensures contexts == SentContexts(clients, 0)
  {
    contexts := [];
    var k := |clients|;
    cs := clients;
    while k > 0
      invariant 0 <= k <= |cs| == |clients|
      invariant contexts == SentContexts(clients, k)
      invariant forall j | 0 <= j < k :: cs[j] == clients[j]
      invariant forall j | k <= j < |cs| :: cs[j] == AfterBroadcast(clients[j])
      decreases k
    {
      k := k - 1;
      var c := cs[k];
      if Recipient(c) {
        contexts := [(k, c.numEntropiesAccepted)] + contexts;
        cs := cs[k := c.(numEntropiesAccepted := 0)];
      }
    }
  }

  /** Every recipient at or after slot `k` gets exactly one context carrying its count before the reset, and nobody else gets one. */
  lemma {:induction false} SentContextsAreRecipients<E>(cs: seq<Client<E>>, k: nat, j: nat, accepted: uint8)
    requires k <= |cs|
    ensures (j, accepted) in SentContexts(cs, k) <==>
              k <= j < |cs| && Recipient(cs[j]) && accepted == cs[j].numEntropiesAccepted
    ensures |SentContexts(cs, k)| <= |cs| - k
    decreases |cs| - k
  {
    if k < |cs| {
      SentContextsAreRecipients(cs, k + 1, j, accepted);
    }
  }

  // ---------------------------------------------------------------------------------------
  // Arena cycle

  function Range(n: nat): (r: seq<nat>)
    ensures |r| == n && forall i | 0 <= i < n :: r[i] == i
  {
    seq(n, i => i)
  }

  function Reverse<T>(s: seq<T>): (r: seq<T>)
    ensures |r| == |s| && forall i | 0 <= i < |s| :: r[i] == s[|s| - 1 - i]
  {
    seq(|s|, i requires 0 <= i < |s| => s[|s| - 1 - i])
  }

  /** `rebuild_indices` as written: the indices `0..n` are pushed onto the stack as it is, and the whole stack is reversed. */
  function RebuildIndicesAsWritten(stack: seq<nat>, n: nat): (r: seq<nat>)
    ensures |r| == |stack| + n
  {
    Reverse(stack + Range(n))
  }

  /**
   * As written, the rebuild puts the old BOTTOM of a non-empty stack on top, so that entry is
   * popped next without being checked against the list again.
   */
  lemma RebuildAsWrittenTopIsOldBottom(stack: seq<nat>, n: nat)
    requires stack != []
    ensures var r := RebuildIndicesAsWritten(stack, n); r[|r| - 1] == stack[0]
  {
    assert (stack + Range(n))[0] == stack[0];
  }

  /**
   * A stale index left on the stack when the arena list shrank survives the rebuild at the
   * back of the stack, so the next pop reads past the end of the list: stack [5], three entries.
   */
  lemma StaleIndexSurvivesRebuild()
    ensures RebuildIndicesAsWritten([5], 3) == [2, 1, 0, 5]
    ensures var r := RebuildIndicesAsWritten([5], 3); r[|r| - 1] >= 3
  {
    var r := RebuildIndicesAsWritten([5], 3);
    assert [5] + Range(3) == [5, 0, 1, 2];
    assert r == [2, 1, 0, 5];
  }

  /** The rebuild with the stack cleared first: every index of the list once, the first one on top. */
  function RebuiltIndices(n: nat): (r: seq<nat>)
    ensures |r| == n
    ensures forall i | 0 <= i < n :: r[i] < n
    ensures multiset(r) == multiset(Range(n))
    ensures n > 0 ==> r[n - 1] == 0
  {
    var r := Reverse(Range(n));
    ReverseKeepsMultiset(Range(n));
    r
  }

  /** Any rearrangement of the rebuilt stack holds `n` entries, and its top is a valid index. */
  lemma RearrangedIndicesInRange(n: nat, s: seq<nat>)
    requires n > 0 && multiset(s) == multiset(RebuiltIndices(n))
    ensures |s| == n && s[|s| - 1] < n
  {
    assert |multiset(s)| == n;
    var top := s[|s| - 1];
    assert top in multiset(s);
    assert top in RebuiltIndices(n);
  }

  /** The shuffle of `cycle_rng` only reorders the indices it is given. */
  ghost predicate Reorders(shuffle: seq<nat> -> seq<nat>) {
    forall s: seq<nat> :: multiset(shuffle(s)) == multiset(s)
  }

  /**
   * The stack `choose_next_from` rebuilds for a list of `n` arenas: the fixed rebuild,
   * shuffled when randomizing. It holds each index once and its top is inside the list.
   */
  function Refilled(n: nat, randomize: bool, shuffle: seq<nat> -> seq<nat>): (r: seq<nat>)
    requires n > 0 && Reorders(shuffle)
    ensures |r| == n && r[n - 1] < n
    ensures multiset(r) == multiset(Range(n))
  {
    var rebuilt := if randomize then shuffle(RebuiltIndices(n)) else RebuiltIndices(n);
    RearrangedIndicesInRange(n, rebuilt);
    rebuilt
  }

  /** The stack can be popped, and its top names one of the `n` arenas. */
  predicate TopInRange(stack: seq<nat>, n: nat) {
    stack != [] && stack[|stack| - 1] < n
  }

  /** The stack a try pops from: `refill` replaces a stack that is empty or whose top is outside the list. */
  function Replenished(stack: seq<nat>, n: nat, refill: seq<nat>): (r: seq<nat>)
    requires TopInRange(refill, n)
    ensures TopInRange(r, n)
    ensures TopInRange(stack, n) ==> r == stack
  {
    if TopInRange(stack, n) then stack else refill
  }

  /**
   * The indices `choose_next_from` tries with `left` tries remaining, and the stack it leaves:
   * each try pops the top of the stack, which is first replaced by `refill` when it is empty
   * or its top is outside the list, and the first arena that applies ends the search.
   */
  function TriedFrom(stack: seq<nat>, n: nat, refill: seq<nat>, tryApply: nat -> bool, left: nat): (r: (seq<nat>, seq<nat>))
    requires TopInRange(refill, n)
    decreases left
  {
    if left == 0 then ([], stack)
    else
      var s := Replenished(stack, n, refill);
      var next := s[|s| - 1];
      if tryApply(next) then ([next], s[..|s| - 1])
      else
        var rest := TriedFrom(s[..|s| - 1], n, refill, tryApply, left - 1);
        ([next] + rest.0, rest.1)
  }

  /**
   * `TriedFrom` takes at most `left` tries, each an index inside the list; every try but
   * the last failed, and the search stops early only on success.
   */
  lemma {:induction false} TriedIndicesInRange(stack: seq<nat>, n: nat, refill: seq<nat>, tryApply: nat -> bool, left: nat)
    requires TopInRange(refill, n)
    ensures |TriedFrom(stack, n, refill, tryApply, left).0| <= left
    ensures var r := TriedFrom(stack, n, refill, tryApply, left).0;
      |r| < left ==> r != [] && tryApply(r[|r| - 1])
    ensures forall k | 0 <= k < |TriedFrom(stack, n, refill, tryApply, left).0| ::
      TriedFrom(stack, n, refill, tryApply, left).0[k] < n
    ensures forall k | 0 <= k < |TriedFrom(stack, n, refill, tryApply, left).0| - 1 ::
      !tryApply(TriedFrom(stack, n, refill, tryApply, left).0[k])
    decreases left
  {
    if left > 0 {
      var s := Replenished(stack, n, refill);
      var next := s[|s| - 1];
      var r := TriedFrom(stack, n, refill, tryApply, left).0;
      if !tryApply(next) {
        var rest := TriedFrom(s[..|s| - 1], n, refill, tryApply, left - 1);
        TriedIndicesInRange(s[..|s| - 1], n, refill, tryApply, left - 1);
        assert r == [next] + rest.0;
        assert r[0] == next;
        forall k | 1 <= k < |r|
          ensures r[k] < n && (k < |r| - 1 ==> !tryApply(r[k]))
        {
          assert r[k] == rest.0[k - 1];
        }
      } else {
        assert r == [next];
      }
    }
  }

  /**
   * One try of `TriedFrom`, as the search loop takes it: after the indices `tried`, `top` is
   * popped from the replenished stack and tried; on success the search ends with the rest of
   * that stack, otherwise it goes on from there with one try fewer.
   */
  lemma TriedAfterStep(tried: seq<nat>, stack: seq<nat>, top: nat, rest: seq<nat>, n: nat, refill: seq<nat>,
                       tryApply: nat -> bool, left: nat, total: (seq<nat>, seq<nat>))
    requires TopInRange(refill, n) && left > 0
    requires var s := Replenished(stack, n, refill); top == s[|s| - 1] && rest == s[..|s| - 1]
    requires tried + TriedFrom(stack, n, refill, tryApply, left).0 == total.0
    requires TriedFrom(stack, n, refill, tryApply, left).1 == total.1
    ensures tryApply(top) ==> tried + [top] == total.0 && rest == total.1
    ensures !tryApply(top) ==>
      (tried + [top]) + TriedFrom(rest, n, refill, tryApply, left - 1).0 == total.0 &&
      TriedFrom(rest, n, refill, tryApply, left - 1).1 == total.1
  {
    if !tryApply(top) {
      var after := TriedFrom(rest, n, refill, tryApply, left - 1);
      assert TriedFrom(stack, n, refill, tryApply, left).0 == [top] + after.0;
      assert tried + ([top] + after.0) == (tried + [top]) + after.0;
    }
  }

  lemma {:induction false} ReverseKeepsMultiset<T>(s: seq<T>)
    ensures multiset(Reverse(s)) == multiset(s)
  {
    if s != [] {
      var last := s[|s| - 1];
      var init := s[..|s| - 1];
      ReverseKeepsMultiset(init);
      assert Reverse(s) == [last] + Reverse(init);
      assert s == init + [last];
    }
  }

  // ---------------------------------------------------------------------------------------
  // The server

  class Server<E> {
    var clients: seq<Client<E>>
    var serverTime: int
    var addedPlayer: Option<AddPlayerInput>
    var removedPlayer: Option<nat>
    var stepCollected: seq<(nat, E)>
    var ticksUntilSendingHash: uint32
    var ticksUntilSendingPackets: uint32
    var reinferenceNecessary: bool
    var shutdownScheduled: bool
    var checkForUpdatesOnce: bool
    var writeVarsToDiskOnce: bool
    var shuffledCycleIndices: seq<nat>

    /** A server with `numClients` empty slots; updates are checked and the settings written once at startup. */
    constructor (numClients: nat)
      ensures |clients| == numClients && forall k | 0 <= k < numClients :: clients[k] == UnsetClient()
      ensures addedPlayer.None? && removedPlayer.None? && stepCollected == []
      ensures !shutdownScheduled && checkForUpdatesOnce && writeVarsToDiskOnce && !reinferenceNecessary
      ensures ticksUntilSendingHash == 0 && ticksUntilSendingPackets == 0 && shuffledCycleIndices == []
    {
      clients := seq(numClients, _ => UnsetClient());
      serverTime := 0;
      addedPlayer, removedPlayer, stepCollected := None, None, [];
      ticksUntilSendingHash, ticksUntilSendingPackets := 0, 0;
      reinferenceNecessary, shutdownScheduled := false, false;
      checkForUpdatesOnce, writeVarsToDiskOnce := true, true;
      shuffledCycleIndices := [];
    }

    /** The part of the server one tick of client processing changes, with the tick's two flags. */
    function TickState(addedSomeone: bool, removedSomeone: bool): Tick<E>
      reads this
    {
      Tick(clients, addedPlayer, removedPlayer, stepCollected, addedSomeone, removedSomeone)
    }

    /** The fields client processing leaves alone. */
    function Rest(): (int, uint32, uint32, bool, bool, bool, bool, seq<nat>)
      reads this
    {
      (serverTime, ticksUntilSendingHash, ticksUntilSendingPackets, reinferenceNecessary,
       shutdownScheduled, checkForUpdatesOnce, writeVarsToDiskOnce, shuffledCycleIndices)
    }

    /** `kick`: returns whether the kick took effect (and the kick message went out). */
    method Kick(id: nat) returns (notified: bool)
      requires id < |clients|
      modifies this
      ensures clients == old(clients)[id := KickedClient(old(clients)[id], serverTime)]
      ensures notified <==> old(clients)[id].isSet && old(clients)[id].whenKicked.None?
      ensures addedPlayer == old(addedPlayer) && removedPlayer == old(removedPlayer) && stepCollected == old(stepCollected)
      ensures Rest() == old(Rest())
    {
      var c := clients[id];
      if !c.isSet {
        return false;
      }
      if c.whenKicked.Some? {
        return false;
      }
      clients := clients[id := c.(whenKicked := Some(serverTime))];
      return true;
    }

    /** `disconnect_and_unset`. */
    method DisconnectAndUnset(id: nat)
      requires id < |clients|
      modifies this
      ensures clients == old(clients)[id := UnsetClient()]
      ensures addedPlayer == old(addedPlayer) && removedPlayer == old(removedPlayer) && stepCollected == old(stepCollected)
      ensures Rest() == old(Rest())
    {
      clients := clients[id := UnsetClient()];
    }

    /** `accept_entropy_of_client`. */
    method AcceptEntropyOfClient(id: nat, entropy: E, ops: EntropyOps<E>)
      modifies this
      ensures stepCollected == Accepted(old(stepCollected), id, Some(entropy), ops)
      ensures clients == old(clients) && addedPlayer == old(addedPlayer) && removedPlayer == old(removedPlayer)
      ensures Rest() == old(Rest())
    {
      if !ops.isEmpty(entropy) {
        stepCollected := stepCollected + [(id, entropy)];
      }
    }

    /** `check_all_kick_conditions` for slot `id`. */
    method CheckAllKickConditions(id: nat, removedSomeone: bool, env: TickEnv)
      requires id < |clients| && env.now == serverTime
      modifies this
      ensures clients == old(clients)[id := CheckedClient(old(clients)[id], id, removedSomeone, env)]
      ensures addedPlayer == old(addedPlayer) && removedPlayer == old(removedPlayer) && stepCollected == old(stepCollected)
      ensures Rest() == old(Rest())
    {
      if !clients[id].isSet {
        return;
      }
      var c := clients[id];
      // Each condition below calls `kick`; kicking is idempotent (KickIsIdempotent), so one kick for all of them has the same effect.
      var kickReason := false;
      if id !in env.addedToMode {
        if !env.joinable {
          kickReason := true;
        }
        if id in env.wrongMatch {
          kickReason := true;
        }
      }
      if c.state == InGame && id in env.afk {
        kickReason := true;
      }
      if id in env.timedOut {
        kickReason := true;
      }
      if id in env.unauthenticated {
        kickReason := true;
      }
      if |c.pendingEntropies| > env.maxBufferedClientCommands {
        kickReason := true;
      }
      if kickReason {
        var notified := Kick(id);
      }
      if id in env.timedOut {
        clients := clients[id := clients[id].(kickNoLinger := true)];
      }
      if !removedSomeone && LingerOver(clients[id], env) {
        DisconnectAndUnset(id);
      }
    }

    /** `remove_from_game_if_kicked` for slot `id`; returns the new removal flag. */
    method RemoveFromGameIfKicked(id: nat, addedSomeone: bool, removedSomeone: bool, env: TickEnv) returns (removed: bool)
      requires id < |clients|
      modifies this
      ensures TickState(addedSomeone, removed) == RemovedIfKicked(old(TickState(addedSomeone, removedSomeone)), id, env)
      ensures Rest() == old(Rest())
    {
      removed := removedSomeone;
      if !removedSomeone && !clients[id].isSet && id in env.addedToMode {
        removed := true;
        removedPlayer := Some(id);
      }
    }

    /** `contribute_to_step_entropy` for slot `id`. */
    method ContributeToStepEntropy(id: nat, tickMs: nat, ops: EntropyOps<E>)
      requires id < |clients| && tickMs > 0
      modifies this
      ensures var (c, e) := Contributed(old(clients)[id], tickMs, ops);
        clients == old(clients)[id := c] && stepCollected == Accepted(old(stepCollected), id, e, ops)
      ensures addedPlayer == old(addedPlayer) && removedPlayer == old(removedPlayer)
      ensures Rest() == old(Rest())
    {
      var c := clients[id];
      var inputs := c.pendingEntropies;
      var numPending := |inputs|;
      if numPending > 0 {
        var shouldSquash := numPending >= SquashThreshold(c.jitter, tickMs);
        var entropy: E;
        var accepted: uint8;
        if shouldSquash {
          var numSquashed := Min(numPending, c.jitter.maxCommandsToSquashAtOnce);
          entropy := MergeOldest(inputs, numSquashed, ops);
          if numSquashed == numPending {
            inputs := [];
          } else {
            inputs := inputs[numSquashed..];
          }
          accepted := numSquashed;
        } else {
          entropy := inputs[0];
          inputs := inputs[1..];
          accepted := 1;
        }
        assert inputs == c.pendingEntropies[accepted..];
        assert Drain(c.pendingEntropies, c.jitter, tickMs, ops) == (accepted, entropy);
        clients := clients[id := c.(pendingEntropies := inputs, numEntropiesAccepted := accepted)];
        AcceptEntropyOfClient(id, entropy, ops);
      }
    }

    /** `process_client` for slot `id`; returns the new once-per-tick flags. */
    method ProcessClient(id: nat, addedSomeone: bool, removedSomeone: bool, env: TickEnv, ops: EntropyOps<E>)
      returns (added: bool, removed: bool)
      requires id < |clients| && env.now == serverTime && env.tickMs > 0
      modifies this
      ensures TickState(added, removed) == ProcessedClient(old(TickState(addedSomeone, removedSomeone)), id, env, ops)
      ensures Rest() == old(Rest())
    {
      ghost var t := TickState(addedSomeone, removedSomeone);
      added := addedSomeone;
      CheckAllKickConditions(id, removedSomeone, env);
      removed := RemoveFromGameIfKicked(id, addedSomeone, removedSomeone, env);
      if !clients[id].isSet {
        return;
      }
      ghost var t2 := TickState(added, removed);
      var c := clients[id];
      if !added && StateRank(c.state) > StateRank(PendingWelcome) && id !in env.addedToMode && id in env.authFulfilled {
        if c.nickname == [] {
          DisconnectAndUnset(id);
          return;
        }
        addedPlayer := Some(AddCommand(id, c.nickname, env));
        added := true;
        if c.state == WelcomeArrived {
          clients := clients[id := c.(state := ReceivingInitialSnapshot)];
        }
      }
      assert TickState(added, removed) == Admitted(t2, id, env);
      if clients[id].state == InGame {
        ContributeToStepEntropy(id, env.tickMs, ops);
      }
    }

    /**
     * `advance_clients_state`: every slot is processed in order, with at most one player
     * added and one removed in the whole tick.
     */
    method AdvanceClientsState(env: TickEnv, ops: EntropyOps<E>)
      requires env.now == serverTime && env.tickMs > 0
      modifies this
      ensures var r := ProcessedFrom(old(TickState(false, false)), 0, env, ops);
        clients == r.clients && addedPlayer == r.addedPlayer && removedPlayer == r.removedPlayer
        && stepCollected == r.stepCollected
      ensures Rest() == old(Rest())
    {
      var added, removed := false, false;
      ghost var total := ProcessedFrom(TickState(false, false), 0, env, ops);
      for id := 0 to |clients|
        invariant |clients| == |old(clients)|
        invariant ProcessedFrom(TickState(added, removed), id, env, ops) == total
        invariant Rest() == old(Rest())
      {
        added, removed := ProcessClient(id, added, removed, env, ops);
      }
    }

    /**
     * `send_server_step_entropies`' bookkeeping: the state hash goes out when the countdown is
     * at zero; every recipient is sent its accepted count, which is then reset.
     */
    method SendServerStepEntropies(hash: uint32, stateHashOnceEveryTick: uint32)
      returns (stateHash: Option<uint32>, reinference: bool, contexts: seq<(nat, uint8)>)
      modifies this
      ensures stateHash == (if old(ticksUntilSendingHash) == 0 then Some(hash) else None)
      ensures ticksUntilSendingHash == Countdown(old(ticksUntilSendingHash), stateHashOnceEveryTick).1
      ensures reinference == reinferenceNecessary == old(reinferenceNecessary)
      ensures |clients| == |old(clients)| && forall k | 0 <= k < |clients| :: clients[k] == AfterBroadcast(old(clients)[k])
      ensures contexts == SentContexts(old(clients), 0)
      ensures addedPlayer == old(addedPlayer) && removedPlayer == old(removedPlayer) && stepCollected == old(stepCollected)
      ensures serverTime == old(serverTime) && shuffledCycleIndices == old(shuffledCycleIndices)
      ensures ticksUntilSendingPackets == old(ticksUntilSendingPackets) && shutdownScheduled == old(shutdownScheduled)
      ensures checkForUpdatesOnce == old(checkForUpdatesOnce) && writeVarsToDiskOnce == old(writeVarsToDiskOnce)
    {
      reinference := reinferenceNecessary;
      var countdown := Countdown(ticksUntilSendingHash, stateHashOnceEveryTick);
      ticksUntilSendingHash := countdown.1;
      stateHash := if countdown.0 then Some(hash) else None;
      var cs;
      cs, contexts := BroadcastAccepted(clients);
      clients := cs;
    }

    /** `send_packets_if_its_time`: packets go out when the countdown is at zero. */
    method SendPacketsIfItsTime(sendPacketsOnceEveryTick: uint32) returns (sent: bool)
      modifies this
      ensures (sent, ticksUntilSendingPackets) == Countdown(old(ticksUntilSendingPackets), sendPacketsOnceEveryTick)
      ensures TickState(false, false) == old(TickState(false, false)) && ticksUntilSendingHash == old(ticksUntilSendingHash)
      ensures serverTime == old(serverTime) && reinferenceNecessary == old(reinferenceNecessary) && shutdownScheduled == old(shutdownScheduled)
      ensures checkForUpdatesOnce == old(checkForUpdatesOnce) && writeVarsToDiskOnce == old(writeVarsToDiskOnce)
      ensures shuffledCycleIndices == old(shuffledCycleIndices)
    {
      sent := ticksUntilSendingPackets == 0;
      if sent {
        ticksUntilSendingPackets := ToUint32(sendPacketsOnceEveryTick + UINT32_MAX);
      }
    }

    /** `reinfer_if_necessary_for`: reinfers when flagged or when the step adds a player; the flag is cleared either way. */
    method ReinferIfNecessaryFor(addsPlayer: bool) returns (reinferred: bool)
      modifies this
      ensures reinferred <==> old(reinferenceNecessary) || addsPlayer
      ensures !reinferenceNecessary
      ensures TickState(false, false) == old(TickState(false, false))
      ensures serverTime == old(serverTime) && ticksUntilSendingHash == old(ticksUntilSendingHash)
      ensures ticksUntilSendingPackets == old(ticksUntilSendingPackets) && shutdownScheduled == old(shutdownScheduled)
      ensures checkForUpdatesOnce == old(checkForUpdatesOnce) && writeVarsToDiskOnce == old(writeVarsToDiskOnce)
      ensures shuffledCycleIndices == old(shuffledCycleIndices)
    {
      reinferred := reinferenceNecessary || addsPlayer;
      if reinferred {
        reinferenceNecessary := false;
      }
    }

    /** `should_check_for_updates_once`: true on the first call only. */
    method ShouldCheckForUpdatesOnce() returns (r: bool)
      modifies this
      ensures r == old(checkForUpdatesOnce) && !checkForUpdatesOnce
      ensures TickState(false, false) == old(TickState(false, false)) && writeVarsToDiskOnce == old(writeVarsToDiskOnce)
      ensures serverTime == old(serverTime) && ticksUntilSendingHash == old(ticksUntilSendingHash)
      ensures ticksUntilSendingPackets == old(ticksUntilSendingPackets) && reinferenceNecessary == old(reinferenceNecessary)
      ensures shutdownScheduled == old(shutdownScheduled) && shuffledCycleIndices == old(shuffledCycleIndices)
    {
      r := checkForUpdatesOnce;
      if r {
        checkForUpdatesOnce := false;
      }
    }

    /** `should_write_vars_to_disk_once`: true on the first call only. */
    method ShouldWriteVarsToDiskOnce() returns (r: bool)
      modifies this
      ensures r == old(writeVarsToDiskOnce) && !writeVarsToDiskOnce
      ensures TickState(false, false) == old(TickState(false, false)) && checkForUpdatesOnce == old(checkForUpdatesOnce)
      ensures serverTime == old(serverTime) && ticksUntilSendingHash == old(ticksUntilSendingHash)
      ensures ticksUntilSendingPackets == old(ticksUntilSendingPackets) && reinferenceNecessary == old(reinferenceNecessary)
      ensures shutdownScheduled == old(shutdownScheduled) && shuffledCycleIndices == old(shuffledCycleIndices)
    {
      r := writeVarsToDiskOnce;
      if r {
        writeVarsToDiskOnce := false;
      }
    }

    /** `schedule_shutdown`: the shutdown message is broadcast by the first call only. */
    method ScheduleShutdown() returns (broadcast: bool)
      modifies this
      ensures shutdownScheduled && (broadcast <==> !old(shutdownScheduled))
      ensures TickState(false, false) == old(TickState(false, false))
      ensures serverTime == old(serverTime) && ticksUntilSendingHash == old(ticksUntilSendingHash)
      ensures ticksUntilSendingPackets == old(ticksUntilSendingPackets) && reinferenceNecessary == old(reinferenceNecessary)
      ensures checkForUpdatesOnce == old(checkForUpdatesOnce) && writeVarsToDiskOnce == old(writeVarsToDiskOnce)
      ensures shuffledCycleIndices == old(shuffledCycleIndices)
    {
      if shutdownScheduled {
        return false;
      }
      shutdownScheduled := true;
      return true;
    }

    /**
     * `choose_next_from` over a list of `n` arenas, with the index stack cleared before it is
     * rebuilt: tries at most `n` indices popped from the stack, rebuilding it when it is empty
     * or its top is out of range, and stops at the first arena that applies. `tried` lists
     * the indices tried, in order.
     */
    method ChooseNextFrom(n: nat, randomize: bool, shuffle: seq<nat> -> seq<nat>, tryApply: nat -> bool)
      returns (chosen: Option<nat>, tried: seq<nat>)
      requires Reorders(shuffle)
      modifies this
      ensures n == 0 ==> tried == [] && shuffledCycleIndices == old(shuffledCycleIndices)
      ensures n > 0 ==> (tried, shuffledCycleIndices)
                        == TriedFrom(old(shuffledCycleIndices), n, Refilled(n, randomize, shuffle), tryApply, n)
      ensures |tried| <= n && forall k | 0 <= k < |tried| :: tried[k] < n
      ensures forall k | 0 <= k < |tried| - 1 :: !tryApply(tried[k])
      ensures chosen.Some? <==> tried != [] && tryApply(tried[|tried| - 1])
      ensures chosen.Some? ==> chosen.value == tried[|tried| - 1]
      ensures chosen.None? ==> |tried| == n
      ensures TickState(false, false) == old(TickState(false, false))
      ensures serverTime == old(serverTime) && ticksUntilSendingHash == old(ticksUntilSendingHash)
      ensures ticksUntilSendingPackets == old(ticksUntilSendingPackets) && reinferenceNecessary == old(reinferenceNecessary)
      ensures shutdownScheduled == old(shutdownScheduled)
      ensures checkForUpdatesOnce == old(checkForUpdatesOnce) && writeVarsToDiskOnce == old(writeVarsToDiskOnce)
    {
      chosen, tried := None, [];
      if n == 0 {
        return;
      }
      var refill := Refilled(n, randomize, shuffle);
      TriedIndicesInRange(shuffledCycleIndices, n, refill, tryApply, n);
      var rest;
      chosen, tried, rest := TryInTurn(shuffledCycleIndices, n, refill, tryApply);
      shuffledCycleIndices := rest;
    }
  }

  /**
   * The search loop of `choose_next_from` over its index stack: at most `n` tries, each
   * popping the top of the stack after replacing it by `refill` when it is empty or its top
   * is out of range, ending at the first arena that applies.
   */
  method TryInTurn(stack: seq<nat>, n: nat, refill: seq<nat>, tryApply: nat -> bool)
    returns (chosen: Option<nat>, tried: seq<nat>, rest: seq<nat>)
    requires TopInRange(refill, n)
    ensures tried == TriedFrom(stack, n, refill, tryApply, n).0 && rest == TriedFrom(stack, n, refill, tryApply, n).1
    ensures chosen.Some? <==> tried != [] && tryApply(tried[|tried| - 1])
    ensures chosen.Some? ==> chosen.value == tried[|tried| - 1]
    ensures chosen.None? ==> |tried| == n
  {
    chosen, tried, rest := None, [], stack;
    ghost var total := TriedFrom(stack, n, refill, tryApply, n);
    ghost var left: nat := n;
    var tries := 0;
    while tries < n
      invariant 0 <= tries <= n && |tried| == tries && left == n - tries
      invariant chosen.None? && (tries > 0 ==> !tryApply(tried[tries - 1]))
      invariant tried + TriedFrom(rest, n, refill, tryApply, left).0 == total.0
      invariant TriedFrom(rest, n, refill, tryApply, left).1 == total.1
    {
      ghost var before := rest;
      var nextIndex;
      nextIndex, rest := PopReplenished(rest, n, refill);
      TriedAfterStep(tried, before, nextIndex, rest, n, refill, tryApply, left, total);
      tried := tried + [nextIndex];
      assert tried[tries] == nextIndex;
      if tryApply(nextIndex) {
        chosen := Some(nextIndex);
        return;
      }
      assert tried + TriedFrom(rest, n, refill, tryApply, left - 1).0 == total.0;
      tries, left := tries + 1, left - 1;
    }
    assert TriedFrom(rest, n, refill, tryApply, 0) == ([], rest);
    assert tried + [] == tried;
  }

  /** One pop of `choose_next_from`: the stack is rebuilt when it is empty or its top is out of range, then its top is taken. */
  method PopReplenished(stack: seq<nat>, n: nat, refill: seq<nat>) returns (top: nat, rest: seq<nat>)
    requires TopInRange(refill, n)
    ensures var s := Replenished(stack, n, refill); top == s[|s| - 1] && rest == s[..|s| - 1]
    ensures top < n
  {
    rest := stack;
    if |rest| == 0 || rest[|rest| - 1] >= n {
      rest := refill;
    }
    top := rest[|rest| - 1];
    rest := rest[..|rest| - 1];
  }

  /** The `+=` loop over the oldest `n` entropies. */
  method MergeOldest<E>(inputs: seq<E>, n: nat, ops: EntropyOps<E>) returns (entropy: E)
    requires n <= |inputs|
    ensures entropy == MergedAll(ops, inputs[..n])
  {
    entropy := ops.empty;
    for i := 0 to n
      invariant entropy == MergedAll(ops, inputs[..i])
    {
      assert inputs[..i + 1][..i] == inputs[..i];
      entropy := ops.merge(entropy, inputs[i]);
    }
  }
}
