/**
 * The match report sent to ranked webhooks (src/application/setups/server/ranked_webhooks.h),
 * as the sequence of events the JSON writer receives (RFC 8259, sections 4 and 5: objects
 * hold keyed members, arrays hold values). Character escaping and buffering are the writer
 * library's and are not part of this model.
 */
module RankedWebhooks {
  datatype Event =
    | StartObject
    | EndObject
    | StartArray
    | EndArray
    | Key(name: string)
    | Str(text: string)
    | Int(value: int)

  /** A JSON writer: it records what it is told, in order. */
  class Writer {
    var events: seq<Event>

    constructor ()
      ensures events == []
    {
      events := [];
    }

    method Emit(e: Event)
      modifies this
      ensures events == old(events) + [e]
    {
      events := events + [e];
    }
  }

  datatype FactionPlayer = FactionPlayer(id: nat, nickname: string)

  /** The part of `match_summary_message` the report reads. */
  datatype MatchSummary = MatchSummary(
    firstTeamScore: int,
    secondTeamScore: int,
    firstFaction: seq<FactionPlayer>,
    secondFaction: seq<FactionPlayer>)

  /** How the nesting depth changes across one event. */
  function Step(e: Event): int {
    match e
    case StartObject => 1
    case StartArray => 1
    case EndObject => -1
    case EndArray => -1
    case _ => 0
  }

  function Delta(events: seq<Event>): int {
    if events == [] then 0 else Step(events[0]) + Delta(events[1..])
  }

  /** The keys written at nesting depth `target`, scanning from depth `depth`. */
  function KeysAtDepth(events: seq<Event>, depth: int, target: int): seq<string> {
    if events == [] then []
    else (if events[0].Key? && depth == target then [events[0].name] else [])
         + KeysAtDepth(events[1..], depth + Step(events[0]), target)
  }

  /** The texts of the string values written at depth `target`. */
  function StringsAtDepth(events: seq<Event>, depth: int, target: int): seq<string> {
    if events == [] then []
    else (if events[0].Str? && depth == target then [events[0].text] else [])
         + StringsAtDepth(events[1..], depth + Step(events[0]), target)
  }

  /** One root value, every container closed, no close without an open. */
  predicate WellNested(events: seq<Event>, depth: int) {
    if events == [] then depth == 0
    else
      var d := depth + Step(events[0]);
      d >= 0 && (d == 0 ==> events[1..] == []) && WellNested(events[1..], d)
  }

  /** Scanning from `depth`, the depth stays at 1 or more throughout. */
  predicate StaysOpen(events: seq<Event>, depth: int) {
    if events == [] then depth >= 1
    else depth >= 1 && StaysOpen(events[1..], depth + Step(events[0]))
  }

  lemma {:induction false} DeltaConcat(a: seq<Event>, b: seq<Event>)
    ensures Delta(a + b) == Delta(a) + Delta(b)
  {
    if a == [] {
      assert a + b == b;
    } else {
      assert (a + b)[0] == a[0] && (a + b)[1..] == a[1..] + b;
      DeltaConcat(a[1..], b);
    }
  }

  lemma {:induction false} KeysConcat(a: seq<Event>, b: seq<Event>, depth: int, target: int)
    ensures KeysAtDepth(a + b, depth, target) == KeysAtDepth(a, depth, target) + KeysAtDepth(b, depth + Delta(a), target)
  {
    if a == [] {
      assert a + b == b;
    } else {
      var head := if a[0].Key? && depth == target then [a[0].name] else [];
      assert (a + b)[0] == a[0] && (a + b)[1..] == a[1..] + b;
      assert KeysAtDepth(a + b, depth, target) == head + KeysAtDepth(a[1..] + b, depth + Step(a[0]), target);
      KeysConcat(a[1..], b, depth + Step(a[0]), target);
    }
  }

  lemma {:induction false} StringsConcat(a: seq<Event>, b: seq<Event>, depth: int, target: int)
    ensures StringsAtDepth(a + b, depth, target) == StringsAtDepth(a, depth, target) + StringsAtDepth(b, depth + Delta(a), target)
  {
    if a == [] {
      assert a + b == b;
    } else {
      var head := if a[0].Str? && depth == target then [a[0].text] else [];
      assert (a + b)[0] == a[0] && (a + b)[1..] == a[1..] + b;
      assert StringsAtDepth(a + b, depth, target) == head + StringsAtDepth(a[1..] + b, depth + Step(a[0]), target);
      StringsConcat(a[1..], b, depth + Step(a[0]), target);
    }
  }

  lemma {:induction false} WellNestedConcat(a: seq<Event>, b: seq<Event>, depth: int)
    requires StaysOpen(a, depth) && WellNested(b, depth + Delta(a))
    ensures WellNested(a + b, depth)
  {
    if a == [] {
      assert a + b == b;
    } else {
      assert (a + b)[0] == a[0] && (a + b)[1..] == a[1..] + b;
      WellNestedConcat(a[1..], b, depth + Step(a[0]));
      assert StaysOpen(a[1..], depth + Step(a[0]));
      if a[1..] == [] {
        assert depth + Step(a[0]) >= 1;
      } else {
        assert depth + Step(a[0]) >= 1;
      }
    }
  }

  /** The ids the report uses for a faction's players. */
  function MappedIds(players: seq<FactionPlayer>, toAccountId: nat -> string): (r: seq<string>)
    ensures |r| == |players|
    ensures forall k | 0 <= k < |r| :: r[k] == toAccountId(players[k].id)
  {
    if players == [] then [] else [toAccountId(players[0].id)] + MappedIds(players[1..], toAccountId)
  }

  /** `write_faction`: a key and a nickname per player. */
  function NicknameMembers(players: seq<FactionPlayer>, toAccountId: nat -> string): seq<Event> {
    if players == [] then []
    else [Key(toAccountId(players[0].id)), Str(players[0].nickname)] + NicknameMembers(players[1..], toAccountId)
  }

  /** `write_faction_ids`: an array of the mapped ids. */
  function IdArray(players: seq<FactionPlayer>, toAccountId: nat -> string): seq<Event> {
    [StartArray] + IdStrings(players, toAccountId) + [EndArray]
  }

  function IdStrings(players: seq<FactionPlayer>, toAccountId: nat -> string): seq<Event> {
    if players == [] then [] else [Str(toAccountId(players[0].id))] + IdStrings(players[1..], toAccountId)
  }

  /** One member whose value is a scalar. */
  function Member(k: string, v: Event): seq<Event> { [Key(k), v] }

  /** The scalar members that open the report, up to the key of the nicknames object. */
  function Scalars(serverName: string, arena: string, gameMode: string, info: MatchSummary): seq<Event> {
    Member("server_name", Str(serverName))
    + Member("arena", Str(arena))
    + Member("game_mode", Str(gameMode))
    + Member("win_score", Int(info.firstTeamScore))
    + Member("lose_score", Int(info.secondTeamScore))
    + [Key("nicknames")]
  }


  /** The events `json_report_match` writes, in order. */
  function ReportEvents(serverName: string, arena: string, gameMode: string, info: MatchSummary, toAccountId: nat -> string): seq<Event> {
    [StartObject] + Scalars(serverName, arena, gameMode, info) + NicknamesObject(info, toAccountId) + PlayerArrays(info, toAccountId) + [EndObject]
  }

  /** `json_report_match`, writing into a fresh writer. */
  method JsonReportMatch(serverName: string, arena: string, gameMode: string, info: MatchSummary, toAccountId: nat -> string)
    returns (events: seq<Event>)
    ensures events == ReportEvents(serverName, arena, gameMode, info, toAccountId)
  {
    var writer := new Writer();
    writer.Emit(StartObject);
    WriteScalars(writer, serverName, arena, gameMode, info);
    WriteNicknamesObject(writer, info, toAccountId);
    WritePlayerArrays(writer, info, toAccountId);
    writer.Emit(EndObject);
    events := writer.events;
  }

  method WriteNicknamesObject(writer: Writer, info: MatchSummary, toAccountId: nat -> string)
    modifies writer
    ensures writer.events == old(writer.events) + NicknamesObject(info, toAccountId)
  {
    writer.Emit(StartObject);
    WriteFaction(writer, info.firstFaction, toAccountId);
    WriteFaction(writer, info.secondFaction, toAccountId);
    writer.Emit(EndObject);
  }

  method WritePlayerArrays(writer: Writer, info: MatchSummary, toAccountId: nat -> string)
    modifies writer
    ensures writer.events == old(writer.events) + PlayerArrays(info, toAccountId)
  {
    writer.Emit(Key("win_players"));
    WriteFactionIds(writer, info.firstFaction, toAccountId);
    writer.Emit(Key("lose_players"));
    WriteFactionIds(writer, info.secondFaction, toAccountId);
  }

  method WriteScalars(writer: Writer, serverName: string, arena: string, gameMode: string, info: MatchSummary)
    modifies writer
    ensures writer.events == old(writer.events) + Scalars(serverName, arena, gameMode, info)
  {
    writer.Emit(Key("server_name"));
    writer.Emit(Str(serverName));
    writer.Emit(Key("arena"));
    writer.Emit(Str(arena));
    writer.Emit(Key("game_mode"));
    writer.Emit(Str(gameMode));
    writer.Emit(Key("win_score"));
    writer.Emit(Int(info.firstTeamScore));
    writer.Emit(Key("lose_score"));
    writer.Emit(Int(info.secondTeamScore));
    writer.Emit(Key("nicknames"));
  }

  method WriteFaction(writer: Writer, players: seq<FactionPlayer>, toAccountId: nat -> string)
    modifies writer
    ensures writer.events == old(writer.events) + NicknameMembers(players, toAccountId)
  {
    var k := 0;
    while k < |players|
      invariant 0 <= k <= |players|
      invariant writer.events + NicknameMembers(players[k..], toAccountId) == old(writer.events) + NicknameMembers(players, toAccountId)
    {
      assert players[k..][1..] == players[k + 1..];
      writer.Emit(Key(toAccountId(players[k].id)));
      writer.Emit(Str(players[k].nickname));
      k := k + 1;
    }
  }

  method WriteFactionIds(writer: Writer, players: seq<FactionPlayer>, toAccountId: nat -> string)
    modifies writer
    ensures writer.events == old(writer.events) + IdArray(players, toAccountId)
  {
    writer.Emit(StartArray);
    var k := 0;
    while k < |players|
      invariant 0 <= k <= |players|
      invariant writer.events + IdStrings(players[k..], toAccountId) + [EndArray] == old(writer.events) + IdArray(players, toAccountId)
    {
      assert players[k..][1..] == players[k + 1..];
      writer.Emit(Str(toAccountId(players[k].id)));
      k := k + 1;
    }
    writer.Emit(EndArray);
  }

  /** One member `"key": "text"`. */
  lemma MemberShape(k: string, v: string, depth: int, target: int)
    requires depth >= 1
    ensures var pair := [Key(k), Str(v)];
      Delta(pair) == 0 && StaysOpen(pair, depth)
      && KeysAtDepth(pair, depth, target) == (if depth == target then [k] else [])
      && StringsAtDepth(pair, depth, target) == (if depth == target then [v] else [])
  {
    var pair := [Key(k), Str(v)];
    var tail := [Str(v)];
    assert pair[0] == Key(k) && pair[1..] == tail && tail[0] == Str(v) && tail[1..] == [];
    assert Delta(tail) == 0 && StaysOpen(tail, depth);
    assert KeysAtDepth(tail, depth, target) == [];
    assert StringsAtDepth(tail, depth, target) == (if depth == target then [v] else []);
  }

  /** Nickname members carry one key per player, the mapped id, and never change the depth. */
  lemma {:induction false} NicknameMembersDepth(players: seq<FactionPlayer>, toAccountId: nat -> string, depth: int)
    requires depth >= 1
    ensures Delta(NicknameMembers(players, toAccountId)) == 0
    ensures StaysOpen(NicknameMembers(players, toAccountId), depth)
  {
    if players != [] {
      var pair := [Key(toAccountId(players[0].id)), Str(players[0].nickname)];
      var rest := NicknameMembers(players[1..], toAccountId);
      NicknameMembersDepth(players[1..], toAccountId, depth);
      MemberShape(toAccountId(players[0].id), players[0].nickname, depth, 0);
      DeltaConcat(pair, rest);
      StaysOpenConcat(pair, rest, depth);
    }
  }

  lemma {:induction false} NicknameMembersKeys(players: seq<FactionPlayer>, toAccountId: nat -> string, depth: int, target: int)
    requires depth >= 1
    ensures KeysAtDepth(NicknameMembers(players, toAccountId), depth, target)
            == (if depth == target then MappedIds(players, toAccountId) else [])
  {
    if players != [] {
      var pair := [Key(toAccountId(players[0].id)), Str(players[0].nickname)];
      var rest := NicknameMembers(players[1..], toAccountId);
      NicknameMembersKeys(players[1..], toAccountId, depth, target);
      MemberShape(toAccountId(players[0].id), players[0].nickname, depth, target);
      KeysConcat(pair, rest, depth, target);
    }
  }

  lemma {:induction false} NicknameMembersStrings(players: seq<FactionPlayer>, toAccountId: nat -> string, depth: int, target: int)
    requires depth >= 1
    ensures StringsAtDepth(NicknameMembers(players, toAccountId), depth, target)
            == (if depth == target then Nicknames(players) else [])
  {
    if players != [] {
      var pair := [Key(toAccountId(players[0].id)), Str(players[0].nickname)];
      var rest := NicknameMembers(players[1..], toAccountId);
      NicknameMembersStrings(players[1..], toAccountId, depth, target);
      MemberShape(toAccountId(players[0].id), players[0].nickname, depth, target);
      StringsConcat(pair, rest, depth, target);
    }
  }

  function Nicknames(players: seq<FactionPlayer>): seq<string> {
    if players == [] then [] else [players[0].nickname] + Nicknames(players[1..])
  }

  lemma {:induction false} StaysOpenConcat(a: seq<Event>, b: seq<Event>, depth: int)
    requires StaysOpen(a, depth) && StaysOpen(b, depth + Delta(a))
    ensures StaysOpen(a + b, depth)
    decreases |a|
  {
    DeltaConcat(a, b);
    if a == [] {
      assert a + b == b;
    } else {
      assert (a + b)[1..] == a[1..] + b;
      StaysOpenConcat(a[1..], b, depth + Step(a[0]));
    }
  }

  /** An id array has no keys, its strings sit one level deeper, and it closes what it opens. */
  lemma {:induction false} IdStringsShape(players: seq<FactionPlayer>, toAccountId: nat -> string, depth: int, target: int)
    requires depth >= 1
    ensures var m := IdStrings(players, toAccountId);
      Delta(m) == 0 && StaysOpen(m, depth) && KeysAtDepth(m, depth, target) == []
      && StringsAtDepth(m, depth, target) == (if depth == target then MappedIds(players, toAccountId) else [])
  {
    if players != [] {
      var id := toAccountId(players[0].id);
      var rest := IdStrings(players[1..], toAccountId);
      var t := depth == target;
      IdStringsShape(players[1..], toAccountId, depth, target);
      StrPiece(id, depth, target);
      Combine([Str(id)], rest, depth, target, [], if t then [id] else [],
              [], if t then MappedIds(players[1..], toAccountId) else []);
      assert MappedIds(players, toAccountId) == [id] + MappedIds(players[1..], toAccountId);
    }
  }

  /** A lone string, as an element of an array. */
  lemma StrPiece(s: string, depth: int, target: int)
    requires depth >= 1
    ensures Piece([Str(s)], depth, target, [], if depth == target then [s] else [])
  {
    var one := [Str(s)];
    assert one[0] == Str(s) && one[1..] == [];
  }

  /**
   * A piece of the event stream that, scanned from `depth`, keeps its container open, ends
   * at the depth it started from, and writes exactly `keys` and `strs` at depth `target`.
   */
  predicate Piece(m: seq<Event>, depth: int, target: int, keys: seq<string>, strs: seq<string>) {
    Delta(m) == 0 && StaysOpen(m, depth) && KeysAtDepth(m, depth, target) == keys && StringsAtDepth(m, depth, target) == strs
  }

  /** A member with a scalar value: one key, no change of depth. */
  lemma ScalarMemberPiece(k: string, v: Event, depth: int, target: int)
    requires depth >= 1 && (v.Str? || v.Int?)
    ensures Piece(Member(k, v), depth, target, if depth == target then [k] else [], if depth == target && v.Str? then [v.text] else [])
  {
    var m := Member(k, v);
    var tail := [v];
    assert m[0] == Key(k) && m[1..] == tail && tail[0] == v && tail[1..] == [];
    assert Delta(tail) == 0 && StaysOpen(tail, depth);
    assert KeysAtDepth(tail, depth, target) == [];
    assert StringsAtDepth(tail, depth, target) == (if depth == target && v.Str? then [v.text] else []);
  }

  /** A lone key, opening a member whose value is a container. */
  lemma KeyPiece(k: string, depth: int, target: int)
    requires depth >= 1
    ensures Piece([Key(k)], depth, target, if depth == target then [k] else [], [])
  {
    var m := [Key(k)];
    assert m[0] == Key(k) && m[1..] == [];
  }

  /** Two pieces inside the same open container, one after the other. */
  lemma Combine(a: seq<Event>, b: seq<Event>, depth: int, target: int, ka: seq<string>, sa: seq<string>, kb: seq<string>, sb: seq<string>)
    requires depth >= 1 && Piece(a, depth, target, ka, sa) && Piece(b, depth, target, kb, sb)
    ensures Piece(a + b, depth, target, ka + kb, sa + sb)
  {
    DeltaConcat(a, b);
    StaysOpenConcat(a, b, depth);
    KeysConcat(a, b, depth, target);
    StringsConcat(a, b, depth, target);
  }

  /** A container opened inside an open container: what it holds sits one level deeper. */
  lemma Bracket(open: Event, inner: seq<Event>, close: Event, depth: int, target: int, keys: seq<string>, strs: seq<string>)
    requires depth >= 1 && (open == StartObject || open == StartArray) && (close == EndObject || close == EndArray)
    requires Piece(inner, depth + 1, target, keys, strs)
    ensures Piece([open] + inner + [close], depth, target, keys, strs)
  {
    var c := [close];
    assert c[0] == close && c[1..] == [];
    assert Delta(c[1..]) == 0 && StaysOpen(c[1..], depth);
    assert KeysAtDepth(c[1..], depth, target) == [] && StringsAtDepth(c[1..], depth, target) == [];
    assert Delta(c) == -1 && StaysOpen(c, depth + 1) && KeysAtDepth(c, depth + 1, target) == [] && StringsAtDepth(c, depth + 1, target) == [];
    DeltaConcat(inner, c);
    StaysOpenConcat(inner, c, depth + 1);
    KeysConcat(inner, c, depth + 1, target);
    StringsConcat(inner, c, depth + 1, target);
    var b := [open] + (inner + c);
    assert b[0] == open && b[1..] == inner + c;
    assert [open] + inner + [close] == b;
  }

  /** Two pieces side by side inside a container opened inside an open container. */
  lemma BracketPair(open: Event, a: seq<Event>, b: seq<Event>, close: Event, depth: int, target: int,
                    ka: seq<string>, sa: seq<string>, kb: seq<string>, sb: seq<string>)
    requires depth >= 1 && (open == StartObject || open == StartArray) && (close == EndObject || close == EndArray)
    requires Piece(a, depth + 1, target, ka, sa) && Piece(b, depth + 1, target, kb, sb)
    ensures Piece([open] + a + b + [close], depth, target, ka + kb, sa + sb)
  {
    Combine(a, b, depth + 1, target, ka, sa, kb, sb);
    Bracket(open, a + b, close, depth, target, ka + kb, sa + sb);
    assert [open] + a + b + [close] == [open] + (a + b) + [close];
  }

  /** The keys and strings the scalar members write at depth `target`. */
  function ScalarKeys(target: int): seq<string> {
    if target == 1 then ["server_name", "arena", "game_mode", "win_score", "lose_score", "nicknames"] else []
  }

  /** The three string members: server name, arena and game mode. */
  lemma NameMembersShape(serverName: string, arena: string, gameMode: string, target: int)
    ensures Piece(Member("server_name", Str(serverName)) + Member("arena", Str(arena)) + Member("game_mode", Str(gameMode)), 1, target,
                  if target == 1 then ["server_name", "arena", "game_mode"] else [],
                  if target == 1 then [serverName, arena, gameMode] else [])
  {
    var m1 := Member("server_name", Str(serverName));
    var m2 := Member("arena", Str(arena));
    var m3 := Member("game_mode", Str(gameMode));
    var t := target == 1;
    var k1, k2, k3 := if t then ["server_name"] else [], if t then ["arena"] else [], if t then ["game_mode"] else [];
    var s1, s2, s3 := if t then [serverName] else [], if t then [arena] else [], if t then [gameMode] else [];
    ScalarMemberPiece("server_name", Str(serverName), 1, target);
    ScalarMemberPiece("arena", Str(arena), 1, target);
    ScalarMemberPiece("game_mode", Str(gameMode), 1, target);
    Combine(m1, m2, 1, target, k1, s1, k2, s2);
    Combine(m1 + m2, m3, 1, target, k1 + k2, s1 + s2, k3, s3);
  }

  /** The two score members and the key of the nicknames object. */
  lemma ScoreMembersShape(info: MatchSummary, target: int)
    ensures Piece(Member("win_score", Int(info.firstTeamScore)) + Member("lose_score", Int(info.secondTeamScore)) + [Key("nicknames")], 1, target,
                  if target == 1 then ["win_score", "lose_score", "nicknames"] else [], [])
  {
    var m4 := Member("win_score", Int(info.firstTeamScore));
    var m5 := Member("lose_score", Int(info.secondTeamScore));
    var m6 := [Key("nicknames")];
    var t := target == 1;
    var k4, k5, k6 := if t then ["win_score"] else [], if t then ["lose_score"] else [], if t then ["nicknames"] else [];
    ScalarMemberPiece("win_score", Int(info.firstTeamScore), 1, target);
    ScalarMemberPiece("lose_score", Int(info.secondTeamScore), 1, target);
    KeyPiece("nicknames", 1, target);
    Combine(m4, m5, 1, target, k4, [], k5, []);
    Combine(m4 + m5, m6, 1, target, k4 + k5, [], k6, []);
  }

  lemma ScalarsShape(serverName: string, arena: string, gameMode: string, info: MatchSummary, target: int)
    ensures Piece(Scalars(serverName, arena, gameMode, info), 1, target,
                  ScalarKeys(target), if target == 1 then [serverName, arena, gameMode] else [])
  {
    var names := Member("server_name", Str(serverName)) + Member("arena", Str(arena)) + Member("game_mode", Str(gameMode));
    var scores := Member("win_score", Int(info.firstTeamScore)) + Member("lose_score", Int(info.secondTeamScore)) + [Key("nicknames")];
    var t := target == 1;
    NameMembersShape(serverName, arena, gameMode, target);
    ScoreMembersShape(info, target);
    Combine(names, scores, 1, target,
            if t then ["server_name", "arena", "game_mode"] else [], if t then [serverName, arena, gameMode] else [],
            if t then ["win_score", "lose_score", "nicknames"] else [], []);
    assert Scalars(serverName, arena, gameMode, info) == names + scores;
  }

  /** The nicknames object with its two factions' members. */
  function NicknamesObject(info: MatchSummary, toAccountId: nat -> string): seq<Event> {
    [StartObject] + NicknameMembers(info.firstFaction, toAccountId) + NicknameMembers(info.secondFaction, toAccountId) + [EndObject]
  }

  /** Everything after the key of the nicknames object, up to the final close. */
  function Body(info: MatchSummary, toAccountId: nat -> string): seq<Event> {
    NicknamesObject(info, toAccountId) + PlayerArrays(info, toAccountId)
  }

  /** The win_players and lose_players members. */
  function PlayerArrays(info: MatchSummary, toAccountId: nat -> string): seq<Event> {
    [Key("win_players")] + IdArray(info.firstFaction, toAccountId) + [Key("lose_players")] + IdArray(info.secondFaction, toAccountId)
  }

  /** One faction's nickname members inside the nicknames object. */
  lemma NicknameMembersShape(players: seq<FactionPlayer>, toAccountId: nat -> string, target: int)
    ensures Piece(NicknameMembers(players, toAccountId), 2, target,
                  if target == 2 then MappedIds(players, toAccountId) else [],
                  if target == 2 then Nicknames(players) else [])
  {
    NicknameMembersDepth(players, toAccountId, 2);
    NicknameMembersKeys(players, toAccountId, 2, target);
    NicknameMembersStrings(players, toAccountId, 2, target);
  }

  lemma NicknamesObjectShape(info: MatchSummary, toAccountId: nat -> string, target: int)
    ensures Piece(NicknamesObject(info, toAccountId), 1, target,
                  if target == 2 then MappedIds(info.firstFaction, toAccountId) + MappedIds(info.secondFaction, toAccountId) else [],
                  if target == 2 then Nicknames(info.firstFaction) + Nicknames(info.secondFaction) else [])
  {
    var n1 := NicknameMembers(info.firstFaction, toAccountId);
    var n2 := NicknameMembers(info.secondFaction, toAccountId);
    NicknameMembersShape(info.firstFaction, toAccountId, target);
    NicknameMembersShape(info.secondFaction, toAccountId, target);
    var t := target == 2;
    var k1, k2 := if t then MappedIds(info.firstFaction, toAccountId) else [], if t then MappedIds(info.secondFaction, toAccountId) else [];
    var s1, s2 := if t then Nicknames(info.firstFaction) else [], if t then Nicknames(info.secondFaction) else [];
    BracketPair(StartObject, n1, n2, EndObject, 1, target, k1, s1, k2, s2);
    assert NicknamesObject(info, toAccountId) == [StartObject] + n1 + n2 + [EndObject];
  }

  lemma IdArrayShape(players: seq<FactionPlayer>, toAccountId: nat -> string, target: int)
    ensures Piece(IdArray(players, toAccountId), 1, target, [], if target == 2 then MappedIds(players, toAccountId) else [])
  {
    IdStringsShape(players, toAccountId, 2, target);
    Bracket(StartArray, IdStrings(players, toAccountId), EndArray, 1, target, [], if target == 2 then MappedIds(players, toAccountId) else []);
  }

  lemma BodyShape(info: MatchSummary, toAccountId: nat -> string, target: int)
    ensures Piece(Body(info, toAccountId), 1, target,
                  if target == 1 then ["win_players", "lose_players"]
                  else if target == 2 then MappedIds(info.firstFaction, toAccountId) + MappedIds(info.secondFaction, toAccountId)
                  else [],
                  if target == 2
                  then Nicknames(info.firstFaction) + Nicknames(info.secondFaction)
                       + MappedIds(info.firstFaction, toAccountId) + MappedIds(info.secondFaction, toAccountId)
                  else [])
  {
    var t := target == 2;
    var ids1, ids2 := MappedIds(info.firstFaction, toAccountId), MappedIds(info.secondFaction, toAccountId);
    var obj := NicknamesObject(info, toAccountId);
    var kw, kl := [Key("win_players")], [Key("lose_players")];
    var a1, a2 := IdArray(info.firstFaction, toAccountId), IdArray(info.secondFaction, toAccountId);
    var kObj, sObj := if t then ids1 + ids2 else [], if t then Nicknames(info.firstFaction) + Nicknames(info.secondFaction) else [];
    var s1, s2 := if t then ids1 else [], if t then ids2 else [];
    var nw, nl := if target == 1 then ["win_players"] else [], if target == 1 then ["lose_players"] else [];
    assert Piece(obj, 1, target, kObj, sObj) by { NicknamesObjectShape(info, toAccountId, target); }
    assert Piece(a1, 1, target, [], s1) by { IdArrayShape(info.firstFaction, toAccountId, target); }
    assert Piece(a2, 1, target, [], s2) by { IdArrayShape(info.secondFaction, toAccountId, target); }
    assert Piece(kw, 1, target, nw, []) by { KeyPiece("win_players", 1, target); }
    assert Piece(kl, 1, target, nl, []) by { KeyPiece("lose_players", 1, target); }
    assert Piece(kw + a1, 1, target, nw, s1) by {
      Combine(kw, a1, 1, target, nw, [], [], s1);
      assert nw + [] == nw && [] + s1 == s1;
    }
    assert Piece(kw + a1 + kl, 1, target, nw + nl, s1) by {
      Combine(kw + a1, kl, 1, target, nw, s1, nl, []);
      assert s1 + [] == s1;
    }
    var pa := kw + a1 + kl + a2;
    assert Piece(pa, 1, target, nw + nl, s1 + s2) by {
      Combine(kw + a1 + kl, a2, 1, target, nw + nl, s1, [], s2);
      assert nw + nl + [] == nw + nl;
    }
    assert pa == PlayerArrays(info, toAccountId);
    Combine(obj, pa, 1, target, kObj, sObj, nw + nl, s1 + s2);
    assert kObj + (nw + nl) == (if target == 1 then ["win_players", "lose_players"] else if t then ids1 + ids2 else []);
    assert sObj + (s1 + s2) == (if t then Nicknames(info.firstFaction) + Nicknames(info.secondFaction) + ids1 + ids2 else []);
  }

  /**
   * The report is one well-nested JSON object. Its members, in order, are server_name, arena,
   * game_mode, win_score, lose_score, nicknames, win_players and lose_players. The nicknames
   * object has one key per player, first faction then second, without de-duplication. The
   * strings one level down are the nicknames and then the win and lose player ids.
   */
  lemma ReportShape(serverName: string, arena: string, gameMode: string, info: MatchSummary, toAccountId: nat -> string)
    ensures var r := ReportEvents(serverName, arena, gameMode, info, toAccountId);
      WellNested(r, 0)
      && KeysAtDepth(r, 0, 1) == ["server_name", "arena", "game_mode", "win_score", "lose_score", "nicknames", "win_players", "lose_players"]
      && KeysAtDepth(r, 0, 2) == MappedIds(info.firstFaction, toAccountId) + MappedIds(info.secondFaction, toAccountId)
      && StringsAtDepth(r, 0, 1) == [serverName, arena, gameMode]
      && StringsAtDepth(r, 0, 2) == Nicknames(info.firstFaction) + Nicknames(info.secondFaction)
                                    + MappedIds(info.firstFaction, toAccountId) + MappedIds(info.secondFaction, toAccountId)
  {
    ReportShapeAt(serverName, arena, gameMode, info, toAccountId, 1);
    ReportShapeAt(serverName, arena, gameMode, info, toAccountId, 2);
    ScalarsShape(serverName, arena, gameMode, info, 1);
    ScalarsShape(serverName, arena, gameMode, info, 2);
    BodyShape(info, toAccountId, 1);
    BodyShape(info, toAccountId, 2);
  }

  /** Scanning the whole report at a depth is scanning the scalar members and then the body, one level in. */
  lemma ReportShapeAt(serverName: string, arena: string, gameMode: string, info: MatchSummary, toAccountId: nat -> string, target: int)
    ensures var r := ReportEvents(serverName, arena, gameMode, info, toAccountId);
      var sc := Scalars(serverName, arena, gameMode, info);
      var body := Body(info, toAccountId);
      WellNested(r, 0)
      && KeysAtDepth(r, 0, target) == KeysAtDepth(sc, 1, target) + KeysAtDepth(body, 1, target)
      && StringsAtDepth(r, 0, target) == StringsAtDepth(sc, 1, target) + StringsAtDepth(body, 1, target)
  {
    var sc := Scalars(serverName, arena, gameMode, info);
    var body := Body(info, toAccountId);
    var middle := sc + body;
    var ks, ss := KeysAtDepth(sc, 1, target), StringsAtDepth(sc, 1, target);
    var kb, sb := KeysAtDepth(body, 1, target), StringsAtDepth(body, 1, target);
    assert Piece(middle, 1, target, ks + kb, ss + sb) by {
      ScalarsShape(serverName, arena, gameMode, info, target);
      BodyShape(info, toAccountId, target);
      Combine(sc, body, 1, target, ks, ss, kb, sb);
    }
    TopLevelObject(middle, target, ks + kb, ss + sb);
    assert ReportEvents(serverName, arena, gameMode, info, toAccountId) == [StartObject] + middle + [EndObject];
  }

  /** A piece at depth 1 wrapped in the outermost object: well nested from depth 0, with the same keys and strings. */
  lemma TopLevelObject(middle: seq<Event>, target: int, keys: seq<string>, strs: seq<string>)
    requires Piece(middle, 1, target, keys, strs)
    ensures var r := [StartObject] + middle + [EndObject];
      WellNested(r, 0) && KeysAtDepth(r, 0, target) == keys && StringsAtDepth(r, 0, target) == strs
  {
    var c := [EndObject];
    assert WellNested(middle + c, 1) by {
      assert c[0] == EndObject && c[1..] == [];
      assert WellNested(c, 1);
      WellNestedConcat(middle, c, 1);
    }
    assert KeysAtDepth(middle + c, 1, target) == keys && StringsAtDepth(middle + c, 1, target) == strs by {
      assert c[0] == EndObject && c[1..] == [];
      assert KeysAtDepth(c[1..], 0, target) == [] && StringsAtDepth(c[1..], 0, target) == [];
      assert KeysAtDepth(c, 1, target) == [] && StringsAtDepth(c, 1, target) == [];
      KeysConcat(middle, c, 1, target);
      StringsConcat(middle, c, 1, target);
    }
    var r := [StartObject] + middle + c;
    assert r == [StartObject] + (middle + c);
    assert r[0] == StartObject && r[1..] == middle + c;
  }

  /** The scores: win_score carries the first team's score and lose_score the second's. */
  lemma ReportScores(serverName: string, arena: string, gameMode: string, info: MatchSummary, toAccountId: nat -> string)
    ensures var r := ReportEvents(serverName, arena, gameMode, info, toAccountId);
      |r| > 10 && r[7] == Key("win_score") && r[8] == Int(info.firstTeamScore)
      && r[9] == Key("lose_score") && r[10] == Int(info.secondTeamScore)
  {
  }
}
