# A verified model of Hypersomnia's sequential cores

This project models, in Dafny, the small sequential cores of the Hypersomnia game and its
editor. Each core has its own module:

- **Game server** (`ServerSetup`, `ServerHelpers`, `Heartbeat`, from `server_setup.cpp`).
  - The per-tick client pipeline. Each client's jitter buffer of pending inputs ("entropies") is drained into the step, merging a backlog once it reaches the squash threshold. Clients are kicked for overflow, timeout, AFK, missing authentication or a closed match. A kicked client lingers before it is disconnected. At most one player is added and at most one removed per tick.
  - The broadcast of accepted counts and the state-hash countdown.
  - The one-shot flags, the shuffled arena cycle, the constant-time password comparison, the remote-console authorisation ladder, file-chunk arithmetic and heartbeat validation.
  - The server object is a class whose methods update its fields. Each method is proved against specification functions, and the properties of those functions are lemmas.
- **Server browser** (`BrowseServers`). The ranking of servers, private-network address classification (RFC 1918 section 3 and the loopback block of RFC 1122 section 3.2.1.3), the three-key column comparator, official-host matching, and the ping state machine under a per-frame packet budget.
- **Masterserver datagrams** (`NatPuncher`). The byte layouts of the punch, address and ping requests.
- **Command line** (`CmdLine`, with `Decimal` for `atoi` and decimal printing). The index-driven argument loop.
- **Determinism harness** (`DeterminismTest`). Stepping cloned worlds and detecting the first divergent one.
- **Editor** (`EditorPlayer`, `EditorFilesystem`). Playtest backup, restore, replay and seek; shift-click range selection; the special-resource folders.
- **Game modes** (`BombDefusal`, `ModeHelpers`, `ModeEntropyStructs`, `Factions`, `Inventory`). Round counts, faction swapping, half-time reset, spawn enumeration, dropped-item cleanup and inventory slot queries.
- **Value types and helpers** (`KeyAndMouseIntent`, `FieldAddress`, `IntrospectiveEqual`, `Pixel`, `Log`, `ImageLoadables`, `CallbackResults`, `RankedWebhooks`). Equalities, saturating colour addition, the bounded recent-log buffer, derived asset paths, visitor callbacks, and the match report's JSON event sequence (RFC 8259, sections 4 and 5).

Modelling conventions:

- Foreign code the cores call becomes parameters: the entropy merge, the game mode's lookups, world stepping and serialisation, shuffling, and `can_contain`.
- Fixed-width integers are subset types with explicit truncation where the source truncates.
- Times are whole seconds or milliseconds.

## Model

| member | source | states |
|---|---|---|
| KeyAndMouseIntent.IsSetIffNotCount | augs/misc/key_and_mouse_intent.cpp:4-6 | an intent is set exactly when it is not the COUNT sentinel |
| KeyAndMouseIntent.UsesMouseMotionExactly | augs/misc/key_and_mouse_intent.cpp:8-14 | exactly the three crosshair intents use mouse motion, and each of them is set |
| KeyAndMouseIntent.EqualIsValueEquality | augs/misc/key_and_mouse_intent.cpp:16-18 | comparing the (intent, mouse_rel, is_pressed) tuple is value equality of the binding |
| KeyAndMouseIntent.NotEqualIsNegation | augs/misc/key_and_mouse_intent.cpp:20-22 | `!=` holds exactly when the two bindings differ, the negation of `==` |
| Pixel.AddIsSaturating | augs/graphics/pixel.cpp:146-152 | every channel of a sum is min(255, sum of the two channels) and never below either operand |
| Pixel.AddCommutativeWithIdentity | augs/graphics/pixel.cpp:146-152 | colour addition is commutative and the all-zero colour is its identity |
| Pixel.EqualIsValueEquality | augs/graphics/pixel.cpp:158-164 | `==` compares all four channels, i.e. is value equality, and `!=` is its negation |
| ModeEntropyStructs.DefaultAddPlayerInput | src/game/modes/mode_commands/mode_entropy_structs.h:7-13 | a default input has faction SPECTATOR, a default migrate-from id and an unset id |
| ModeEntropyStructs.IsSetIffIdSet | src/game/modes/mode_commands/mode_entropy_structs.h:15-17 | an input is set exactly when its player id is set; the default input is unset |
| ModeEntropyStructs.EqualIgnoresMigrateFrom | src/game/modes/mode_commands/mode_entropy_structs.h:19-25 | changing migrate_from_id never changes the outcome of `==` |
| ModeEntropyStructs.EqualIffComparedFieldsAgree | src/game/modes/mode_commands/mode_entropy_structs.h:19-25 | `==` holds exactly when id, name and faction agree |
| ModeEntropyStructs.EqualIsEquivalence | src/game/modes/mode_commands/mode_entropy_structs.h:19-25 | `==` is reflexive, symmetric and transitive |
| FieldAddress.DefaultFieldAddress | src/application/setups/debugger/detail/field_address.h:108-113 | a default address has offset and element index equal to `static_cast<unsigned>(-1)` |
| FieldAddress.EqualAsWrittenRequires | src/application/setups/debugger/detail/field_address.h:115-117 | `==` as written requires equal offsets and type ids and is false whenever either element index is 0 |
| FieldAddress.EqualAsWrittenNotReflexive | src/application/setups/debugger/detail/field_address.h:115-121 | as written, an address with element index 0 is not equal to itself, and the as-written `!=` calls it different from itself |
| FieldAddress.EqualAsWrittenConflatesElements | src/application/setups/debugger/detail/field_address.h:115-117 | as written, addresses of two different elements of the same field compare equal |
| FieldAddress.EqualIsValueEquality | src/application/setups/debugger/detail/field_address.h:115-121 | the corrected `==` is value equality, hence reflexive, and the corrected `!=` is its negation. The source's `!=` negates the as-written `==` (`NotEqualAsWritten`) and is corrected with it |
| FieldAddress.MakeFieldAddress | src/application/setups/debugger/detail/field_address.h:163-170 | the address keeps the default element index and stores the offset truncated to 32 bits, which is the offset itself when it fits |
| IntrospectiveEqual.IntrospectiveEqual | src/augs/templates/introspection_utils/introspective_equal.h:46-59 | the accumulated flag is true exactly when every pair of corresponding fields is equal |
| IntrospectiveEqual.OptionalCases | src/augs/templates/introspection_utils/introspective_equal.h:18-31 | optionals of different presence are unequal, and two empty optionals are equal |
| IntrospectiveEqual.CompositeCases | src/augs/templates/introspection_utils/introspective_equal.h:18-43 | present optionals compare their contents; tuples and introspected structs compare field by field |
| IntrospectiveEqual.ReflexiveWhenEqIs | src/augs/templates/introspection_utils/introspective_equal.h:13-59 | if the user `==` is reflexive, structural equality is reflexive at every nesting depth |
| IntrospectiveEqual.SymmetricWhenEqIs | src/augs/templates/introspection_utils/introspective_equal.h:13-59 | if the user `==` is symmetric, structural equality is symmetric at every nesting depth |
| Log.GlobalLog.constructor | augs/log.cpp:20-21 | the buffer starts empty with a capacity of 40 entries |
| Log.GlobalLog.PushEntry | augs/log.cpp:34-39 | the entry is appended and, when that exceeds the capacity, the oldest one is erased; the newest entry is last and the length is min(old length + 1, capacity) |
| Log.GlobalLog.LogWhite | augs/log.cpp:41-54 | `LOG` pushes a WHITE entry with the text; the previous entries that survive are the last capacity − 1 ones |
| Log.GlobalLog.LogColor | augs/log.cpp:56-69 | `LOG_COLOR` pushes an entry with the given colour and text, under the same bound |
| Log.PushAllKeepsLastEntries | augs/log.cpp:34-39 | after any sequence of pushes the buffer holds exactly the last `max_entries` entries ever pushed, oldest first |
| ImageLoadables.ReplaceExtensionShape | src/view/viewables/regeneration/image_loadables_def.cpp:10-16 | replacing the extension keeps the path up to its old extension and ends with the new extension |
| ImageLoadables.NeonMapPathShape | src/view/viewables/regeneration/image_loadables_def.cpp:10-12 | the neon-map path is the generated-files directory, the source path without extension, then ".neon_map.png" |
| ImageLoadables.DesaturationPathShape | src/view/viewables/regeneration/image_loadables_def.cpp:14-16 | the desaturation path is built the same way with ".desaturation.png" |
| ImageLoadables.DerivedPathsDiffer | src/view/viewables/regeneration/image_loadables_def.cpp:10-16 | the two generated files of one source image never have the same path |
| ImageLoadables.MakeView | src/view/viewables/regeneration/image_loadables_def.cpp:24-35 | official images resolve under the official gfx directory, other images under the project directory |
| ImageLoadables.FindNeonMapPath | src/view/viewables/regeneration/image_loadables_def.cpp:37-46 | a custom neon-map path wins, otherwise the derived path when a neon map is requested; none exactly when neither is given |
| ImageLoadables.FindDesaturationPath | src/view/viewables/regeneration/image_loadables_def.cpp:48-54 | a path is present exactly when a desaturation is to be generated, and it is the derived one |
| ImageLoadables.RegenerateAllNeeded | src/view/viewables/regeneration/image_loadables_def.cpp:64-87 | fails exactly when both a neon map and a custom neon-map path are given; otherwise one regeneration per requested output, all from the resolved source image: the neon map first, into the neon-map path, and the desaturation last, into the desaturation path |
| ImageLoadables.DeleteRegeneratedFiles | src/view/viewables/regeneration/image_loadables_def.cpp:89-92 | both derived files are removed: the neon-map path first, then the desaturation path, two different paths |
| CallbackResults.VisitedUntilAbortStopsAtFirstAbort | src/game/modes/bomb_defusal.h:587-594 | a visit hands over a prefix of the elements, every one but the last answered CONTINUE, and it stops before the end only right after an ABORT |
| CallbackResults.VisitsAllWithoutAbort | src/game/modes/bomb_defusal.h:587-594 | when every callback answers CONTINUE, every element is visited |
| CallbackResults.VisitAfterContinues | src/game/modes/bomb_defusal.h:587-594 | after k elements that answered CONTINUE, the rest of the visit is the visit of the remaining elements |
| BombDefusal.NumRounds | src/game/modes/bomb_defusal.h:117-120 | the number of rounds is even, at least 2, and at most one less than `max_rounds` (exactly 2 below 2) |
| BombDefusal.DefaultNumRounds | src/game/modes/bomb_defusal.h:90 | the default ruleset plays 30 rounds |
| BombDefusal.FactionState.constructor | src/game/modes/bomb_defusal.h:123-129 | a faction starts with spawn index, score and loss streak 0 and no shuffled spawns |
| BombDefusal.FactionState.ClearForNextHalf | src/game/modes/bomb_defusal.h:131-135 | at half time the spawn index, loss streak and shuffled spawns reset while the score is kept |
| BombDefusal.GetAll | src/game/modes/bomb_defusal.h:268-272 | the participating factions are the bombing side then the defusing side |
| BombDefusal.ForEach | src/game/modes/bomb_defusal.h:258-262 | the callback runs once per participating faction, in the order of `get_all` |
| BombDefusal.Size | src/game/modes/bomb_defusal.h:264-266 | the size is the number of factions `get_all` lists |
| BombDefusal.Swapped | src/game/modes/bomb_defusal.h:274-284 | the bombing side becomes the defusing side, the defusing side becomes the bombing one, any other faction is left alone |
| BombDefusal.MakeSwapped | src/game/modes/bomb_defusal.h:274-284 | the in-out argument ends up as the swapped faction |
| BombDefusal.SwapIsInvolution | src/game/modes/bomb_defusal.h:274-284 | swapping twice gives the faction back, also when both sides are the same faction |
| BombDefusal.SwapPermutesParticipants | src/game/modes/bomb_defusal.h:274-284 | a faction participates iff its swap does, and a faction that does not participate is left unchanged |
| BombDefusal.ForEachPlayerId | src/game/modes/bomb_defusal.h:586-594 | player ids are visited in ascending order, up to and including the first that the callback aborts on |
| BombDefusal.PlayerHandle | src/game/modes/bomb_defusal.h:571-579 | a handle exists iff the id names a player whose controlled character is alive, and it is that character |
| BombDefusal.OnPlayerHandle | src/game/modes/bomb_defusal.h:570-579 | the callback runs exactly once: with the controlled character when the id is a player's, the player has a controlled character and that character is alive; with nullopt otherwise |
| Inventory.OwningTransferCapability | game/detail/entity/inventory_getters.cpp:11-28 | a dead entity has none; an entity with item-slot transfers is its own; otherwise the answer is found by climbing to the container of the item's slot, and any answer is a live entity with transfers |
| Inventory.OwningTransferCapabilityClimbs | game/detail/entity/inventory_getters.cpp:22-27 | for an item without transfers inside a live slot, the answer is that of the slot's container |
| Inventory.FirstFreeHand | game/detail/entity/inventory_getters.cpp:30-45 | the primary hand when it is empty, else the secondary hand when it is empty; none exactly when neither hand is empty, and an answer is always an empty slot |
| Inventory.HandHolsteringSlotIn | game/detail/entity/inventory_getters.cpp:47-76 | the shoulder slot when it takes the item; when the shoulder slot refuses it, the item deposit of the first item on the shoulder exactly when there is one that is live and takes the item, nothing otherwise; without a shoulder slot, the torso armor slot exactly when it is live and takes the item; any answer is a live slot that can contain the item |
| Inventory.PickupTargetSlotIn | game/detail/entity/inventory_getters.cpp:78-97 | the holstering slot first, then the primary hand, then the secondary hand; any answer can contain the item |
| Inventory.MapPrimaryActionToSecondaryHandIfPrimaryEmpty | game/detail/entity/inventory_getters.cpp:99-110 | with an empty primary hand the secondary hand acts; otherwise the action's own hand acts |
| Inventory.WieldedGun | game/detail/entity/inventory_getters.cpp:117-126 | a hand yields one gun exactly when its first item is a live entity with a gun component, and that gun is the first item |
| Inventory.GunsWielded | game/detail/entity/inventory_getters.cpp:112-141 | the primary hand's gun, if it holds one, followed by the secondary hand's, if it holds one, and nothing else; each is a live entity with a gun component |
| Inventory.VisitEachConcat | game/detail/entity/inventory_getters.cpp:143-158 | visiting two item lists one after the other is visiting their concatenation, so the per-slot loops compose |
| Inventory.VisitEachIncludesEveryItem | game/detail/entity/inventory_getters.cpp:143-158 | every directly contained item is handed to the callback, and the first one comes first |
| Inventory.VisitEachIsPreOrder | game/detail/entity/inventory_getters.cpp:151-154 | each item is followed at once by its own nested contents |
| ModeHelpers.ForEachFaction | src/game/modes/mode_helpers.h:10-15 | the playing factions are METROPOLIS, ATLANTIS and RESISTANCE, in that order |
| ModeHelpers.ForEachFactionEnumeratesActualFactions | src/game/modes/mode_helpers.h:10-15 | every faction but SPECTATOR is enumerated, each exactly once |
| ModeHelpers.FactionSpawns | src/game/modes/mode_helpers.h:102-117 | a faction's spawns are drawn from the markers, never more of them than markers |
| ModeHelpers.FactionSpawnsAreExactlyMatchingMarkers | src/game/modes/mode_helpers.h:102-117 | a marker's id is among a faction's spawns iff the marker is a TEAM_SPAWN of that faction |
| ModeHelpers.FactionSpawnsConcat | src/game/modes/mode_helpers.h:102-117 | filtering two marker lists one after the other is filtering their concatenation |
| ModeHelpers.ForEachFactionSpawn | src/game/modes/mode_helpers.h:102-117 | the callback sees the faction's TEAM_SPAWN markers in iteration order, up to and including the first ABORT |
| ModeHelpers.GetNumFactionSpawns | src/game/modes/mode_helpers.h:119-123 | the count is the number of the faction's TEAM_SPAWN markers |
| ModeHelpers.FindFactionSpawn | src/game/modes/mode_helpers.h:125-139 | the k-th spawn of the faction (0-based, iteration order), or a dead handle when k is at least their count |
| ModeHelpers.CalcSpawnableFactions | src/game/modes/mode_helpers.h:17-28 | a playing faction is spawnable iff it has at least one team spawn |
| ModeHelpers.DroppedItemsQueueConcat | src/game/modes/mode_helpers.h:57-72 | the deletion queue of two item lists is the concatenation of their queues |
| ModeHelpers.DroppedItemsAreQueued | src/game/modes/mode_helpers.h:57-72 | every item lying in no live slot is queued for deletion |
| ModeHelpers.EveryDroppedItemQueued | src/game/modes/mode_helpers.h:57-72 | when the item order is the cosmos's iteration over its item entities, every dropped item of the cosmos is queued |
| ModeHelpers.QueueDroppedItems | src/game/modes/mode_helpers.h:57-73 | the first pass queues exactly the deletion queue: each dropped item, then its recursive contents |
| ModeHelpers.DeleteQueued | src/game/modes/mode_helpers.h:75-79 | the second pass removes exactly the queued entities, leaves every other entity unchanged and deletes none twice |
| ModeHelpers.RemoveTestDroppedItems | src/game/modes/mode_helpers.h:57-80 | exactly the queued entities disappear, every other entity is unchanged, and no entity is deleted twice. Over the cosmos's own item iteration, no dropped item survives |
| RankedWebhooks.MappedIds | src/application/setups/server/ranked_webhooks.h:41-57 | one account id per player, in faction order, each the mapping of that player's mode id |
| RankedWebhooks.WriteScalars | src/application/setups/server/ranked_webhooks.h:17-34 | after the object has been opened, the writer receives the three string members, the two score members and the key "nicknames"; the opening itself is written by `JsonReportMatch` |
| RankedWebhooks.WriteFaction | src/application/setups/server/ranked_webhooks.h:39-45 | the writer receives a key (the mapped id) and a string (the nickname) per player, in order |
| RankedWebhooks.WriteNicknamesObject | src/application/setups/server/ranked_webhooks.h:36-51 | the nicknames object holds the first faction's members, then the second's |
| RankedWebhooks.WriteFactionIds | src/application/setups/server/ranked_webhooks.h:53-62 | an array holding the mapped id of each player, in order |
| RankedWebhooks.WritePlayerArrays | src/application/setups/server/ranked_webhooks.h:64-68 | win_players is the first faction's id array, lose_players the second's |
| RankedWebhooks.JsonReportMatch | src/application/setups/server/ranked_webhooks.h:4-73 | a fresh writer ends up holding exactly the report's event sequence |
| RankedWebhooks.NicknameMembersKeys | src/application/setups/server/ranked_webhooks.h:39-45 | the nickname members contribute exactly the mapped ids as keys, one per player, without de-duplication |
| RankedWebhooks.IdStringsShape | src/application/setups/server/ranked_webhooks.h:53-62 | an id array writes no keys, its strings sit one level deeper, and it closes what it opens |
| RankedWebhooks.ReportShape | src/application/setups/server/ranked_webhooks.h:17-70 | the report is one well-nested object whose keys are server_name, arena, game_mode, win_score, lose_score, nicknames, win_players, lose_players in that order; its inner keys are the players' mapped ids, first faction then second; its inner strings are the nicknames, then the win and lose ids |
| RankedWebhooks.ReportScores | src/application/setups/server/ranked_webhooks.h:28-32 | win_score carries the first team's score and lose_score the second's |
| EditorFilesystem.SetIds | src/application/setups/editor/gui/editor_filesystem_gui.cpp:225-227 | only set ids are added, each one taken from the visited stretch of the tree |
| EditorFilesystem.RangeInside | src/application/setups/editor/gui/editor_filesystem_gui.cpp:214-228 | once one endpoint is met, every set id up to and including the next endpoint is added |
| EditorFilesystem.RangeToEnd | src/application/setups/editor/gui/editor_filesystem_gui.cpp:214-228 | once one endpoint is met and no second follows, every set id to the end of the tree is added |
| EditorFilesystem.RangeBetweenEndpoints | src/application/setups/editor/gui/editor_filesystem_gui.cpp:214-228 | with both endpoints in the tree, exactly the set ids from the first endpoint met through the second, inclusive, are added, and nothing after |
| EditorFilesystem.RangeFromSingleEndpoint | src/application/setups/editor/gui/editor_filesystem_gui.cpp:214-228 | with one endpoint in the tree, the set ids from it to the end are added |
| EditorFilesystem.RangeWithoutEndpoints | src/application/setups/editor/gui/editor_filesystem_gui.cpp:214-228 | with neither endpoint in the tree, nothing is added |
| EditorFilesystem.CollectRange | src/application/setups/editor/gui/editor_filesystem_gui.cpp:210-230 | the loop with its endpoint counter adds what the range definition says |
| EditorFilesystem.Inspect | src/application/setups/editor/gui/editor_filesystem_gui.cpp:226 | one inspector entry per added resource, in order |
| EditorFilesystem.EditorSetup.constructor | src/application/setups/editor/gui/editor_filesystem_gui.cpp:202-209 | nothing is inspected at first |
| EditorFilesystem.EditorSetup.ResourcePressed | src/application/setups/editor/gui/editor_filesystem_gui.cpp:201-239 | a press on a missing resource changes nothing. Without shift, or in multi-selection, the clicked resource is inspected. A shift-click with a different inspected resource as anchor clears the inspector, fills it with the range and leaves the anchor as last inspected; any other shift-click changes nothing |
| EditorFilesystem.CountLabel | src/application/setups/editor/gui/editor_filesystem_gui.cpp:367 | the label is the pool's size in parentheses |
| EditorFilesystem.SpecialRoot.constructor | src/application/setups/editor/gui/editor_filesystem_gui.cpp:294-297 | a root starts without folders or files and is sorted |
| EditorFilesystem.SpecialRoot.SetupSpecialFilesystem | src/application/setups/editor/gui/editor_filesystem_gui.cpp:294-332 | the root ends with exactly ten empty FOLDER subfolders with their fixed names in fixed order, no files, and sorting off |
| EditorFilesystem.SpecialRoot.HandleFolder | src/application/setups/editor/gui/editor_filesystem_gui.cpp:363-445 | only the handled folder changes: it gets its pool's count as label and one file per pool element |
| EditorFilesystem.SpecialRoot.RebuildSpecialFilesystem | src/application/setups/editor/gui/editor_filesystem_gui.cpp:342-463 | the folders become the rebuilt folders; the root's own files and sorting are unchanged |
| EditorFilesystem.RebuiltFolders | src/application/setups/editor/gui/editor_filesystem_gui.cpp:447-460 | a rebuild keeps the ten folders |
| EditorFilesystem.RebuildRefillsEachFolder | src/application/setups/editor/gui/editor_filesystem_gui.cpp:447-460 | Prefabs is left alone, every folder keeps its name and type, and each of the other nine is refilled from its own pool |
| EditorFilesystem.MakePoolFiles | src/application/setups/editor/gui/editor_filesystem_gui.cpp:369-381 | the files built one pool element at a time are the pool's files |
| EditorFilesystem.PoolFiles | src/application/setups/editor/gui/editor_filesystem_gui.cpp:372-381 | one OTHER_RESOURCE node per pool element, in pool order, naming that element with the folder's type and officialness |
| NatPuncher.MemoryStream.constructor | src/application/masterserver/nat_puncher_commands.h:9-12 | a stream over a fresh buffer of the given capacity, with nothing written |
| NatPuncher.MemoryStream.WriteBytes | src/application/masterserver/nat_puncher_commands.h:37-38 | writing appends the bytes at the write position, which advances by their number |
| NatPuncher.LittleEndian | src/application/masterserver/nat_puncher_commands.h:38 | a value's raw bytes have exactly the width of its type |
| NatPuncher.LittleEndianRoundTrip | src/application/masterserver/nat_puncher_commands.h:38 | a value that fits the width reads back from its raw bytes |
| NatPuncher.TellMeMyAddress | src/application/masterserver/nat_puncher_commands.h:23-29 | the datagram is exactly one byte, the TELL_ME_MY_ADDRESS command |
| NatPuncher.PingThisServer | src/application/masterserver/nat_puncher_commands.h:31-45 | the datagram is 1 + 8 bytes, the ping request byte and then the raw sequence, and the receiver reads the same sequence back; only the written bytes are sent, not the whole buffer |
| NatPuncher.PunchThisServer | src/application/masterserver/nat_puncher_commands.h:8-21 | the datagram is the PUNCH_THIS_SERVER byte followed by the raw address, one byte plus the address size, and the relay reads the same address back |
| CmdLine.IsCliTool | src/cmd_line_params.h:193-195 | true iff the application type is MASTERSERVER or DEDICATED_SERVER |
| CmdLine.CommandLineHoldsArguments | src/cmd_line_params.h:56-65 | the recorded command line holds each argument at its own offset, after one space, starting with the executable path |
| CmdLine.RecordCommandLine | src/cmd_line_params.h:56-65 | the first loop records the space-joined arguments and the numbered `i=argument ` entries |
| CmdLine.GetNext | src/cmd_line_params.h:68-74 | the following argument and the advanced index, or "" and the same index when none remains |
| CmdLine.Apply | src/cmd_line_params.h:78-189 | no branch touches the recorded command line or the record of how it was parsed |
| CmdLine.KeepCwdForcedByTestFlags | src/cmd_line_params.h:82-142 | the working directory is kept exactly when it already was or the flag is `--keep-cwd`, `--unit-tests-only` or `--test-fp-consistency` |
| CmdLine.AppimagePathOverridesExePath | src/cmd_line_params.h:85-88 | only `--appimage-path` changes the executable path, to its value |
| CmdLine.AppTypeSetByTypeFlags | src/cmd_line_params.h:111-138 | only the two type flags change the application type, each to its own, so the last one wins |
| CmdLine.Step | src/cmd_line_params.h:60-190 | one pass consumes at most the argument that follows |
| CmdLine.Parse | src/cmd_line_params.h:55-191 | the parameters are the defaults with the recorded command line, then each argument's branch applied in turn |
| CmdLine.ParseArguments | src/cmd_line_params.h:67-190 | the second loop applies each argument's branch in turn, from the one after the executable path, and leaves the recorded command line alone |
| CmdLine.UnrecognisedExactlyOutsideFlags | src/cmd_line_params.h:78-189 | an argument is ignored exactly when it starts with "-psn" or names no flag |
| CmdLine.DoubleDashIsNoMacProcessId | src/cmd_line_params.h:78-81 | no "--" flag can be mistaken for a macOS process identifier |
| CmdLine.ClassifyConnect | src/cmd_line_params.h:168-171 | "--connect" reaches its own branch |
| CmdLine.ClassifyServerPort | src/cmd_line_params.h:118-120 | "--server-port" reaches its own branch |
| CmdLine.ClassifyDelayedAutoupdate | src/cmd_line_params.h:114-117 | "--delayed-autoupdate" reaches its own branch |
| CmdLine.ClassifyAppimagePath | src/cmd_line_params.h:85-88 | "--appimage-path" reaches its own branch |
| CmdLine.ClassifyDedicatedServer | src/cmd_line_params.h:111-113 | "--dedicated-server" reaches its own branch |
| CmdLine.ClassifyMasterserver | src/cmd_line_params.h:136-138 | "--masterserver" reaches its own branch |
| CmdLine.ClassifyKeepCwd | src/cmd_line_params.h:82-84 | "--keep-cwd" reaches its own branch |
| CmdLine.ClassifyUnitTestsOnly | src/cmd_line_params.h:89-92 | "--unit-tests-only" reaches its own branch |
| CmdLine.ClassifyTestFpConsistency | src/cmd_line_params.h:139-142 | "--test-fp-consistency" reaches its own branch |
| CmdLine.ClassifiedTypeFlagIsTypeFlag | src/cmd_line_params.h:111-138 | only the argument "--dedicated-server" reaches the dedicated-server branch, and only "--masterserver" the masterserver branch |
| CmdLine.StepConsumption | src/cmd_line_params.h:68-74 | a pass consumes the following argument iff its flag takes a value and an argument is left |
| CmdLine.IgnoredArgumentChangesNothing | src/cmd_line_params.h:78-189 | a "-psn" argument or an unrecognised one changes no field and consumes nothing |
| CmdLine.ConnectTakesAddress | src/cmd_line_params.h:168-171 | `--connect` asks to connect and takes the following argument as the address, changing nothing else |
| CmdLine.ServerPortTakesPort | src/cmd_line_params.h:118-120 | `--server-port` takes the following argument, read by atoi and cut to 16 bits, as the port |
| CmdLine.DelayedAutoupdateTakesDelay | src/cmd_line_params.h:114-117 | `--delayed-autoupdate` turns daily updates on and takes atoi of the following argument as the delay |
| CmdLine.StepKeepsAppType | src/cmd_line_params.h:78-189 | a pass over an argument that is neither type flag leaves the application type alone |
| CmdLine.NoTypeFlagKeepsAppType | src/cmd_line_params.h:60-190 | without a type flag among the arguments the application type is left as it was |
| Decimal.DecimalString | src/application/setups/editor/gui/editor_filesystem_gui.cpp:367 | a count is printed as at least one decimal digit |
| Decimal.DecimalRoundTrip | src/application/setups/editor/gui/editor_filesystem_gui.cpp:367 | the printed digits read back as the count |
| Decimal.LeadingDigits | src/cmd_line_params.h:116-119 | the run of digits `atoi` reads is the longest one at the start of the text |
| Decimal.SkipSpaces | src/cmd_line_params.h:116-119 | `atoi` starts reading at the first character that is not white space |
| Decimal.Atoi | src/cmd_line_params.h:116-119 | empty text, or text that starts with neither white space, a sign nor a digit, reads as 0 |
| Decimal.AtoiReadsDecimal | src/cmd_line_params.h:116-119 | `atoi` reads back every printed natural number |
| DeterminismTest.FirstDivergent | application/setups/determinism_test_setup.cpp:119-141 | the first world from a given index on whose serialized state differs from world 0's, or the world count when none does |
| DeterminismTest.Run | application/setups/determinism_test_setup.cpp:95-142 | a reported divergence names a world other than world 0, and it is the first divergent world of the final worlds |
| DeterminismTest.RunKeepsEqualWorlds | application/setups/determinism_test_setup.cpp:95-115 | worlds that start equal and whose test beds step alike stay equal through any steps and never diverge |
| DeterminismTest.DeterminismTestSetup.constructor | application/setups/determinism_test_setup.cpp:30-70 | one world plus the configured clones, all equal to world 0, with world 0 viewed and no divergence yet |
| DeterminismTest.DeterminismTestSetup.CycleViewedWorld | application/setups/determinism_test_setup.cpp:82-89 | F3 moves to the next world modulo the world count, so the index stays in range |
| DeterminismTest.DeterminismTestSetup.StepAllWorlds | application/setups/determinism_test_setup.cpp:99-115 | every world but the last is first overwritten with the next one and then stepped by test bed i, so world i ends as test bed i's step of old world i + 1, and the last world is its own test bed's step of itself: the array becomes `StepWorlds` of its old contents |
| DeterminismTest.DeterminismTestSetup.DetectDivergence | application/setups/determinism_test_setup.cpp:119-141 | divergence is found iff some world's serialized state differs from world 0's, and `which_divergent` is the smallest such world |
| DeterminismTest.DeterminismTestSetup.ProcessSteps | application/setups/determinism_test_setup.cpp:95-142 | starting without a divergence, the worlds, the verdict and the divergent world are exactly those of `Run`: each step steps every world and compares them, and stepping stops right after the first step with a divergence. Worlds that start equal and whose test beds all step alike stay equal and undivergent. A divergence known before the call leaves everything as it was |
| EditorPlayer.DiscardLaterRevisions | src/application/setups/debugger/editor_player.cpp:115 | the commands after the current revision are dropped, and the current revision becomes the last |
| EditorPlayer.ExecuteNew | src/application/setups/debugger/editor_player.cpp:131 | on the history, later revisions are dropped and the command becomes the new current and last revision. Its effect on the edited state is the `execute` step of `FinishTesting` |
| EditorPlayer.CarriedBack | src/application/setups/debugger/editor_player.cpp:121-136 | the commands carried back all happen at step 0 and none is playtest-specific |
| EditorPlayer.CarriedBackConcat | src/application/setups/debugger/editor_player.cpp:121-136 | carrying back two command lists in turn is carrying back their concatenation |
| EditorPlayer.Replay | src/application/setups/debugger/editor_player.cpp:121-136 | replaying keeps the history well-formed and its modified flag |
| EditorPlayer.ExecutedConcat | src/application/setups/debugger/editor_player.cpp:121-136 | executing two batches of commands is executing the first and then the second on its result |
| EditorPlayer.ExecutedStep | src/application/setups/debugger/editor_player.cpp:121-136 | one pass of the reapply loop on the state: the command, made redoable, is executed unless it is playtest-specific |
| EditorPlayer.ReplayAppends | src/application/setups/debugger/editor_player.cpp:121-136 | replaying onto a history at its last revision appends exactly the carried-back commands and stays at the last revision |
| EditorPlayer.SaveBeforeStart | src/application/setups/debugger/editor_player.cpp:50-66 | the current state becomes the backup and stays current as a copy; the history moves to the backup and the folder's history is emptied |
| EditorPlayer.RestoreSaved | src/application/setups/debugger/editor_player.cpp:68-81 | the backup becomes current, the backup is gone, the history comes back and the backup history is emptied |
| EditorPlayer.SaveThenRestoreIsIdentity | src/application/setups/debugger/editor_player.cpp:50-81 | saving and then restoring gives back the session as it was |
| EditorPlayer.EditorFolder.constructor | src/application/setups/debugger/editor_player.cpp:53-64 | a folder holds its edited state and its history |
| EditorPlayer.EditorPlayer.constructor | src/application/setups/debugger/editor_player.cpp:87-89 | a player starts with no backup, clean, paused, at step 0 |
| EditorPlayer.EditorPlayer.SaveStateBeforeStart | src/application/setups/debugger/editor_player.cpp:50-66 | requires that no playtest has started; folder and backup change as the save function says, and nothing else changes |
| EditorPlayer.EditorPlayer.RestoreSavedState | src/application/setups/debugger/editor_player.cpp:68-81 | requires a started playtest; folder and backup change as the restore function says, and nothing else changes |
| EditorPlayer.EditorPlayer.FinishTesting | src/application/setups/debugger/editor_player.cpp:91-141 | nothing at all happens unless a playtest started. Otherwise the backup is cleared, the player is clean and the restored history is marked modified. With DISCARD_CHANGES the state and history are the saved ones. With REAPPLY_CHANGES the history loses its later revisions and gains the playtest's commands up to its current revision, at step 0, without the playtest-specific ones, and the state is the saved state with each of those commands executed on it in order |
| EditorPlayer.EditorPlayer.TotalSteps | src/application/setups/debugger/editor_player.cpp:291-313 | the total is the larger of the recorded steps and the last command's step |
| EditorPlayer.EditorPlayer.SeekTo | src/application/setups/debugger/editor_player.cpp:230-256 | the target is clamped to the total steps when trimming; seeking to the current step changes nothing, not even the dirty flag; otherwise the player is dirty and at the target |
| EditorPlayer.EditorPlayer.SeekBackward | src/application/setups/debugger/editor_player.cpp:266-274 | the step goes back by the offset, stopping at 0, and never forward; the backup, pause flag and step counts stay |
| EditorPlayer.EditorPlayer.RequestSteps | src/application/setups/debugger/editor_player.cpp:315-320 | steps are requested, and the player marked dirty, only during a playtest; the backup, current step, pause flag and recorded steps stay |
| EditorPlayer.EditorPlayer.Pause | src/application/setups/debugger/editor_player.cpp:361-367 | the player ends paused and is marked dirty only when it was running; the backup, current step and step counts stay |
| Ints.ToUint16 | src/cmd_line_params.h:119 | storing an `int` in 16 bits keeps it when it fits and is congruent to it modulo 2^16 otherwise |
| Ints.ToUint32 | src/application/setups/debugger/detail/field_address.h:163-170 | a value that fits 32 bits is kept by the conversion, and any other value wraps around: the result is congruent to it modulo 2^32 |
| Heartbeat.WithoutPort | src/application/gui/browse_servers_gui.cpp:716-730 | the address with only its port cleared |
| Heartbeat.Validate | src/application/setups/server/server_setup.cpp:220-228 | an empty server name becomes "Hypersomnia Server" and an empty arena "NONE"; nothing else changes, and both end non-empty |
| Heartbeat.IsValid | src/application/setups/server/server_setup.cpp:230-236 | valid iff the name has only allowed characters, at least two players fit, and the name, arena and game mode are all set |
| Heartbeat.ValidatedIsValid | src/application/setups/server/server_setup.cpp:220-236 | after validation only the name's characters, the game mode and the player limit can make a heartbeat invalid |
| Heartbeat.ValidateIsIdempotent | src/application/setups/server/server_setup.cpp:220-228 | validating twice changes nothing more |
| BrowseServers.OrderCategory | src/application/gui/browse_servers_gui.cpp:45-94 | each of the seven documented classes gets its own band: local 0, non-empty public 1, non-empty NAT 2 to 5, empty public 10, empty NAT 101 to 104, full public 1000, full NAT 10000. A full server is in a full class whatever the local-network flag |
| BrowseServers.CategoriesFollowClasses | src/application/gui/browse_servers_gui.cpp:50-60 | a server in a better documented class always has a smaller category and ranks first, and a smaller category never belongs to a worse class |
| BrowseServers.CompareServersIsLexicographic | src/application/gui/browse_servers_gui.cpp:96-117 | a server ranks first iff it is ahead lexicographically: lower category, then lower ping, then hosted more recently |
| BrowseServers.CompareServersIsStrictOrder | src/application/gui/browse_servers_gui.cpp:96-117 | the ranking is irreflexive, asymmetric and transitive |
| BrowseServers.LocalServersFirst | src/application/gui/browse_servers_gui.cpp:62-76 | a non-full server found on the local network outranks every server that is full or was not found there |
| BrowseServers.FindBestServer | src/application/gui/browse_servers_gui.cpp:1158-1164 | none iff the list is empty; otherwise no entry outranks the chosen one, and it outranks every entry before it, so it is the first minimum |
| BrowseServers.IsInternal | src/application/gui/browse_servers_gui.cpp:371-398 | true exactly for IPv4 addresses in 127/8, 10/8, 172.16-31 and 192.168/16, never for IPv6 |
| BrowseServers.Private172Is12BitPrefix | src/application/gui/browse_servers_gui.cpp:383-387 | the 172 test accepts exactly the addresses of the 172.16.0.0/12 block |
| BrowseServers.DirectionOnlyFlipsPrimaryKey | src/application/gui/browse_servers_gui.cpp:867-887 | descending order reverses two entries exactly when the primary key tells them apart; on a tie the secondary and tertiary keys decide in their own sense |
| BrowseServers.FindResolvedOfficial | src/application/gui/browse_servers_gui.cpp:716-730 | the first official host whose address equals the server's with ports ignored, and none iff no host matches |
| BrowseServers.OfficialIgnoresPort | src/application/gui/browse_servers_gui.cpp:716-730 | whether a server is official does not depend on its port |
| BrowseServers.ConnectString | src/application/gui/browse_servers_gui.cpp:732-746 | empty for non-official servers; the bare host on the default game port; "host:port" otherwise |
| BrowseServers.ToServerList | src/application/gui/browse_servers_gui.cpp:144-189 | no response and an unsuccessful status each give an empty list and their message; the message stays untouched iff the body reads; any error leaves the list empty |
| BrowseServers.PingPackets | src/application/gui/browse_servers_gui.cpp:485-502 | a ping request sends to the public address and, when it is on a private network, to the internal one too, all with the same sequence |
| BrowseServers.VisitEntry | src/application/gui/browse_servers_gui.cpp:504-537 | a GIVEN_UP entry is left alone and sends nothing; no visit changes an entry's address or heartbeat |
| BrowseServers.AwaitingGivesUpAfterTimeout | src/application/gui/browse_servers_gui.cpp:504-520 | an awaiting entry is pinged iff 1 second has passed since its last ping, shown or not; a ping records the time and the sequence, and the first ping also records the time as the first-ping time. Otherwise only the state may change. It is given up iff 5 seconds have passed since its first ping, and a visit never measures it |
| BrowseServers.MeasuredRepingsOnlyWhenShown | src/application/gui/browse_servers_gui.cpp:522-537 | a measured entry stays measured and is re-pinged iff the browser is shown and 10 seconds have passed since its last ping; a re-ping records the time and the new sequence, and otherwise the entry is untouched |
| BrowseServers.PingFrom | src/application/gui/browse_servers_gui.cpp:476-538 | a frame keeps the list's length, never lowers the counter and leaves the entries before the start alone |
| BrowseServers.PingBudget | src/application/gui/browse_servers_gui.cpp:470-502 | a frame sends at most the 64-packet budget plus one, uses one sequence number per ping request, and raises the counter strictly whenever it sends |
| BrowseServers.Browser.constructor | src/application/gui/browse_servers_gui.cpp:487 | the browser starts with an empty list and a sequence counter of 0 |
| BrowseServers.Browser.SendPingsAndPunchRequests | src/application/gui/browse_servers_gui.cpp:463-539 | list, counter and packets sent are those of one frame of pinging from the first entry, with a 64-packet budget; the counter never decreases |
| BrowseServers.Browser.HandleGameserverResponse | src/application/gui/browse_servers_gui.cpp:400-435 | a packet is consumed iff it is a ping response, and the list becomes the list after that pingback |
| BrowseServers.Browser.RefreshCustomConnectStrings | src/application/gui/browse_servers_gui.cpp:732-746 | every entry gets its connect string recomputed and nothing else about it changes |
| BrowseServers.PingLoop | src/application/gui/browse_servers_gui.cpp:476-538 | the loop computes one frame of pinging as the recursive definition says |
| BrowseServers.FindEntry | src/application/gui/browse_servers_gui.cpp:349-357 | the first entry listed under the public address, none iff no entry is |
| BrowseServers.FindEntryByInternalAddress | src/application/gui/browse_servers_gui.cpp:359-369 | the first entry with that sequence and that internal address, none iff none has both |
| BrowseServers.AfterPingback | src/application/gui/browse_servers_gui.cpp:403-432 | only ping responses change the list; no entry's address or heartbeat changes |
| BrowseServers.PingbackChangesOneEntry | src/application/gui/browse_servers_gui.cpp:406-426 | at most one entry changes, and it becomes measured with the time since its last ping. Only a match of internal address and sequence, from no listed public address, marks an entry local. A listed public address with another sequence changes nothing |
| ServerHelpers.MatchScore | src/application/setups/server/server_setup.cpp:2993-3005 | the comparison loop's running score stays between minus and plus the number of compared positions |
| ServerHelpers.FullScoreIffEqualPrefix | src/application/setups/server/server_setup.cpp:2998-3007 | the score equals the number of compared positions exactly when the compared prefixes agree, in both directions |
| ServerHelpers.SafeEqual | src/application/setups/server/server_setup.cpp:2986-3008 | a candidate is accepted exactly when an rcon password is set and the candidate equals it. An empty actual password disables rcon. The loop compares every position of the shorter length with no early exit |
| ServerHelpers.RconLevelOnDedicatedServer | src/application/setups/server/server_setup.cpp:3022-3055 | on a dedicated server, master rights come exactly from enabled loopback or internal auto-authorisation, the master password, or the basic password while no master password is set. Basic rights come exactly from the basic password when a different master password is set. Integrated-only is never the answer |
| ServerHelpers.EmptyPasswordsDenyRemoteClients | src/application/setups/server/server_setup.cpp:3024-3055 | with both passwords empty and no auto-authorisation, every remote client is denied |
| ServerHelpers.IntegratedServerIgnoresPasswords | src/application/setups/server/server_setup.cpp:3014-3020 | on an integrated server only the integrated client is master, everyone else is integrated-only, and the password changes nothing |
| ServerHelpers.NumChunks | src/application/setups/server/server_setup.cpp:2648-2658 | the chunk count is at least one, exactly one for an empty file, and otherwise the least count whose chunks cover the file |
| ServerHelpers.ChunkBounds | src/application/setups/server/server_setup.cpp:2664-2674 | a chunk starts at its index times the chunk size and ends at the next boundary or at the end of the file, inside the file |
| ServerHelpers.SendFileChunk | src/application/setups/server/server_setup.cpp:2644-2693 | a packet goes out exactly when a socket is available and the index is at most the last chunk index. It carries exactly that chunk's bytes. Otherwise nothing is sent |
| ServerHelpers.ChunksReassembleFile | src/application/setups/server/server_setup.cpp:2660-2678 | the chunks laid end to end in order give back the file's prefix up to their end, and all chunks give back the whole file |
| ServerHelpers.ToModePlayerId | src/application/setups/server/server_setup.cpp:1343-1348 | a client id becomes a set mode player id with the same value |
| ServerHelpers.ClientIdRoundTrip | src/application/setups/server/server_setup.cpp:1343-1352 | converting a client id to a mode player id and back is the identity. So is the other direction, on set mode player ids within 32 bits |
| ServerHelpers.Countdown | src/application/setups/server/server_setup.cpp:2547-2559 | the countdown fires exactly at zero and then restarts at the interval minus one in 32-bit arithmetic, wrapping to the maximum for a zero interval. Otherwise it is left unchanged |
| ServerHelpers.IsJoinable | src/application/setups/server/server_setup.cpp:3438-3444 | outside a live or starting ranked match the server is always joinable. During one, it is joinable exactly when some players are suspended |
| ServerSetup.UnsetClient | src/application/setups/server/server_setup.cpp:1745-1753 | an unset slot is disconnected, with no pending entropies and no kick time |
| ServerSetup.SquashThreshold | src/application/setups/server/server_setup.cpp:1838-1842 | the squash threshold is the larger of the step target and the millisecond target converted to whole steps |
| ServerSetup.Drain | src/application/setups/server/server_setup.cpp:1985-2019 | one tick never consumes more entropies than are pending |
| ServerSetup.DrainTakesOldest | src/application/setups/server/server_setup.cpp:1987-2019 | a tick consumes only from the front of the buffer. Below the threshold it takes exactly the oldest entropy, unchanged. At or above it, it takes the oldest min(pending, max squash) entropies, merged in arrival order. Nothing is consumed exactly when squashing is due and the squash maximum is zero |
| ServerSetup.Contributed | src/application/setups/server/server_setup.cpp:1975-2023 | an empty buffer changes nothing and contributes nothing. Otherwise only the buffer and the accepted count change |
| ServerSetup.Accepted | src/application/setups/server/server_setup.cpp:1768-1775 | only a present, non-empty entropy is appended to the step, tagged with the client's id. Anything else leaves the step as it was |
| ServerSetup.ContributionAccountsForConsumed | src/application/setups/server/server_setup.cpp:1985-2021 | the accepted count equals the number of entropies removed from the front of the buffer, and the contribution is made of exactly those entropies |
| ServerSetup.KickedClient | src/application/setups/server/server_setup.cpp:3136-3149 | an unset or already-kicked client is unchanged. Otherwise only its kick time is set, to now |
| ServerSetup.KickIsIdempotent | src/application/setups/server/server_setup.cpp:3141-3149 | a second kick changes nothing, so the first kick time stays |
| ServerSetup.LingerSecs | src/application/setups/server/server_setup.cpp:1944 | the linger window is the configured one clamped to between 0 and 15 seconds |
| ServerSetup.Admitted | src/application/setups/server/server_setup.cpp:2093-2127 | admitting a client never changes the size of the client table |
| ServerSetup.ContributedTick | src/application/setups/server/server_setup.cpp:2129-2131 | the contribution step never changes the size of the client table |
| ServerSetup.ProcessedClient | src/application/setups/server/server_setup.cpp:1884-2132 | processing one slot never changes the size of the client table |
| ServerSetup.ProcessedFrom | src/application/setups/server/server_setup.cpp:2139 | processing every slot from k on never changes the size of the client table |
| ServerSetup.ProcessedClientFrame | src/application/setups/server/server_setup.cpp:1884-2132 | processing one slot changes no other slot. The add and remove commands are written only while their once-per-tick flags are clear, and a set flag stays set with its command unchanged |
| ServerSetup.AtMostOneAddAndRemovePerTick | src/application/setups/server/server_setup.cpp:1833-2139 | over the whole tick at most one player is added and at most one removed. Once written, a command is never overwritten, and nothing is written while its flag stays clear |
| ServerSetup.OverflowKicks | src/application/setups/server/server_setup.cpp:1888-1940 | a connected client with more pending entropies than the maximum ends its slot's processing kicked or disconnected. A client not kicked before becomes kicked only for one of the kick reasons, and at the current time |
| ServerSetup.LingerBeforeDisconnect | src/application/setups/server/server_setup.cpp:1888-1951 | the kick checks disconnect a connected client exactly when nobody was removed yet this tick and the client is or gets kicked. Its kick must also skip lingering (a timeout) or have passed the linger window |
| ServerSetup.OnlyInGameClientsContribute | src/application/setups/server/server_setup.cpp:1975-2023 | the step's collected entropies grow only from an in-game client's slot, by one non-empty entropy tagged with that client's id |
| ServerSetup.AfterBroadcast | src/application/setups/server/server_setup.cpp:2561-2593 | a recipient's accepted count is reset to zero and nothing else changes. A client that is not a recipient is left unchanged |
| ServerSetup.BroadcastAccepted | src/application/setups/server/server_setup.cpp:2561-2604 | every slot ends as `AfterBroadcast` of itself (a recipient's accepted count reset, others untouched) and the contexts sent are exactly `SentContexts`, in slot order |
| ServerSetup.SentContextsAreRecipients | src/application/setups/server/server_setup.cpp:2561-2604 | a context (slot, count) is sent exactly to each connected, unpaused client at least receiving its initial snapshot, with its count before the reset. Nobody else gets one, and there are at most as many contexts as slots |
| ServerSetup.RebuildIndicesAsWritten | src/application/setups/server/server_setup.cpp:509-519 | the rebuild as written keeps whatever was on the stack and adds one index per list entry |
| ServerSetup.RebuildAsWrittenTopIsOldBottom | src/application/setups/server/server_setup.cpp:509-527 | as written, the rebuild puts the old bottom of a non-empty stack on top, and that entry is popped next |
| ServerSetup.StaleIndexSurvivesRebuild | src/application/setups/server/server_setup.cpp:509-530 | with a stale index 5 left on the stack and three arenas on disk, the rebuilt stack is [2, 1, 0, 5]. Its top, the next index popped, lies outside the list |
| ServerSetup.RebuiltIndices | src/application/setups/server/server_setup.cpp:509-519 | the rebuild on a cleared stack holds each index of the list exactly once, with index 0 on top |
| ServerSetup.Server.constructor | src/application/setups/server/server_setup.cpp:65-120 | a new server has only unset client slots, no commands collected, zero countdowns and an empty arena stack. Both one-shot flags are armed, because the first apply reloads the arena |
| ServerSetup.Server.Kick | src/application/setups/server/server_setup.cpp:3136-3167 | a kick marks the client as kicked now and notifies it exactly when the client is connected and not yet kicked. Nothing else changes |
| ServerSetup.Server.DisconnectAndUnset | src/application/setups/server/server_setup.cpp:1750-1753 | the slot is unset and nothing else changes |
| ServerSetup.Server.AcceptEntropyOfClient | src/application/setups/server/server_setup.cpp:1768-1775 | the step's collected entropies become the accepted ones for this entropy, and nothing else changes |
| ServerSetup.Server.CheckAllKickConditions | src/application/setups/server/server_setup.cpp:1888-1952 | the slot becomes the kick-checked client and nothing else changes |
| ServerSetup.Server.RemoveFromGameIfKicked | src/application/setups/server/server_setup.cpp:1954-1966 | the tick state, with the returned flag, becomes the state after the remove step |
| ServerSetup.Server.ContributeToStepEntropy | src/application/setups/server/server_setup.cpp:1975-2023 | the slot and the step's collected entropies become what draining the client's buffer gives, and nothing else changes |
| ServerSetup.Server.ProcessClient | src/application/setups/server/server_setup.cpp:1884-2132 | the tick state and the returned flags become the processed-slot state |
| ServerSetup.Server.AdvanceClientsState | src/application/setups/server/server_setup.cpp:1833-2139 | the client table and the add, remove and collected commands become the state after processing every slot from 0 in order with both flags clear. By AtMostOneAddAndRemovePerTick, that is at most one add and one remove |
| ServerSetup.Server.SendServerStepEntropies | src/application/setups/server/server_setup.cpp:2543-2605 | the state hash is sent exactly when its countdown is at zero, and the countdown then restarts at the interval minus one. Every recipient gets its accepted count, which is then reset, and other clients are unchanged. No other server field changes |
| ServerSetup.Server.SendPacketsIfItsTime | src/application/setups/server/server_setup.cpp:2733-2742 | packets go out exactly when the countdown is at zero, and it then restarts as the shared countdown does; otherwise it is left as it is. Nothing else changes |
| ServerSetup.Server.ReinferIfNecessaryFor | src/application/setups/server/server_setup.cpp:2607-2613 | reinference happens exactly when it was flagged or the step adds a player, and afterwards the flag is clear. No other server field changes |
| ServerSetup.Server.ShouldCheckForUpdatesOnce | src/application/setups/server/server_setup.cpp:2230-2238 | the call answers true only while the flag is armed and disarms it, so only the first call answers true. No other server field changes |
| ServerSetup.Server.ShouldWriteVarsToDiskOnce | src/application/setups/server/server_setup.cpp:2240-2248 | the call answers true only while the flag is armed and disarms it, so only the first call answers true. No other server field changes |
| ServerSetup.Server.ScheduleShutdown | src/application/setups/server/server_setup.cpp:2264-2271 | afterwards a shutdown is scheduled. The shutdown message is broadcast exactly when none was scheduled before. No other server field changes |
| ServerSetup.Server.ChooseNextFrom | src/application/setups/server/server_setup.cpp:504-544 | with the stack cleared before each rebuild, the indices tried and the stack left are exactly those of the search specification: at most one try per list entry, each an index inside the list, every try but the last failed; an arena is chosen exactly when the last try applied, and it is that try; when nothing applied every entry was tried; an empty list tries nothing and leaves the stack alone; no other server field changes |
| ServerSetup.Refilled | src/application/setups/server/server_setup.cpp:509-519 | the rebuilt stack, shuffled or not, holds each index of the list exactly once, and its top is inside the list |
| ServerSetup.Replenished | src/application/setups/server/server_setup.cpp:522-524 | the stack a try pops from always has a top inside the list, and a stack whose top is already inside the list is kept as it is |
| ServerSetup.TriedIndicesInRange | src/application/setups/server/server_setup.cpp:521-543 | the search takes at most one try per remaining try, each an index inside the list; every try but the last failed, and the search stops early only when its last try applied |
| ServerSetup.TriedAfterStep | src/application/setups/server/server_setup.cpp:521-543 | one pass of the loop: when the popped index applies the search ends with it and the popped stack, otherwise the search continues from the popped stack with one try fewer |
| ServerSetup.PopReplenished | src/application/setups/server/server_setup.cpp:522-528 | the popped index is the top of the replenished stack and lies inside the list; the stack left is that stack without its top |
| ServerSetup.TryInTurn | src/application/setups/server/server_setup.cpp:521-543 | the loop's tries and the stack it leaves are exactly those of the search specification; it reports the last try as chosen exactly when that try applied, and when nothing applied it made one try per list entry |
| ServerSetup.MergeOldest | src/application/setups/server/server_setup.cpp:2001-2003 | the loop merges the oldest n entropies in arrival order into a default-constructed entropy |
| ServerHelpers.IsConnectionRequestPacket | src/application/setups/server/server_setup.cpp:3383-3396 | a packet is a connection request exactly when it is non-empty and its first byte is the request code 0. An empty packet never is one |

## Left out

- Enumerations whose declaring headers are not part of this model appear only with the values the core tests, and the numeric values of command bytes are parameters. This covers key intents, netcode packet codes and masterserver command codes.
- Floating-point quantities are whole numbers. This covers tick length, linger seconds, ping times and yojimbo time. A double-to-`uint32_t` truncation is integer division.
- I/O is not modelled: sockets, HTTP downloads, file reading and writing, console and file logging, ImGui drawing, Steam and webhook jobs.
- Chat, kick and shutdown messages are reduced to the boolean "a message went out".
- `Pixel`: `rgba::set` is not modelled separately. It assigns the same four channels the constructor does. `rgb2hsv`, `hsv2rgb` and `operator*` are floating-point and are not modelled.
- `try_fire_interval`, which is not part of this model, is taken to fire when at least the interval has passed since the last firing.
- `ServerSetup.Server.SendServerStepEntropies`: the per-step decrement of `ticks_until_sending_hash` happens outside this file and is not modelled. Only the reset at zero is modelled.
- `ServerSetup.Server.SendPacketsIfItsTime`: `ticks_until_sending_packets` is not decremented anywhere in `server_setup.cpp` either. Only the test at zero and the reset are modelled, and neither countdown is shown to advance from tick to tick.
- Both countdowns are taken to be 32-bit unsigned, as is the state-hash interval.
- `ServerSetup.ClientState`: the order of the client states is taken from the order the source compares them in. Their declaring header is not part of this model.
- `max_commands_to_squash_at_once` is taken to be 8 bits wide.
- `ServerSetup.Server.CheckAllKickConditions` issues one kick for all applicable reasons where the source calls `kick` once per reason. `KickIsIdempotent` shows the effect on the client table is the same. The kick reason strings are not modelled.
- The tick's client predicates are inputs of the tick: already a player, wrong match, AFK, timed out, unauthenticated, authentication fulfilled, suspended id.
- `automove_to_spectators_if_afk` and `perform_automoves_to_spectators` are not modelled.
- `local_collected.control` is modelled as writing the add or remove command of the tick.
- `send_state_for_the_first_time` is not modelled, beyond the state change to receiving the initial snapshot.
- `ServerSetup.Server.ChooseNextFrom` models the corrected rebuild, which clears the stack first (see Findings).
  - The shuffle is a parameter that only has to keep the multiset of indices. It is a pure function, so every rebuild within one call produces the same stack, and the generator state `cycle_rng` is not modelled.
  - Applying an arena's vars is a parameter predicate.
  - The arena name and game-mode split of each entry is not modelled.
- `ServerSetup.Server.constructor`: the initial values of the countdowns and of `check_for_updates_once` come from member defaults in a header that is not part of this model.
- `ServerHelpers.RconLevelOnDedicatedServer`: the loopback test and the internal-network test of the client's address are inputs.
- `calc_num_chunks_per_tick_per_downloader` is not modelled. It is double arithmetic.
- `Inventory.OwningTransferCapability` and the recursive item visitor are bounded by a fuel argument. Containment chains and item trees deeper than the fuel are not followed.
- `ModeHelpers.RemoveTestDroppedItems` bounds its work queue by fuel, for the same reason.
- `cosmic::delete_entity` is modelled as removing exactly that one entity id.
- `can_contain` is a parameter. Its space and category rules are not part of this model.
- `remove_test_characters` and `find_faction_character_flavour` are not modelled. They depend on entity flavours that are not part of this model.
- `EditorFilesystem`:
  - The inspector is reduced to a selection list. `inspect_add_quiet` is modelled as an append, without its duplicate check.
  - Opening a folder on a click, and node names, icons and custom thumbnail paths in the rebuild, are not modelled.
- `CmdLine`: `typesafe_sprintf`'s `%x` prints integers in decimal, which is modelled. The numbers in `parsed_as` are printed that way.
- `ImageLoadables.RegenerateAllNeeded`: `force_regenerate` is only passed on to the file generators, which are not part of this model, so it is not a parameter.
- `Decimal.Atoi`: `std::atoi` on a value out of `int` range is undefined and is not modelled. Digits are read without a bound.
- `RankedWebhooks`: rapidjson's string escaping and buffering are not modelled. The writer is a recorder of the events it receives.
- `EditorPlayer`:
  - The `editor_history` internals are reduced to a list of commands with a current revision.
  - The `snapshotted_player` base is reduced to its current step, pause flag, number of recorded steps and requested steps.
  - Cosmos snapshot loading is not modelled.
- `EditorPlayer.EditorPlayer.FinishTesting`: `base::finish()` belongs to the snapshotted player, which is not part of this model, so after a finished playtest the contract says nothing about the current step, the pause flag, or the recorded and requested steps. Clearing the view's `overridden_viewed` is not modelled either.
- `EditorPlayer.ExecuteNew`: what a command does to the edited state is the `execute` parameter of `FinishTesting`. The command classes are not part of this model.
- `DeterminismTest`: world stepping and serialisation are parameters. The state of each world's own test bed is reduced to the world's index, which the step function receives; what a test bed does with it is not modelled, so that equal worlds stay equal is proved only for test beds that step alike.
- `BrowseServers`:
  - `set_ping_from` is taken to set the ping to the time since the last ping.
  - `minimum_of` is taken to pick the first minimal element.
  - Parsing the ping response packet, beyond its sequence, is not modelled.
- `BrowseServers.PingBudget`: one entry may send a ping and a punch request in the same visit. The frame may therefore end one packet over its budget, and the bound states at most the budget plus one.
- `Log`: the mutex and the console and file output are not modelled.
- The rest of `server_setup.cpp` is not part of this model: arena loading, webhook and Steam authentication jobs, update checks, sleeping until the next tick, and the entropy serialiser.
- `work.cpp`, the Lua read/write headers, and the floating-point geometry and GUI files are not part of this model.

## Findings

| source | as written | input that shows it | evidently intended | confidence | as-written member | corrected member |
|---|---|---|---|---|---|---|
| src/application/setups/server/server_setup.cpp:509-519 | `rebuild_indices` pushes `0..n-1` onto the index stack without clearing it, then reverses the whole stack. It runs when the top index is out of range. The reversal puts the old bottom of the stack on top, and it is popped next with no second range check. The stack keeps a stale index when the ALL_ON_DISK cycle's arena list (`arenas_on_disk`, lines 554-555) shrinks; the LIST cycle cannot reach this, because `apply` clears the stack whenever `cycle_list` changes (lines 1527-1533). | with ALL_ON_DISK, the stack holds [5] after the arenas on disk shrank to 3; the rebuild gives [2, 1, 0, 5] and the next pop reads entry 5 | the stack is cleared before it is rebuilt, so every popped index is inside the list | not executed | ServerSetup.RebuildIndicesAsWritten, ServerSetup.RebuildAsWrittenTopIsOldBottom, ServerSetup.StaleIndexSurvivesRebuild | ServerSetup.RebuiltIndices, ServerSetup.Server.ChooseNextFrom, ServerSetup.TriedIndicesInRange |
| src/application/setups/debugger/detail/field_address.h:116 | `operator==` converts both element indices to `bool` and joins them with `&&`, so it asks only that both are non-zero instead of comparing them | an address with `element_index` 0 is unequal to itself; addresses differing only in `element_index` 1 and 2 compare equal | `element_index == b.element_index` | not executed | FieldAddress.EqualAsWritten, FieldAddress.EqualAsWrittenNotReflexive, FieldAddress.EqualAsWrittenConflatesElements | FieldAddress.Equal, FieldAddress.EqualIsValueEquality |
