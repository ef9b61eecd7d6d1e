# Custom rooms and the websocket lobby, in Dafny

This project models two sequential pieces of a game-lobby server written in
Rust.

1. **Custom rooms** (`src/models/custom_room.rs`). A custom room has a label,
   an owner, a number of teams, a team size, a game mode, a map and an
   optional matchmaking ticket. Each of its slots seats one user at a
   (team, position) with an archetype. The model covers the room geometry
   (`get_capacity`, `is_valid_slot`) and the GameLift request builders
   (`get_gamelift_attributes`, `get_start_matchmaking_input`). It also covers
   the store functions over the `custom_rooms` and `custom_room_slots`
   tables. Each table is a sequence of rows in table order. Every lookup is
   a function of those rows, and every write is a method of the `Store`
   class that holds them.
2. **The websocket lobby** (`src/services/websocket/lobby.rs`). A `Lobby` maps
   user ids to connection addresses. `Connect` inserts into the map and
   `Disconnect` removes from it. Three send operations hand a text message
   to connections. Each delivery is appended to an `outbox`. Each call of the
   room-cleanup hook is appended to `closings`.

Files:

- `query.dfy` (module `Query`): the two shapes a filtered query takes.
  `First` is the first matching row (`get_result`). `Filter` is all matching
  rows in table order (`load`). The file also holds their algebra.
- `decimal.dfy` (module `Decimal`): `i32::to_string`, and the proof that the
  text reads back as the same number.
- `custom_room.dfy` (module `CustomRoomModel`): the row records, capacity,
  slot validity, GameLift attributes and the matchmaking roster.
- `room_store.dfy` (module `CustomRoomStore`): the lookups, the row updates,
  the table invariant and the `Store` class.
- `lobby.dfy` (module `WebsocketLobby`): the `Lobby` class and its
  delivery functions.

Modelling decisions:

- `nb_teams`, `max_player_per_team`, `team` and `team_position` are `i32`.
  `get_capacity` multiplies two `i32` values and casts the product to
  `usize`. The model follows a release build on a 64-bit target: the
  product wraps modulo 2^32, then the cast sign-extends it to 64 bits.
  Row ids and user ids are unbounded integers.
- A `Uuid` and a `Maps` value stand for their `to_string` text. An
  `Archetypes` value stands for its `to_u32` code.
- The tables keep the invariant `TablesValid`. Ids come from two serial
  sequences. No two rows share an id. Every slot's `custom_room_id` names an
  existing room. The model assumes this foreign key has `ON DELETE CASCADE`.
  The `users` rows the store reads keep their primary key (`users (id)`,
  `src/schema.rs:2`): no two share an id.
  So `delete` removes the owner's rooms and also the slots in them. Inserting
  or updating a slot so that it names a missing room fails with
  `ForeignKeyViolation` and changes no row. A failed insert still uses up
  the id it drew from its `serial` sequence, as PostgreSQL sequences are
  not rolled back.
- A lookup that finds no row fails with `NotFound`, as Diesel's
  `get_result` does.
- The three forwarding handlers (`ForwardMessage`, `MultiForwardMessage`,
  `BroadcastExceptMessage`, `src/services/websocket/lobby.rs:72-94`) only
  call the send methods with the message's fields. They are modelled by
  those methods.
- A disconnect does not check that the registered handle is the one
  disconnecting: the code removes the entry for the id unconditionally.
  `StaleDisconnectEvictsNewerConnection` shows the consequence: connect
  twice under one id, then disconnect the first connection, and the newer
  session is gone.

## Model

| member | source | states |
|---|---|---|
| `CustomRoomModel.GetCapacity` | src/models/custom_room.rs:28-31 | teams × players per team, multiplied as `i32` with wrap-around and cast to a 64-bit `usize`; its properties are stated by `CapacityIsProduct`, `CapacityAgreesModulo32Bits` and `CapacityWrapsAround` |
| `CustomRoomModel.IsValidSlot` | src/models/custom_room.rs:33-35 | team below the number of teams and position below the team size, with no lower bound; stated by `ValidSlotIffWithinCapacity` and `ValidSlotHasNoLowerBound` |
| `CustomRoomModel.CapacityIsProduct` | src/models/custom_room.rs:28-31 | when both counts are non-negative and their product fits in an `i32`, the capacity is exactly teams × players per team |
| `CustomRoomModel.CapacityAgreesModulo32Bits` | src/models/custom_room.rs:28-31 | for every pair of `i32` counts, the capacity agrees with the true product modulo 2^32 (the wrapping multiply, then the sign-extending cast) |
| `CustomRoomModel.CapacityWrapsAround` | src/models/custom_room.rs:28-31 | 65536 teams of 65536 players have capacity 0: the multiply overflows |
| `CustomRoomModel.ValidSlotIffWithinCapacity` | src/models/custom_room.rs:33-35 | for a non-negative team and a position inside the team size, the slot is valid exactly when its row-major index team × size + position is below the capacity |
| `CustomRoomModel.ValidSlotHasNoLowerBound` | src/models/custom_room.rs:33-35 | a negative team and a negative position pass the check in any non-empty room: only upper bounds are tested |
| `CustomRoomModel.GetGameliftAttributes` | src/models/custom_room.rs:73-101 | the map has exactly the four keys `team`, `team_position`, `archetype` and `nickname`; the first three hold the slot's team, position and archetype code as numbers; `nickname` holds the given nickname as a string |
| `CustomRoomModel.GetStartMatchmakingInput` | src/models/custom_room.rs:37-58 | the configuration name is the room's map; the ticket id is the given ticket; the players are the roster of the pairs, one per pair whose ids agree, in input order; there are no more players than pairs |
| `CustomRoomModel.RosterIsFilteredPairs` | src/models/custom_room.rs:40-50 | the roster is as long as the list of pairs whose user ids agree; its k-th player is the player of the k-th such pair; its length is at most the number of pairs |
| `CustomRoomModel.RosterConcat` | src/models/custom_room.rs:40-50 | the roster of two lists of pairs is the roster of the first followed by the roster of the second |
| `CustomRoomModel.RosterPlayersComeFromMatchingPairs` | src/models/custom_room.rs:41-49 | every player comes from a pair whose ids agree; its id is that slot's user id and its team is that slot's team, both in decimal; it carries the slot's attributes with the user's nickname and no latency |
| `CustomRoomModel.PlayerIdIdentifiesUser` | src/models/custom_room.rs:47 | two players have the same player id exactly when their slots have the same user id |
| `Decimal.IntToString` | src/models/custom_room.rs:47-48 | the `to_string` text of an integer: a '-' for a negative number, then the digits of its magnitude with no leading zeros; stated by `IntToStringRoundTrip` and `IntToStringInjective` |
| `Decimal.IntToStringRoundTrip` | src/models/custom_room.rs:47-48 | the decimal text of an integer reads back as that integer |
| `Decimal.IntToStringInjective` | src/models/custom_room.rs:47-48 | two integers have the same decimal text exactly when they are equal |
| `CustomRoomStore.GetWithoutAssociations` | src/models/custom_room.rs:125-132 | succeeds exactly when some room has that id and returns such a room; otherwise fails with `NotFound` |
| `CustomRoomStore.Get` | src/models/custom_room.rs:104-111 | succeeds exactly when a room has that id; returns that room with exactly the slots whose room id is that id; otherwise fails with `NotFound` |
| `CustomRoomStore.SlotsOf` | src/models/custom_room.rs:107-108 | the slots whose room id is the given id, in table order: exactly those slots, and no more than the table holds |
| `CustomRoomStore.GetWithUsers` | src/models/custom_room.rs:113-123 | succeeds exactly when a room has that id; the pairs are exactly the (slot, user) pairs of that room's slots with the users whose id is the slot's user id |
| `CustomRoomStore.JoinUsers` | src/models/custom_room.rs:118-120 | the join holds exactly the pairs of a slot with a user whose id is that slot's user id |
| `CustomRoomStore.JoinedRosterKeepsEveryPair` | src/models/custom_room.rs:113-123 | every pair from `get_with_users` yields a player: the roster built from them has one player per pair |
| `CustomRoomStore.OneUserPerId` | src/schema.rs:1-3 | under the `users` primary key a user id names at most one user row, and exactly one when some user has it |
| `CustomRoomStore.JoinHasOnePairPerSlot` | src/models/custom_room.rs:118-120 | under the `users` primary key the inner join yields at most one pair per slot, and exactly one per slot when every slot's user exists |
| `CustomRoomStore.RosterHasOnePlayerPerSlot` | src/models/custom_room.rs:37-58 | the matchmaking roster built from `get_with_users` of a room has at most one player per slot of the room, and exactly one per slot when every slot's user exists |
| `CustomRoomStore.GetByUserId` | src/models/custom_room.rs:134-146 | succeeds exactly when the user owns some room; returns such a room with exactly its slots; otherwise fails with `NotFound` |
| `CustomRoomStore.GetByTicketId` | src/models/custom_room.rs:148-160 | succeeds exactly when some room carries that ticket; returns such a room with exactly its slots; a room with no ticket never matches |
| `CustomRoomStore.GetSlotByPosition` | src/models/custom_room.rs:184-201 | succeeds exactly when a slot of that room is at that team and position, and returns such a slot; otherwise fails with `NotFound` |
| `CustomRoomStore.GetSlotByUserId` | src/models/custom_room.rs:203-214 | succeeds exactly when the user occupies a slot, and returns such a slot; otherwise fails with `NotFound` |
| `CustomRoomStore.MaxRoomId` | src/models/custom_room.rs:243-246 | the selected id belongs to a room and no room id is greater |
| `CustomRoomStore.MaxRoomIdAfterInsert` | src/models/custom_room.rs:237-246 | after inserting a room whose id exceeds every earlier id, the greatest id is the new room's |
| `CustomRoomStore.GetAfterCreate` | src/models/custom_room.rs:248-254 | after inserting a room under a fresh id and a slot in it, `get` of that id returns the room with exactly that one slot |
| `CustomRoomStore.CreateCommits` | src/models/custom_room.rs:236-255 | on valid tables the inserted room has the greatest id, the tables stay valid, and `get` returns the room with exactly the owner's slot |
| `CustomRoomStore.WithTicket` | src/models/custom_room.rs:282-284 | the room table after `update … set matchmaking_ticket` on the rows with that id; its effect on `get` is stated by `GetAfterWithTicket`, `TicketLeadsBackToRoom` and `ClearedTicketIsNotFound` |
| `CustomRoomStore.WithRoomData` | src/models/custom_room.rs:266-270 | the room table after `update … set <room form>` on the rows with that id; its effect on `get` is stated by `GetAfterWithRoomData` |
| `CustomRoomStore.WithSlotForm` | src/models/custom_room.rs:315-317 | the slot table after `update … set <slot form>` on every slot of that user; that it keeps the tables valid is stated by `ValidAfterSlotRewrite` and used by `Store.UpdateSlot` |
| `CustomRoomStore.WithArchetype` | src/models/custom_room.rs:331-333 | the slot table after `update … set current_archetype` on every slot of that user; its effect on the slot lookup is stated by `SlotLookupAfterWithArchetype` |
| `CustomRoomStore.GetAfterWithRoomData` | src/models/custom_room.rs:266-272 | after a room update, `get` of that room returns it with the form's columns, owned by the caller, with its id and ticket kept, its mode and map kept where the request has none, and the same slots; `get` of every other id is unchanged |
| `CustomRoomStore.GetAfterWithTicket` | src/models/custom_room.rs:282-284 | after a ticket update, `get` of that room returns it with only its ticket changed and the same slots; `get` of every other id is unchanged |
| `CustomRoomStore.TicketLeadsBackToRoom` | src/models/custom_room.rs:275-287 | once a room's ticket is set to a ticket that no other room carries, the lookup by that ticket finds that room |
| `CustomRoomStore.ClearedTicketIsNotFound` | src/models/custom_room.rs:275-287 | once a room's ticket is cleared, no ticket lookup finds that room |
| `CustomRoomStore.SlotLookupAfterWithArchetype` | src/models/custom_room.rs:331-333 | after the archetype update, the user's slot lookup returns the same slot with only its archetype changed; every other user's lookup is unchanged |
| `CustomRoomStore.SlotLookupAfterDelete` | src/models/custom_room.rs:345-348 | after deleting a user's slots, that user has no slot and every other user's slot lookup is unchanged |
| `CustomRoomStore.ValidAfterRoomInsert` | src/models/custom_room.rs:237-241 | inserting a room under the next serial id keeps the tables valid |
| `CustomRoomStore.ValidAfterSlotInsert` | src/models/custom_room.rs:295-297 | inserting a slot under the next serial id into an existing room keeps the tables valid |
| `CustomRoomStore.ValidAfterRoomRewrite` | src/models/custom_room.rs:266-270 | rewriting room rows in place with their ids kept keeps the tables valid |
| `CustomRoomStore.ValidAfterSlotRewrite` | src/models/custom_room.rs:315-317 | rewriting slot rows in place with their ids kept, moving slots only into existing rooms, keeps the tables valid |
| `CustomRoomStore.ValidAfterDelete` | src/models/custom_room.rs:222-224 | removing rooms, together with every slot whose room is gone, keeps the tables valid |
| `CustomRoomStore.Store.Create` | src/models/custom_room.rs:228-256 | appends one room owned by the caller under the next room id, with the request's mode and map or the given defaults where it has none, and one slot for the caller at team 0, position 0 in that room under the next slot id; returns that room with exactly that slot; the tables stay valid |
| `CustomRoomStore.Store.Update` | src/models/custom_room.rs:258-273 | rewrites only the rows with that id with the form's columns and the caller as owner, keeping the mode and map where the request has none; slots and ids unchanged; returns `get` of that id |
| `CustomRoomStore.Store.UpdateTicket` | src/models/custom_room.rs:275-287 | sets, or with `None` clears, only the ticket of the rows with that id; every other column and row is unchanged |
| `CustomRoomStore.Store.Delete` | src/models/custom_room.rs:216-226 | removes exactly the user's rooms and the slots in them, keeps every other row in order, and returns the number of rooms removed |
| `CustomRoomStore.Store.CreateSlot` | src/models/custom_room.rs:289-300 | if the form's room exists, appends the form's slot under the next slot id and returns `get` of that room, which succeeds; otherwise fails with `ForeignKeyViolation` and changes no row; either way the slot sequence advances by one |
| `CustomRoomStore.Store.UpdateSlot` | src/models/custom_room.rs:302-321 | overwrites every slot of the user with the form and returns `get` of the form's room; if the user has a slot and the form's room does not exist, fails with `ForeignKeyViolation` and changes nothing |
| `CustomRoomStore.Store.UpdateSlotArchetype` | src/models/custom_room.rs:323-336 | changes only the archetype of the user's slots; rooms unchanged; returns `get` of the given room |
| `CustomRoomStore.Store.DeleteSlotByUserId` | src/models/custom_room.rs:338-351 | removes every slot of the user and no other slot; rooms unchanged; returns `get` of the given room |
| `CustomRoomStore.Store.GetAll` | src/models/custom_room.rs:162-182 | maps every room, and only rooms, to exactly its slots |
| `WebsocketLobby.Connected` | src/services/websocket/lobby.rs:64-69 | the id is registered with the new address and the last connection wins; every other entry is unchanged |
| `WebsocketLobby.Disconnected` | src/services/websocket/lobby.rs:55-56 | the id is no longer registered, whatever address it had; every other entry is unchanged |
| `WebsocketLobby.StaleDisconnectEvictsNewerConnection` | src/services/websocket/lobby.rs:55-69 | after two connections under one id, the disconnect of the earlier one removes the newer session: the map ends as if that id had only ever been removed |
| `WebsocketLobby.ManyDeliveries` | src/services/websocket/lobby.rs:41-45 | at most one delivery per listed id, each carrying the message to a registered address |
| `WebsocketLobby.ManyDeliveriesSkipUnregistered` | src/services/websocket/lobby.rs:41-45 | sending to a list is one delivery to the address of each registered id, in list order; unregistered ids are skipped |
| `WebsocketLobby.ManyDeliveriesConcat` | src/services/websocket/lobby.rs:41-45 | sending to two lists in turn is sending to their concatenation |
| `WebsocketLobby.BroadcastReachesEachOtherOnce` | src/services/websocket/lobby.rs:33-39 | a broadcast reaches each registered id outside the excluded list once, never an excluded or unregistered id, and hands out as many deliveries as there are such ids |
| `WebsocketLobby.BroadcastIsSendMany` | src/services/websocket/lobby.rs:33-45 | a broadcast hands out the same deliveries as sending to its recipients one by one |
| `WebsocketLobby.Lobby.constructor` | src/services/websocket/lobby.rs:15-20 | starts with no sessions, no deliveries and no closings |
| `WebsocketLobby.Lobby.SendMessage` | src/services/websocket/lobby.rs:24-31 | a registered id gets exactly one delivery to its address; an unregistered id gets nothing and nothing fails; sessions unchanged |
| `WebsocketLobby.Lobby.SendMessageToAllExcept` | src/services/websocket/lobby.rs:33-39 | appends one delivery to each registered id not in the excluded list, each once, in the map's iteration order; sessions unchanged |
| `WebsocketLobby.Lobby.SendManyMessage` | src/services/websocket/lobby.rs:41-45 | appends what `send_message` hands out for each listed id, in list order, skipping unregistered ids; sessions unchanged |
| `WebsocketLobby.Lobby.HandleDisconnect` | src/services/websocket/lobby.rs:52-58 | removes the id's session whatever its address, leaves every other session alone, then records one call of the cleanup hook with that id and address |
| `WebsocketLobby.Lobby.HandleConnect` | src/services/websocket/lobby.rs:61-69 | registers the address under the id, replacing any earlier one; every other session and the outbox are unchanged |

## Left out

- PostgreSQL and Diesel mechanics are not modelled: connections, the pool,
  SQL text and isolation. Each transactional function is one atomic method,
  and a failed transaction leaves the tables unchanged.
- The `for_update` read in `update_slot` only takes row locks. Locking is
  not modelled, so that read does nothing in the model.
- A database error other than a missing row or a foreign-key violation
  (a lost connection, a serialization failure) is not modelled.
- The SQL schema migration is not part of this model. The foreign key from
  slots to rooms and its `ON DELETE CASCADE` are assumptions of the model.
- Rows without an `ORDER BY` are returned in table (insertion) order. A real
  database promises no order.
- `CustomRoomForm::new_from_data` and `CustomRoomSlotForm` are not part of
  this model. The room form is taken to write the request's label, sizes
  and the caller as owner, and the mode and map only when the request
  carries them (`game_mode` and `map` are optional in `CustomRoomData`,
  src/handlers/custom_room.rs:23-30). The creator's default archetype is a
  parameter of `Store.Create`. `new_from_custom_room_creation`
  (src/models/custom_room.rs:249-251) is not part of this model either: the
  creator's slot is assumed to sit at team 0, position 0.
- `CustomRoomStore.Store.Create`: an absent mode or map is stored as the
  `defaultMode` or `defaultMap` parameter. The value the form or the column
  default really supplies is not shown, so the model does not fix it.
- `CustomRoomStore.Store.Update`: an absent mode or map leaves that column
  as it was, as an optional field of a Diesel changeset does. If
  `new_from_data` fills in a default instead, the update would write that
  default; that variant is not modelled.
- The `users` table is read-only here: no operation of the core writes it.
- The foreign key from a slot's `user_id` to `users` is not modelled (the
  schema declaring it is not part of this model). `create`, `create_slot`
  and `update_slot` accept a user id with no user row. Such a slot yields no
  pair in `get_with_users`, so `RosterHasOnePlayerPerSlot` gives one player
  per slot only when every slot's user exists. The owner column
  `custom_rooms.user_id` is not checked against `users` either.
- `CustomRoomModel.GetGameliftAttributes`: the `as f64` conversions are
  modelled as exact integers. Every `i32` and `u32` is exact in an `f64`.
- `CustomRoomModel.GetCapacity`: a debug build panics on overflow. The model
  follows the release build's wrap-around instead.
- Ids are unbounded integers: the overflow of the `i32` serial sequences
  is not modelled.
- GameLift calls and UUID generation are outside the core. A ticket is
  given as a parameter and stands for its text.
- `GetAll` returns a Dafny map. The iteration order of Rust's `HashMap` is
  not modelled.
- `WebsocketLobby.Lobby.SendMessageToAllExcept`: the order of the
  recipients is some order of the map's keys, chosen by the loop. It is not
  Rust's `HashMap` order.
- Actor concurrency, mailboxes and the `do_send` transport are not modelled.
  Each handler runs to completion on its own. A delivery is an entry in the
  outbox and cannot fail. The "couldn't find user id" log line is not
  modelled.
- `handle_websocket_closing` is not part of this model. Its call is recorded
  in `closings` with the id and address it receives. The database
  connection it also receives is left out, together with the pool.
- The websocket connection actor, the reader loops and the message types
  are not part of this model. An address is an opaque connection number.
- The room service's rules (joining a free slot, owner checks, refusing
  changes during a search) are not part of this model. Neither are the HTTP
  handlers, authentication, configuration, routes, `main` and the schema
  declarations.
