/** The room store: the `custom_rooms` and `custom_room_slots` tables as
    sequences of rows in table order, the lookups as functions of those rows,
    and the writes as methods of a `Store` that holds them. Each
    transactional function is one atomic method. */
module CustomRoomStore {
  import opened Query
  import opened CustomRoomModel

  /** The database errors the tables can raise: no row for a `get_result`,
      and a slot that names a room that does not exist. */
  datatype StoreError = NotFound | ForeignKeyViolation

  datatype Result<+T> = Ok(value: T) | Err(error: StoreError)

  /** What a room-creation or room-update request carries: label, team
      count, team size, and optionally a game mode and a map. */
  datatype CustomRoomData = CustomRoomData(
    roomLabel: string,
    nbTeams: i32,
    maxPlayersPerTeam: i32,
    gameMode: Option<GameMode>,
    gameMap: Option<MapName>)

  /** The slot columns a slot form writes (every column but the id). */
  datatype CustomRoomSlotForm = CustomRoomSlotForm(
    customRoomId: int,
    team: i32,
    teamPosition: i32,
    userId: int,
    currentArchetype: Archetype)

  /** The form of the creator's slot, taken to be at team 0, position 0. */
  function NewFromCustomRoomCreation(customRoomId: int, userId: int, archetype: Archetype): CustomRoomSlotForm {
    CustomRoomSlotForm(customRoomId, 0, 0, userId, archetype)
  }

  function SlotFromForm(id: int, form: CustomRoomSlotForm): CustomRoomSlot {
    CustomRoomSlot(id, form.customRoomId, form.team, form.teamPosition, form.userId, form.currentArchetype)
  }

  function OrElse<T>(o: Option<T>, otherwise: T): T {
    match o
    case Some(v) => v
    case None => otherwise
  }

  /** The row a room form inserts under `id`: an absent mode or map takes
      the column's default, and the room starts without a ticket. */
  function NewRoom(id: int, userId: int, data: CustomRoomData, defaultMode: GameMode, defaultMap: MapName): CustomRoom {
    CustomRoom(id, data.roomLabel, userId, data.nbTeams, data.maxPlayersPerTeam,
               OrElse(data.gameMode, defaultMode), OrElse(data.gameMap, defaultMap), None)
  }

  /** The room columns a room form writes: everything but id and ticket, and
      the mode and map only when the request carries them. */
  function ApplyRoomData(room: CustomRoom, userId: int, data: CustomRoomData): CustomRoom {
    room.(roomLabel := data.roomLabel, userId := userId, nbTeams := data.nbTeams,
          maxPlayerPerTeam := data.maxPlayersPerTeam,
          currentGameMode := OrElse(data.gameMode, room.currentGameMode),
          currentMap := OrElse(data.gameMap, room.currentMap))
  }

  function ApplySlotForm(slot: CustomRoomSlot, form: CustomRoomSlotForm): CustomRoomSlot {
    SlotFromForm(slot.id, form)
  }

  // ---------------------------------------------------------------------
  // Row predicates (the `filter` clauses)
  // ---------------------------------------------------------------------

  function HasId(id: int): CustomRoom -> bool { (r: CustomRoom) => r.id == id }
  function OwnedBy(userId: int): CustomRoom -> bool { (r: CustomRoom) => r.userId == userId }
  function HasTicket(ticket: Uuid): CustomRoom -> bool { (r: CustomRoom) => r.matchmakingTicket == Some(ticket) }
  function InRoom(customRoomId: int): CustomRoomSlot -> bool { (s: CustomRoomSlot) => s.customRoomId == customRoomId }
  function OfUser(userId: int): CustomRoomSlot -> bool { (s: CustomRoomSlot) => s.userId == userId }
  function AtPosition(customRoomId: int, team: i32, teamPosition: i32): CustomRoomSlot -> bool {
    (s: CustomRoomSlot) => s.team == team && s.teamPosition == teamPosition && s.customRoomId == customRoomId
  }
  function InRoomAmong(ids: set<int>): CustomRoomSlot -> bool { (s: CustomRoomSlot) => s.customRoomId in ids }
  function IsUser(id: int): User -> bool { (u: User) => u.id == id }

  function RoomIds(rooms: seq<CustomRoom>): set<int> {
    set r | r in rooms :: r.id
  }

  // ---------------------------------------------------------------------
  // Lookups
  // ---------------------------------------------------------------------

  /** `get_without_associations`: the room with that id. */
  function GetWithoutAssociations(rooms: seq<CustomRoom>, id: int): (r: Result<CustomRoom>)
    ensures r.Ok? <==> id in RoomIds(rooms)
    ensures r.Ok? ==> r.value in rooms && r.value.id == id
    ensures r.Err? ==> r.error == NotFound
  {
    match First(rooms, HasId(id))
    case None => Err(NotFound)
    case Some(room) => Ok(room)
  }

  /** `belonging_to(room).load()`: the slots of a room, in table order. */
  function SlotsOf(slots: seq<CustomRoomSlot>, customRoomId: int): (r: seq<CustomRoomSlot>)
    ensures |r| <= |slots|
    ensures forall s :: s in r <==> s in slots && s.customRoomId == customRoomId
  {
    FilterMembership(slots, InRoom(customRoomId));
    Filter(slots, InRoom(customRoomId))
  }

  function WithSlots(rooms: seq<CustomRoom>, slots: seq<CustomRoomSlot>, found: Option<CustomRoom>)
    : Result<(CustomRoom, seq<CustomRoomSlot>)>
  {
    match found
    case None => Err(NotFound)
    case Some(room) => Ok((room, SlotsOf(slots, room.id)))
  }

  /** `get`: the room with that id together with exactly the slots whose
      `custom_room_id` is that id. */
  function Get(rooms: seq<CustomRoom>, slots: seq<CustomRoomSlot>, id: int)
    : (r: Result<(CustomRoom, seq<CustomRoomSlot>)>)
    ensures r.Ok? <==> id in RoomIds(rooms)
    ensures r.Ok? ==> r.value.0 in rooms && r.value.0.id == id
    ensures r.Ok? ==> forall s :: s in r.value.1 <==> s in slots && s.customRoomId == id
    ensures r.Err? ==> r.error == NotFound
  {
    match GetWithoutAssociations(rooms, id)
    case Err(e) => Err(e)
    case Ok(room) => Ok((room, SlotsOf(slots, room.id)))
  }

  /** `get_by_user_id`: the first room the user owns, with its slots. */
  function GetByUserId(rooms: seq<CustomRoom>, slots: seq<CustomRoomSlot>, userId: int)
    : (r: Result<(CustomRoom, seq<CustomRoomSlot>)>)
    ensures r.Ok? <==> exists room :: room in rooms && room.userId == userId
    ensures r.Ok? ==> r.value.0 in rooms && r.value.0.userId == userId
    ensures r.Ok? ==> forall s :: s in r.value.1 <==> s in slots && s.customRoomId == r.value.0.id
    ensures r.Err? ==> r.error == NotFound
  {
    WithSlots(rooms, slots, First(rooms, OwnedBy(userId)))
  }

  /** `get_by_ticket_id`: the first room searching under that ticket, with
      its slots. A room without a ticket never matches. */
  function GetByTicketId(rooms: seq<CustomRoom>, slots: seq<CustomRoomSlot>, ticket: Uuid)
    : (r: Result<(CustomRoom, seq<CustomRoomSlot>)>)
    ensures r.Ok? <==> exists room :: room in rooms && room.matchmakingTicket == Some(ticket)
    ensures r.Ok? ==> r.value.0 in rooms && r.value.0.matchmakingTicket == Some(ticket)
    ensures r.Ok? ==> forall s :: s in r.value.1 <==> s in slots && s.customRoomId == r.value.0.id
    ensures r.Err? ==> r.error == NotFound
  {
    WithSlots(rooms, slots, First(rooms, HasTicket(ticket)))
  }

  /** `get_slot_by_position`: the first slot of that room at (team, position). */
  function GetSlotByPosition(slots: seq<CustomRoomSlot>, customRoomId: int, team: i32, teamPosition: i32)
    : (r: Result<CustomRoomSlot>)
    ensures r.Ok? <==> exists s :: s in slots && s.customRoomId == customRoomId && s.team == team && s.teamPosition == teamPosition
    ensures r.Ok? ==> r.value in slots && r.value.customRoomId == customRoomId &&
                      r.value.team == team && r.value.teamPosition == teamPosition
    ensures r.Err? ==> r.error == NotFound
  {
    match First(slots, AtPosition(customRoomId, team, teamPosition))
    case None => Err(NotFound)
    case Some(s) => Ok(s)
  }

  /** `get_slot_by_user_id`: the first slot that user occupies. */
  function GetSlotByUserId(slots: seq<CustomRoomSlot>, userId: int): (r: Result<CustomRoomSlot>)
    ensures r.Ok? <==> exists s :: s in slots && s.userId == userId
    ensures r.Ok? ==> r.value in slots && r.value.userId == userId
    ensures r.Err? ==> r.error == NotFound
  {
    match First(slots, OfUser(userId))
    case None => Err(NotFound)
    case Some(s) => Ok(s)
  }

  /** One slot paired with each user row that has its user id. */
  function PairsOf(s: CustomRoomSlot, users: seq<User>): (r: seq<(CustomRoomSlot, User)>)
    ensures forall t :: t in r <==> t.0 == s && t.1 in users && t.1.id == s.userId
    ensures |r| == |Filter(users, IsUser(s.userId))|
  {
    var us := Filter(users, IsUser(s.userId));
    FilterMembership(users, IsUser(s.userId));
    var r := seq(|us|, k requires 0 <= k < |us| => (s, us[k]));
    assert forall t :: t in r <==> t.0 == s && t.1 in us by {
      forall t: (CustomRoomSlot, User) | t.0 == s && t.1 in us ensures t in r {
        var k :| 0 <= k < |us| && us[k] == t.1;
        assert r[k] == t;
      }
    }
    r
  }

  /** The inner join of slots with users on the slot's user id, slot by slot. */
  function JoinUsers(slots: seq<CustomRoomSlot>, users: seq<User>): (r: seq<(CustomRoomSlot, User)>)
    ensures forall t :: t in r <==> t.0 in slots && t.1 in users && t.1.id == t.0.userId
  {
    if slots == [] then []
    else
      var n := |slots| - 1;
      assert slots == slots[..n] + [slots[n]];
      JoinUsers(slots[..n], users) + PairsOf(slots[n], users)
  }

  /** `get_with_users`: the room and the (slot, user) pairs of its slots. */
  function GetWithUsers(rooms: seq<CustomRoom>, slots: seq<CustomRoomSlot>, users: seq<User>, id: int)
    : (r: Result<(CustomRoom, seq<(CustomRoomSlot, User)>)>)
    ensures r.Ok? <==> id in RoomIds(rooms)
    ensures r.Ok? ==> r.value.0 in rooms && r.value.0.id == id
    ensures r.Ok? ==> forall t :: t in r.value.1 <==>
                        t.0 in slots && t.0.customRoomId == id && t.1 in users && t.1.id == t.0.userId
    ensures r.Err? ==> r.error == NotFound
  {
    match GetWithoutAssociations(rooms, id)
    case Err(e) => Err(e)
    case Ok(room) => Ok((room, JoinUsers(SlotsOf(slots, id), users)))
  }

  /** Every pair the join produces names the same user twice, so the
      matchmaking roster built from it has one player per joined slot. */
  lemma JoinedRosterKeepsEveryPair(rooms: seq<CustomRoom>, slots: seq<CustomRoomSlot>, users: seq<User>, id: int)
    requires GetWithUsers(rooms, slots, users, id).Ok?
    ensures var tuples := GetWithUsers(rooms, slots, users, id).value.1;
            |Roster(tuples)| == |tuples|
  {
    var tuples := GetWithUsers(rooms, slots, users, id).value.1;
    forall i | 0 <= i < |tuples| ensures Matches(tuples[i]) {
      assert tuples[i] in tuples;
    }
    FilterKeepsAll(tuples, Matches);
    RosterIsFilteredPairs(tuples);
  }

  /** The `users` primary key: no two user rows share an id. */
  predicate UserIdsUnique(users: seq<User>) {
    forall i, j :: 0 <= i < j < |users| ==> users[i].id != users[j].id
  }

  function UserIds(users: seq<User>): set<int> {
    set u | u in users :: u.id
  }

  /** Under the primary key a user id names at most one user row, and
      exactly one when some user has it. */
  lemma {:induction false} OneUserPerId(users: seq<User>, id: int)
    requires UserIdsUnique(users)
    ensures |Filter(users, IsUser(id))| <= 1
    ensures id in UserIds(users) ==> |Filter(users, IsUser(id))| == 1
    decreases |users|
  {
    if users != [] {
      var n := |users| - 1;
      var front := users[..n];
      assert users == front + [users[n]];
      assert UserIdsUnique(front) by {
        forall i, j | 0 <= i < j < |front| ensures front[i].id != front[j].id {
          assert front[i] == users[i] && front[j] == users[j];
        }
      }
      OneUserPerId(front, id);
      if users[n].id == id {
        forall i | 0 <= i < |front| ensures !IsUser(id)(front[i]) {
          assert front[i] == users[i];
        }
        FilterNone(front, IsUser(id));
      } else if id in UserIds(users) {
        var u :| u in users && u.id == id;
        assert u in front;
      }
    }
  }

  /** Under the users key the join yields at most one pair per slot, and
      exactly one per slot when every slot's user exists. */
  lemma {:induction false} JoinHasOnePairPerSlot(slots: seq<CustomRoomSlot>, users: seq<User>)
    requires UserIdsUnique(users)
    ensures |JoinUsers(slots, users)| <= |slots|
    ensures (forall s :: s in slots ==> s.userId in UserIds(users)) ==> |JoinUsers(slots, users)| == |slots|
    decreases |slots|
  {
    if slots != [] {
      var n := |slots| - 1;
      assert slots == slots[..n] + [slots[n]];
      JoinHasOnePairPerSlot(slots[..n], users);
      OneUserPerId(users, slots[n].userId);
    }
  }

  /** The matchmaking roster of a room read with `get_with_users` has at most
      one player per slot of the room, and exactly one per slot when every
      slot's user exists. */
  lemma RosterHasOnePlayerPerSlot(rooms: seq<CustomRoom>, slots: seq<CustomRoomSlot>, users: seq<User>, id: int)
    requires UserIdsUnique(users)
    requires GetWithUsers(rooms, slots, users, id).Ok?
    ensures |Roster(GetWithUsers(rooms, slots, users, id).value.1)| <= |SlotsOf(slots, id)|
    ensures (forall s :: s in SlotsOf(slots, id) ==> s.userId in UserIds(users)) ==>
            |Roster(GetWithUsers(rooms, slots, users, id).value.1)| == |SlotsOf(slots, id)|
  {
    assert GetWithUsers(rooms, slots, users, id).value.1 == JoinUsers(SlotsOf(slots, id), users);
    JoinedRosterKeepsEveryPair(rooms, slots, users, id);
    JoinHasOnePairPerSlot(SlotsOf(slots, id), users);
  }

  // ---------------------------------------------------------------------
  // Row updates
  // ---------------------------------------------------------------------

  /** `update ... set matchmaking_ticket` on the rows with that id. */
  function WithTicket(rooms: seq<CustomRoom>, customRoomId: int, ticket: Option<Uuid>): seq<CustomRoom> {
    seq(|rooms|, i requires 0 <= i < |rooms| =>
      if rooms[i].id == customRoomId then rooms[i].(matchmakingTicket := ticket) else rooms[i])
  }

  /** `update ... set <room form>` on the rows with that id. */
  function WithRoomData(rooms: seq<CustomRoom>, customRoomId: int, userId: int, data: CustomRoomData): seq<CustomRoom> {
    seq(|rooms|, i requires 0 <= i < |rooms| =>
      if rooms[i].id == customRoomId then ApplyRoomData(rooms[i], userId, data) else rooms[i])
  }

  /** `update ... set <slot form>` on every slot of that user. */
  function WithSlotForm(slots: seq<CustomRoomSlot>, userId: int, form: CustomRoomSlotForm): seq<CustomRoomSlot> {
    seq(|slots|, i requires 0 <= i < |slots| =>
      if slots[i].userId == userId then ApplySlotForm(slots[i], form) else slots[i])
  }

  /** `update ... set current_archetype` on every slot of that user. */
  function WithArchetype(slots: seq<CustomRoomSlot>, userId: int, archetype: Archetype): seq<CustomRoomSlot> {
    seq(|slots|, i requires 0 <= i < |slots| =>
      if slots[i].userId == userId then slots[i].(currentArchetype := archetype) else slots[i])
  }

  /** After a ticket update, `get` of that room shows the new ticket and
      nothing else changed; `get` of every other room is unchanged. */
  lemma GetAfterWithTicket(rooms: seq<CustomRoom>, slots: seq<CustomRoomSlot>, customRoomId: int, ticket: Option<Uuid>, id: int)
    ensures Get(WithTicket(rooms, customRoomId, ticket), slots, id) ==
            if id != customRoomId then Get(rooms, slots, id)
            else match Get(rooms, slots, id)
              case Err(e) => Err(e)
              case Ok(found) => Ok((found.0.(matchmakingTicket := ticket), found.1))
  {
    var updated := WithTicket(rooms, customRoomId, ticket);
    FirstIndexAgrees(rooms, updated, HasId(id));
  }

  /** A ticket stored on one room, carried by no other room, leads the
      ticket lookup back to that room. */
  lemma TicketLeadsBackToRoom(rooms: seq<CustomRoom>, slots: seq<CustomRoomSlot>, customRoomId: int, ticket: Uuid)
    requires customRoomId in RoomIds(rooms)
    requires forall r :: r in rooms && r.id != customRoomId ==> r.matchmakingTicket != Some(ticket)
    ensures var found := GetByTicketId(WithTicket(rooms, customRoomId, Some(ticket)), slots, ticket);
            found.Ok? && found.value.0.id == customRoomId
  {
    var updated := WithTicket(rooms, customRoomId, Some(ticket));
    var room :| room in rooms && room.id == customRoomId;
    var i :| 0 <= i < |rooms| && rooms[i] == room;
    assert updated[i].matchmakingTicket == Some(ticket);
    var found := GetByTicketId(updated, slots, ticket);
    var j :| 0 <= j < |updated| && updated[j] == found.value.0;
    assert rooms[j] in rooms;
  }

  /** Clearing a room's ticket takes it out of every ticket lookup. */
  lemma ClearedTicketIsNotFound(rooms: seq<CustomRoom>, slots: seq<CustomRoomSlot>, customRoomId: int, ticket: Uuid)
    ensures var found := GetByTicketId(WithTicket(rooms, customRoomId, None), slots, ticket);
            found.Ok? ==> found.value.0.id != customRoomId
  {
    var updated := WithTicket(rooms, customRoomId, None);
    var found := GetByTicketId(updated, slots, ticket);
    if found.Ok? {
      var j :| 0 <= j < |updated| && updated[j] == found.value.0;
    }
  }

  /** After a room update, `get` of that room shows the form's columns with
      the same id and ticket; every other room is unchanged. */
  lemma GetAfterWithRoomData(rooms: seq<CustomRoom>, slots: seq<CustomRoomSlot>, customRoomId: int, userId: int, data: CustomRoomData, id: int)
    ensures Get(WithRoomData(rooms, customRoomId, userId, data), slots, id) ==
            if id != customRoomId then Get(rooms, slots, id)
            else match Get(rooms, slots, id)
              case Err(e) => Err(e)
              case Ok(found) => Ok((ApplyRoomData(found.0, userId, data), found.1))
  {
    var updated := WithRoomData(rooms, customRoomId, userId, data);
    FirstIndexAgrees(rooms, updated, HasId(id));
  }

  /** After an archetype update, the user's slot lookup shows the new
      archetype at the same place; every other user's lookup is unchanged. */
  lemma SlotLookupAfterWithArchetype(slots: seq<CustomRoomSlot>, userId: int, archetype: Archetype, other: int)
    ensures GetSlotByUserId(WithArchetype(slots, userId, archetype), other) ==
            if other != userId then GetSlotByUserId(slots, other)
            else match GetSlotByUserId(slots, other)
              case Err(e) => Err(e)
              case Ok(s) => Ok(s.(currentArchetype := archetype))
  {
    var updated := WithArchetype(slots, userId, archetype);
    FirstIndexAgrees(slots, updated, OfUser(other));
  }

  /** After deleting a user's slots, that user has none and every other
      user's slot lookup is unchanged. */
  lemma SlotLookupAfterDelete(slots: seq<CustomRoomSlot>, userId: int, other: int)
    ensures GetSlotByUserId(Filter(slots, Not(OfUser(userId))), userId).Err?
    ensures other != userId ==>
            GetSlotByUserId(Filter(slots, Not(OfUser(userId))), other) == GetSlotByUserId(slots, other)
  {
    if other != userId {
      FirstOfFilter(slots, Not(OfUser(userId)), OfUser(other));
    }
  }

  /** A room inserted under a fresh id, and a slot inserted into it, are
      exactly what `get` of that id then returns. */
  lemma GetAfterCreate(rooms: seq<CustomRoom>, slots: seq<CustomRoomSlot>, room: CustomRoom, slot: CustomRoomSlot)
    requires forall r :: r in rooms ==> r.id < room.id
    requires forall s :: s in slots ==> s.customRoomId in RoomIds(rooms)
    requires slot.customRoomId == room.id
    ensures Get(rooms + [room], slots + [slot], room.id) == Ok((room, [slot]))
  {
    var rs := rooms + [room];
    forall j | 0 <= j < |rooms| ensures !HasId(room.id)(rs[j]) {
      assert rs[j] == rooms[j] && rooms[j] in rooms;
    }
    assert rs[|rooms|] == room && HasId(room.id)(rs[|rooms|]);
    assert FirstIndex(rs, HasId(room.id)) == Some(|rooms|);
    forall j | 0 <= j < |slots| ensures !InRoom(room.id)(slots[j]) {
      assert slots[j] in slots;
    }
    FilterNone(slots, InRoom(room.id));
    FilterSnoc(slots, slot, InRoom(room.id));
    assert First(rs, HasId(room.id)) == Some(room);
    assert GetWithoutAssociations(rs, room.id) == Ok(room);
    assert SlotsOf(slots + [slot], room.id) == [slot];
  }

  lemma MaxRoomIdAfterInsert(rooms: seq<CustomRoom>, room: CustomRoom)
    requires forall r :: r in rooms ==> r.id < room.id
    ensures MaxRoomId(rooms + [room]) == room.id
  {
    assert room in rooms + [room];
    assert forall r :: r in rooms + [room] ==> r in rooms || r == room;
  }

  /** The greatest room id, which `order(id.desc()).first()` selects. */
  function MaxRoomId(rooms: seq<CustomRoom>): (m: int)
    requires rooms != []
    ensures m in RoomIds(rooms)
    ensures forall r :: r in rooms ==> r.id <= m
  {
    var n := |rooms| - 1;
    assert rooms == rooms[..n] + [rooms[n]];
    if n == 0 then rooms[0].id
    else
      var m := MaxRoomId(rooms[..n]);
      if rooms[n].id > m then rooms[n].id else m
  }

  // ---------------------------------------------------------------------
  // The tables
  // ---------------------------------------------------------------------

  /** Ids come from their sequences, no two rows share an id, and every
      slot names an existing room (the foreign key). */
  ghost predicate TablesValid(rooms: seq<CustomRoom>, slots: seq<CustomRoomSlot>, nextRoomId: int, nextSlotId: int) {
    && (forall r :: r in rooms ==> r.id < nextRoomId)
    && (forall r, r' :: r in rooms && r' in rooms && r.id == r'.id ==> r == r')
    && (forall s :: s in slots ==> s.id < nextSlotId)
    && (forall s, s' :: s in slots && s' in slots && s.id == s'.id ==> s == s')
    && (forall s :: s in slots ==> s.customRoomId in RoomIds(rooms))
  }

  /** Inserting a room under a fresh id keeps the tables valid. */
  lemma ValidAfterRoomInsert(rooms: seq<CustomRoom>, slots: seq<CustomRoomSlot>, nextRoomId: int, nextSlotId: int,
                             room: CustomRoom)
    requires TablesValid(rooms, slots, nextRoomId, nextSlotId)
    requires room.id == nextRoomId
    ensures TablesValid(rooms + [room], slots, nextRoomId + 1, nextSlotId)
  {
    var rs := rooms + [room];
    assert forall x :: x in rs ==> x in rooms || x == room;
    assert RoomIds(rooms) <= RoomIds(rs);
  }

  /** Inserting a slot under a fresh id into an existing room keeps the
      tables valid. */
  lemma ValidAfterSlotInsert(rooms: seq<CustomRoom>, slots: seq<CustomRoomSlot>, nextRoomId: int, nextSlotId: int,
                             slot: CustomRoomSlot)
    requires TablesValid(rooms, slots, nextRoomId, nextSlotId)
    requires slot.id == nextSlotId && slot.customRoomId in RoomIds(rooms)
    ensures TablesValid(rooms, slots + [slot], nextRoomId, nextSlotId + 1)
  {
    var ss := slots + [slot];
    assert forall x :: x in ss ==> x in slots || x == slot;
  }

  /** Rewriting room rows in place without touching their ids keeps the
      tables valid. */
  lemma ValidAfterRoomRewrite(before: seq<CustomRoom>, after: seq<CustomRoom>, slots: seq<CustomRoomSlot>,
                              nextRoomId: int, nextSlotId: int)
    requires TablesValid(before, slots, nextRoomId, nextSlotId)
    requires |after| == |before|
    requires forall i :: 0 <= i < |after| ==> after[i].id == before[i].id
    requires forall i, j :: 0 <= i < |after| && 0 <= j < |after| && before[i] == before[j] ==> after[i] == after[j]
    ensures TablesValid(after, slots, nextRoomId, nextSlotId)
  {
    assert RoomIds(after) == RoomIds(before) by {
      forall x | x in RoomIds(before) ensures x in RoomIds(after) {
        var r :| r in before && r.id == x;
        var i :| 0 <= i < |before| && before[i] == r;
        assert after[i] in after;
      }
      forall x | x in RoomIds(after) ensures x in RoomIds(before) {
        var r :| r in after && r.id == x;
        var i :| 0 <= i < |after| && after[i] == r;
        assert before[i] in before;
      }
    }
    forall r, r' | r in after && r' in after && r.id == r'.id ensures r == r' {
      var i :| 0 <= i < |after| && after[i] == r;
      var j :| 0 <= j < |after| && after[j] == r';
      assert before[i] in before && before[j] in before;
    }
    forall r | r in after ensures r.id < nextRoomId {
      var i :| 0 <= i < |after| && after[i] == r;
      assert before[i] in before;
    }
  }

  /** Rewriting slot rows in place without touching their ids, moving them
      only into existing rooms, keeps the tables valid. */
  lemma ValidAfterSlotRewrite(rooms: seq<CustomRoom>, before: seq<CustomRoomSlot>, after: seq<CustomRoomSlot>,
                              nextRoomId: int, nextSlotId: int)
    requires TablesValid(rooms, before, nextRoomId, nextSlotId)
    requires |after| == |before|
    requires forall i :: 0 <= i < |after| ==> after[i].id == before[i].id
    requires forall i :: 0 <= i < |after| ==> after[i] == before[i] || after[i].customRoomId in RoomIds(rooms)
    requires forall i, j :: 0 <= i < |after| && 0 <= j < |after| && before[i] == before[j] ==> after[i] == after[j]
    ensures TablesValid(rooms, after, nextRoomId, nextSlotId)
  {
    forall s, s' | s in after && s' in after && s.id == s'.id ensures s == s' {
      var i :| 0 <= i < |after| && after[i] == s;
      var j :| 0 <= j < |after| && after[j] == s';
      assert before[i] in before && before[j] in before;
    }
    forall s | s in after ensures s.id < nextSlotId && s.customRoomId in RoomIds(rooms) {
      var i :| 0 <= i < |after| && after[i] == s;
      assert before[i] in before;
    }
  }

  /** Deleting rows, and every slot whose room is gone, keeps the tables valid. */
  lemma ValidAfterDelete(rooms: seq<CustomRoom>, slots: seq<CustomRoomSlot>, nextRoomId: int, nextSlotId: int,
                         newRooms: seq<CustomRoom>, newSlots: seq<CustomRoomSlot>)
    requires TablesValid(rooms, slots, nextRoomId, nextSlotId)
    requires forall i :: 0 <= i < |newRooms| ==> newRooms[i] in rooms
    requires forall i :: 0 <= i < |newSlots| ==> newSlots[i] in slots && newSlots[i].customRoomId in RoomIds(newRooms)
    ensures TablesValid(newRooms, newSlots, nextRoomId, nextSlotId)
  {
    forall r | r in newRooms ensures r in rooms {
      var i :| 0 <= i < |newRooms| && newRooms[i] == r;
    }
    forall s | s in newSlots ensures s in slots && s.customRoomId in RoomIds(newRooms) {
      var i :| 0 <= i < |newSlots| && newSlots[i] == s;
    }
  }

  /** The effect of `create` on valid tables: the inserted room has the
      greatest id, the tables stay valid, and `get` finds the room with
      exactly the owner's slot. */
  lemma CreateCommits(rooms: seq<CustomRoom>, slots: seq<CustomRoomSlot>, nextRoomId: int, nextSlotId: int,
                      room: CustomRoom, slot: CustomRoomSlot)
    requires TablesValid(rooms, slots, nextRoomId, nextSlotId)
    requires room.id == nextRoomId && slot.id == nextSlotId && slot.customRoomId == nextRoomId
    ensures MaxRoomId(rooms + [room]) == nextRoomId
    ensures TablesValid(rooms + [room], slots + [slot], nextRoomId + 1, nextSlotId + 1)
    ensures Get(rooms + [room], slots + [slot], nextRoomId) == Ok((room, [slot]))
  {
    MaxRoomIdAfterInsert(rooms, room);
    ValidAfterRoomInsert(rooms, slots, nextRoomId, nextSlotId, room);
    assert room.id in RoomIds(rooms + [room]) by { assert room in rooms + [room]; }
    ValidAfterSlotInsert(rooms + [room], slots, nextRoomId + 1, nextSlotId, slot);
    GetAfterCreate(rooms, slots, room, slot);
  }

  class Store {
    var rooms: seq<CustomRoom>
    var slots: seq<CustomRoomSlot>
    /** Read only: the core never writes users. */
    var users: seq<User>
    /** The next values of the two `serial` id sequences. */
    var nextRoomId: int
    var nextSlotId: int

    ghost predicate Valid()
      reads this
    {
      TablesValid(rooms, slots, nextRoomId, nextSlotId) && UserIdsUnique(users)
    }

    constructor (users: seq<User>)
      requires UserIdsUnique(users)
      ensures Valid()
      ensures rooms == [] && slots == [] && this.users == users
    {
      rooms, slots := [], [];
      this.users := users;
      nextRoomId, nextSlotId := 1, 1;
    }

    /** `create`, one transaction: insert a room owned by the caller, read
        back the greatest room id, insert the caller's slot at team 0,
        position 0 in it, and return that room with its slots. A request
        without a mode or a map stores `defaultMode` or `defaultMap`. */
    method Create(userId: int, data: CustomRoomData, ownerArchetype: Archetype,
                  defaultMode: GameMode, defaultMap: MapName)
      returns (r: Result<(CustomRoom, seq<CustomRoomSlot>)>)
      requires Valid()
      modifies this
      ensures Valid() && users == old(users)
      ensures nextRoomId == old(nextRoomId) + 1 && nextSlotId == old(nextSlotId) + 1
      ensures var room := NewRoom(old(nextRoomId), userId, data, defaultMode, defaultMap);
              var slot := CustomRoomSlot(old(nextSlotId), room.id, 0, 0, userId, ownerArchetype);
              && rooms == old(rooms) + [room]
              && slots == old(slots) + [slot]
              && r == Ok((room, [slot]))
    {
      var room := NewRoom(nextRoomId, userId, data, defaultMode, defaultMap);
      CreateCommits(rooms, slots, nextRoomId, nextSlotId, room,
                    SlotFromForm(nextSlotId, NewFromCustomRoomCreation(nextRoomId, userId, ownerArchetype)));
      var withRoom := rooms + [room];
      var customRoomId := MaxRoomId(withRoom);
      var slot := SlotFromForm(nextSlotId, NewFromCustomRoomCreation(customRoomId, userId, ownerArchetype));
      var withSlot := slots + [slot];
      r := Get(withRoom, withSlot, customRoomId);
      rooms, slots := withRoom, withSlot;
      nextRoomId, nextSlotId := nextRoomId + 1, nextSlotId + 1;
    }

    /** `update`: overwrite the form's columns of the room with that id (its
        owner becomes the caller; an absent mode or map leaves that column
        as it was), then `get` it. */
    method Update(userId: int, customRoomId: int, data: CustomRoomData)
      returns (r: Result<(CustomRoom, seq<CustomRoomSlot>)>)
      requires Valid()
      modifies this
      ensures Valid()
      ensures rooms == WithRoomData(old(rooms), customRoomId, userId, data)
      ensures slots == old(slots) && users == old(users)
      ensures nextRoomId == old(nextRoomId) && nextSlotId == old(nextSlotId)
      ensures r == Get(rooms, slots, customRoomId)
    {
      var updated := WithRoomData(rooms, customRoomId, userId, data);
      ValidAfterRoomRewrite(rooms, updated, slots, nextRoomId, nextSlotId);
      r := Get(updated, slots, customRoomId);
      rooms := updated;
    }

    /** `update_ticket`: set (or with `None` clear) the ticket of the room
        with that id; nothing else changes. */
    method UpdateTicket(customRoomId: int, ticket: Option<Uuid>)
      requires Valid()
      modifies this
      ensures Valid()
      ensures rooms == WithTicket(old(rooms), customRoomId, ticket)
      ensures slots == old(slots) && users == old(users)
      ensures nextRoomId == old(nextRoomId) && nextSlotId == old(nextSlotId)
    {
      var updated := WithTicket(rooms, customRoomId, ticket);
      ValidAfterRoomRewrite(rooms, updated, slots, nextRoomId, nextSlotId);
      rooms := updated;
    }

    /** `delete`: remove every room the user owns; the foreign key cascades
        to their slots. Returns the number of rooms removed. */
    method Delete(userId: int) returns (count: nat)
      requires Valid()
      modifies this
      ensures Valid()
      ensures rooms == Filter(old(rooms), Not(OwnedBy(userId)))
      ensures slots == Filter(old(slots), InRoomAmong(RoomIds(rooms)))
      ensures count == |Filter(old(rooms), OwnedBy(userId))|
      ensures users == old(users) && nextRoomId == old(nextRoomId) && nextSlotId == old(nextSlotId)
    {
      var kept := Filter(rooms, Not(OwnedBy(userId)));
      var keptSlots := Filter(slots, InRoomAmong(RoomIds(kept)));
      FilterPartition(rooms, OwnedBy(userId));
      ValidAfterDelete(rooms, slots, nextRoomId, nextSlotId, kept, keptSlots);
      count := |rooms| - |kept|;
      rooms, slots := kept, keptSlots;
    }

    /** `create_slot`: insert the form's slot, then `get` its room. A form
        naming a missing room violates the foreign key and inserts nothing,
        but the slot id the insert drew from the sequence stays used. */
    method CreateSlot(form: CustomRoomSlotForm) returns (r: Result<(CustomRoom, seq<CustomRoomSlot>)>)
      requires Valid()
      modifies this
      ensures Valid()
      ensures rooms == old(rooms) && users == old(users) && nextRoomId == old(nextRoomId)
      ensures form.customRoomId !in RoomIds(rooms) ==>
                r == Err(ForeignKeyViolation) && slots == old(slots)
      ensures nextSlotId == old(nextSlotId) + 1
      ensures form.customRoomId in RoomIds(rooms) ==>
                && slots == old(slots) + [SlotFromForm(old(nextSlotId), form)]
                && r == Get(rooms, slots, form.customRoomId)
                && r.Ok?
    {
      if form.customRoomId !in RoomIds(rooms) {
        nextSlotId := nextSlotId + 1;
        return Err(ForeignKeyViolation);
      }
      var slot := SlotFromForm(nextSlotId, form);
      ValidAfterSlotInsert(rooms, slots, nextRoomId, nextSlotId, slot);
      slots, nextSlotId := slots + [slot], nextSlotId + 1;
      r := Get(rooms, slots, form.customRoomId);
    }

    /** `update_slot`, one transaction: overwrite every slot of the user with
        the form, then `get` the form's room. If a slot would be moved to a
        missing room, the foreign key rolls the transaction back. */
    method UpdateSlot(userId: int, form: CustomRoomSlotForm) returns (r: Result<(CustomRoom, seq<CustomRoomSlot>)>)
      requires Valid()
      modifies this
      ensures Valid()
      ensures rooms == old(rooms) && users == old(users)
      ensures nextRoomId == old(nextRoomId) && nextSlotId == old(nextSlotId)
      ensures (exists s :: s in old(slots) && s.userId == userId) && form.customRoomId !in RoomIds(rooms) ==>
                r == Err(ForeignKeyViolation) && slots == old(slots)
      ensures !((exists s :: s in old(slots) && s.userId == userId) && form.customRoomId !in RoomIds(rooms)) ==>
                slots == WithSlotForm(old(slots), userId, form) && r == Get(rooms, slots, form.customRoomId)
    {
      // The `for_update` read of the room's slots only takes row locks.
      var touched := First(slots, OfUser(userId)).Some?;
      if touched && form.customRoomId !in RoomIds(rooms) {
        return Err(ForeignKeyViolation);
      }
      var updated := WithSlotForm(slots, userId, form);
      ValidAfterSlotRewrite(rooms, slots, updated, nextRoomId, nextSlotId);
      r := Get(rooms, updated, form.customRoomId);
      slots := updated;
    }

    /** `update_slot_archetype`: set the archetype of every slot of the user,
        then `get` the given room. */
    method UpdateSlotArchetype(userId: int, customRoomId: int, archetype: Archetype)
      returns (r: Result<(CustomRoom, seq<CustomRoomSlot>)>)
      requires Valid()
      modifies this
      ensures Valid()
      ensures slots == WithArchetype(old(slots), userId, archetype)
      ensures rooms == old(rooms) && users == old(users)
      ensures nextRoomId == old(nextRoomId) && nextSlotId == old(nextSlotId)
      ensures r == Get(rooms, slots, customRoomId)
    {
      var updated := WithArchetype(slots, userId, archetype);
      ValidAfterSlotRewrite(rooms, slots, updated, nextRoomId, nextSlotId);
      r := Get(rooms, updated, customRoomId);
      slots := updated;
    }

    /** `delete_slot_by_user_id`: remove every slot of the user and no other,
        then `get` the given room. */
    method DeleteSlotByUserId(customRoomId: int, userId: int)
      returns (r: Result<(CustomRoom, seq<CustomRoomSlot>)>)
      requires Valid()
      modifies this
      ensures Valid()
      ensures slots == Filter(old(slots), Not(OfUser(userId)))
      ensures rooms == old(rooms) && users == old(users)
      ensures nextRoomId == old(nextRoomId) && nextSlotId == old(nextSlotId)
      ensures r == Get(rooms, slots, customRoomId)
    {
      var kept := Filter(slots, Not(OfUser(userId)));
      forall i | 0 <= i < |rooms| ensures rooms[i] in rooms { }
      forall i | 0 <= i < |kept| ensures kept[i].customRoomId in RoomIds(rooms) {
        assert kept[i] in slots;
      }
      ValidAfterDelete(rooms, slots, nextRoomId, nextSlotId, rooms, kept);
      r := Get(rooms, kept, customRoomId);
      slots := kept;
    }

    /** `get_all`: every room mapped to its slots. */
    method GetAll() returns (result: map<CustomRoom, seq<CustomRoomSlot>>)
      ensures result.Keys == set r | r in rooms
      ensures forall room :: room in result ==> result[room] == SlotsOf(slots, room.id)
    {
      result := map[];
      var i := 0;
      while i < |rooms|
        invariant 0 <= i <= |rooms|
        invariant result.Keys == set k | 0 <= k < i :: rooms[k]
        invariant forall room :: room in result ==> result[room] == SlotsOf(slots, room.id)
      {
        result := result[rooms[i] := SlotsOf(slots, rooms[i].id)];
        i := i + 1;
      }
      assert forall r :: r in rooms ==> exists k :: 0 <= k < |rooms| && rooms[k] == r;
    }
  }
}
