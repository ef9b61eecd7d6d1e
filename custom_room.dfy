/** The custom-room records and the computations the room and slot records
    carry themselves: capacity, slot-coordinate validity, the matchmaking
    attributes of a slot and the matchmaking request built from a roster. */
module CustomRoomModel {
  import opened Query
  import Decimal

  /** Rust's `i32`. The team count, the team size and slot coordinates are
      `i32` columns; they are the only ones the core does arithmetic on. */
  type i32 = x: int | -0x8000_0000 <= x < 0x8000_0000

  /** Rust's `u32`, the range of an archetype code. */
  type u32 = x: int | 0 <= x < 0x1_0000_0000

  const I32Max: int := 0x7FFF_FFFF

  /** A game map, known here by the text that its `to_string` produces. */
  type MapName = string

  /** A game mode selector; the core only stores it. */
  type GameMode = string

  /** An archetype (a role), known here by its `to_u32` code. */
  datatype Archetype = Archetype(code: u32)

  /** A matchmaking ticket UUID, known here by its canonical text, so that
      its `to_string` is that text. */
  type Uuid = string

  /** A row of `custom_rooms`. Identifiers are unbounded here. */
  datatype CustomRoom = CustomRoom(
    id: int,
    roomLabel: string,
    userId: int,
    nbTeams: i32,
    maxPlayerPerTeam: i32,
    currentGameMode: GameMode,
    currentMap: MapName,
    matchmakingTicket: Option<Uuid>)

  /** A row of `custom_room_slots`. */
  datatype CustomRoomSlot = CustomRoomSlot(
    id: int,
    customRoomId: int,
    team: i32,
    teamPosition: i32,
    userId: int,
    currentArchetype: Archetype)

  /** The columns of `users` that the core reads. */
  datatype User = User(id: int, nickname: string)

  // ---------------------------------------------------------------------
  // Capacity
  // ---------------------------------------------------------------------

  /** An `i32` multiplication of a release build: the product modulo 2^32,
      read back as a signed value. */
  function WrapI32(x: int): i32 {
    (x + 0x8000_0000) % 0x1_0000_0000 - 0x8000_0000
  }

  /** `as usize` on a 64-bit target: a negative `i32` is sign-extended. */
  function I32AsUsize(x: i32): nat {
    if x >= 0 then x else x + 0x1_0000_0000_0000_0000
  }

  /** `CustomRoom::get_capacity`: teams times players per team, computed in
      `i32` and cast to `usize`. */
  function GetCapacity(room: CustomRoom): nat {
    I32AsUsize(WrapI32(room.nbTeams * room.maxPlayerPerTeam))
  }

  /** When the product fits in an `i32`, the capacity is exactly the number
      of teams times the number of players per team. */
  lemma CapacityIsProduct(room: CustomRoom)
    requires 0 <= room.nbTeams && 0 <= room.maxPlayerPerTeam
    requires room.nbTeams * room.maxPlayerPerTeam <= I32Max
    ensures GetCapacity(room) == room.nbTeams * room.maxPlayerPerTeam
  {
    var a: nat, b: nat := room.nbTeams, room.maxPlayerPerTeam;
    var p := a * b;
    assert p >= 0;
    WrapI32Identity(p);
  }

  lemma WrapI32Identity(x: int)
    requires -0x8000_0000 <= x <= I32Max
    ensures WrapI32(x) == x
  {
    assert 0 <= x + 0x8000_0000 < 0x1_0000_0000;
  }

  /** Whatever the operands, the capacity agrees with the mathematical product
      in its low 32 bits. */
  lemma CapacityAgreesModulo32Bits(room: CustomRoom)
    ensures GetCapacity(room) % 0x1_0000_0000 == (room.nbTeams * room.maxPlayerPerTeam) % 0x1_0000_0000
  {
    var p := room.nbTeams * room.maxPlayerPerTeam;
    var w := WrapI32(p);
    var q := (p + 0x8000_0000) / 0x1_0000_0000;
    assert p + 0x8000_0000 == q * 0x1_0000_0000 + (p + 0x8000_0000) % 0x1_0000_0000;
    assert w == p - q * 0x1_0000_0000;
    ModuloShift(p, -q);
    if w < 0 {
      ModuloShift(w, 0x1_0000_0000);
    }
  }

  lemma ModuloShift(x: int, k: int)
    ensures (x + k * 0x1_0000_0000) % 0x1_0000_0000 == x % 0x1_0000_0000
  {
  }

  /** The product is not checked: 65536 teams of 65536 players wrap to a
      capacity of zero. */
  lemma CapacityWrapsAround(room: CustomRoom)
    requires room.nbTeams == 0x1_0000 && room.maxPlayerPerTeam == 0x1_0000
    ensures GetCapacity(room) == 0
  {
  }

  // ---------------------------------------------------------------------
  // Slot coordinates
  // ---------------------------------------------------------------------

  /** `CustomRoom::is_valid_slot`: an upper-bound check on both coordinates;
      there is no lower-bound check. */
  predicate IsValidSlot(room: CustomRoom, team: i32, teamPosition: i32) {
    team < room.nbTeams && teamPosition < room.maxPlayerPerTeam
  }

  lemma MulMonotone(a: int, b: int, c: nat)
    requires a <= b
    ensures a * c <= b * c
  {
  }

  /** For non-negative coordinates the check is exactly "the row-major index
      of the slot is below the capacity". */
  lemma {:induction false} ValidSlotIffWithinCapacity(room: CustomRoom, team: i32, teamPosition: i32)
    requires 0 <= room.nbTeams && room.nbTeams * room.maxPlayerPerTeam <= I32Max
    requires 0 <= team && 0 <= teamPosition < room.maxPlayerPerTeam
    ensures IsValidSlot(room, team, teamPosition) <==>
            team * room.maxPlayerPerTeam + teamPosition < GetCapacity(room)
  {
    var m: nat := room.maxPlayerPerTeam;
    CapacityIsProduct(room);
    if team < room.nbTeams {
      MulMonotone(team + 1, room.nbTeams, m);
    } else {
      MulMonotone(room.nbTeams, team, m);
    }
  }

  /** Negative coordinates pass the check in every room that has a team. */
  lemma ValidSlotHasNoLowerBound(room: CustomRoom, team: i32, teamPosition: i32)
    requires 1 <= room.nbTeams && 1 <= room.maxPlayerPerTeam
    requires team < 0 && teamPosition < 0
    ensures IsValidSlot(room, team, teamPosition)
  {
  }

  // ---------------------------------------------------------------------
  // Matchmaking attributes and request
  // ---------------------------------------------------------------------

  /** A GameLift attribute value: a string, a number, a string-to-number map
      or a string list, of which the core sets exactly one. Numbers are
      integers here (the source converts them to `f64`). */
  datatype AttributeValue = AttributeValue(
    s: Option<string>,
    n: Option<int>,
    sdm: Option<map<string, int>>,
    sl: Option<seq<string>>)

  function NumberAttribute(x: int): AttributeValue {
    AttributeValue(None, Some(x), None, None)
  }

  function StringAttribute(x: string): AttributeValue {
    AttributeValue(Some(x), None, None, None)
  }

  /** The attribute map of a slot, as `get_gamelift_attributes` fills it. */
  function GameliftAttributes(slot: CustomRoomSlot, nickname: string): map<string, AttributeValue> {
    map[
      "team" := NumberAttribute(slot.team),
      "team_position" := NumberAttribute(slot.teamPosition),
      "archetype" := NumberAttribute(slot.currentArchetype.code),
      "nickname" := StringAttribute(nickname)]
  }

  /** `CustomRoomSlot::get_gamelift_attributes`: four keys, three numbers
      taken from the slot and the nickname as a string. */
  method GetGameliftAttributes(slot: CustomRoomSlot, nickname: string)
    returns (attributes: map<string, AttributeValue>)
    ensures attributes.Keys == {"team", "team_position", "archetype", "nickname"}
    ensures attributes["team"] == NumberAttribute(slot.team)
    ensures attributes["team_position"] == NumberAttribute(slot.teamPosition)
    ensures attributes["archetype"] == NumberAttribute(slot.currentArchetype.code)
    ensures attributes["nickname"] == StringAttribute(nickname)
    ensures attributes == GameliftAttributes(slot, nickname)
  {
    attributes := map[];
    attributes := attributes["team" := NumberAttribute(slot.team)];
    attributes := attributes["team_position" := NumberAttribute(slot.teamPosition)];
    attributes := attributes["archetype" := NumberAttribute(slot.currentArchetype.code)];
    attributes := attributes["nickname" := StringAttribute(nickname)];
  }

  /** A GameLift player entry; latency is never set by the core. */
  datatype Player = Player(
    latencyInMs: Option<map<string, int>>,
    playerAttributes: Option<map<string, AttributeValue>>,
    playerId: Option<string>,
    team: Option<string>)

  /** A GameLift StartMatchmaking request. */
  datatype StartMatchmakingInput = StartMatchmakingInput(
    configurationName: string,
    players: seq<Player>,
    ticketId: Option<string>)

  /** A (slot, user) pair describes a player only when both name the same user. */
  predicate Matches(t: (CustomRoomSlot, User)) {
    t.1.id == t.0.userId
  }

  /** The player entry built for a slot and its user. */
  function PlayerOf(t: (CustomRoomSlot, User)): Player {
    Player(None, Some(GameliftAttributes(t.0, t.1.nickname)),
           Some(Decimal.IntToString(t.0.userId)), Some(Decimal.IntToString(t.0.team)))
  }

  /** The players of a roster: one per matching pair, in input order. */
  function Roster(tuples: seq<(CustomRoomSlot, User)>): seq<Player> {
    if tuples == [] then []
    else
      var n := |tuples| - 1;
      Roster(tuples[..n]) + (if Matches(tuples[n]) then [PlayerOf(tuples[n])] else [])
  }

  /** A roster of two parts is the roster of the first followed by that of
      the second: players keep the order of their pairs. */
  lemma {:induction false} RosterConcat(a: seq<(CustomRoomSlot, User)>, b: seq<(CustomRoomSlot, User)>)
    ensures Roster(a + b) == Roster(a) + Roster(b)
    decreases |b|
  {
    if b == [] {
      assert a + b == a;
    } else {
      var n := |b| - 1;
      assert (a + b)[..|a + b| - 1] == a + b[..n];
      assert (a + b)[|a + b| - 1] == b[n];
      RosterConcat(a, b[..n]);
    }
  }

  /** The roster has one player per matching pair and no other: its length
      counts the matching pairs, bounded by the number of pairs. */
  lemma {:induction false} RosterIsFilteredPairs(tuples: seq<(CustomRoomSlot, User)>)
    ensures var m := Filter(tuples, Matches);
            |Roster(tuples)| == |m| <= |tuples| &&
            forall k :: 0 <= k < |m| ==> Roster(tuples)[k] == PlayerOf(m[k])
    decreases |tuples|
  {
    if tuples != [] {
      var n := |tuples| - 1;
      RosterIsFilteredPairs(tuples[..n]);
    }
  }

  /** Every player names the slot's user and team, and carries the slot's
      attributes with the user's nickname. */
  lemma {:induction false} RosterPlayersComeFromMatchingPairs(tuples: seq<(CustomRoomSlot, User)>, p: Player)
    requires p in Roster(tuples)
    ensures exists t :: (t in tuples && Matches(t) &&
                         p.playerId == Some(Decimal.IntToString(t.0.userId)) &&
                         p.team == Some(Decimal.IntToString(t.0.team)) &&
                         p.playerAttributes == Some(GameliftAttributes(t.0, t.1.nickname)) &&
                         p.latencyInMs.None?)
    decreases |tuples|
  {
    var n := |tuples| - 1;
    var front := tuples[..n];
    if p in Roster(front) {
      RosterPlayersComeFromMatchingPairs(front, p);
      var t :| t in front && Matches(t) && p == PlayerOf(t);
      assert t in tuples;
    } else {
      assert tuples[n] in tuples;
    }
  }

  /** A player's id is the decimal text of exactly one user id. */
  lemma PlayerIdIdentifiesUser(t: (CustomRoomSlot, User), u: (CustomRoomSlot, User))
    ensures PlayerOf(t).playerId == PlayerOf(u).playerId <==> t.0.userId == u.0.userId
  {
    Decimal.IntToStringInjective(t.0.userId, u.0.userId);
  }

  /** `CustomRoom::get_start_matchmaking_input`: the request names the room's
      map as its configuration, carries the given ticket, and lists one player
      per pair whose ids agree, in input order. */
  method GetStartMatchmakingInput(room: CustomRoom, tuples: seq<(CustomRoomSlot, User)>, ticketId: Uuid)
    returns (input: StartMatchmakingInput)
    ensures input.configurationName == room.currentMap
    ensures input.ticketId == Some(ticketId)
    ensures input.players == Roster(tuples)
    ensures |input.players| <= |tuples|
  {
    var players: seq<Player> := [];
    var i := 0;
    while i < |tuples|
      invariant 0 <= i <= |tuples|
      invariant players == Roster(tuples[..i])
    {
      var (slot, user) := tuples[i];
      assert tuples[..i + 1][..i] == tuples[..i];
      if user.id == slot.userId {
        var attributes := GetGameliftAttributes(slot, user.nickname);
        players := players + [Player(None, Some(attributes),
                                     Some(Decimal.IntToString(slot.userId)),
                                     Some(Decimal.IntToString(slot.team)))];
      }
      i := i + 1;
    }
    assert tuples[..i] == tuples;
    RosterIsFilteredPairs(tuples);
    input := StartMatchmakingInput(room.currentMap, players, Some(ticketId));
  }
}
