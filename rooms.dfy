/**
 * The HTTP room registry: an in-memory map from room id to its metadata,
 * with the handlers that create a room, describe it and check its access code.
 */
module RoomRegistry {
  import opened Wrappers

  type RoomId = string

  /** The metadata stored per room: `{ code, mode, createdAt }`; a `null` code is `None`. */
  datatype RoomInfo = RoomInfo(code: Option<string>, mode: string, createdAt: int)

  /** The error statuses the handlers answer with: 400, 404 and 403. */
  datatype HttpError = BadRequest | NotFound | Forbidden

  datatype Result<+T> = Ok(value: T) | Err(error: HttpError)

  /** The body of a successful room-info reply. */
  datatype InfoReply = InfoReply(requiresCode: bool, mode: string)

  const DefaultMode: string := "practice"

  /** `code || null`: an absent or empty code is stored as no code. */
  function StoredCode(code: Option<string>): (c: Option<string>)
    ensures c.None? <==> !Truthy(code)
    ensures c.Some? ==> c == code && c.value != ""
  {
    if Truthy(code) then code else None
  }

  /** `mode || 'practice'`: an absent or empty mode falls back to the default. */
  function StoredMode(mode: Option<string>): (m: string)
    ensures m != ""
    ensures Truthy(mode) ==> m == mode.value
    ensures !Truthy(mode) ==> m == DefaultMode
  {
    if Truthy(mode) then mode.value else DefaultMode
  }

  class RoomStore {
    var rooms: map<RoomId, RoomInfo>

    /** Every stored entry was written by CreateRoom: non-empty key, code null or non-empty, mode non-empty. */
    ghost predicate Valid()
      reads this
    {
      forall r :: r in rooms ==> r != "" && rooms[r].code != Some("") && rooms[r].mode != ""
    }

    constructor ()
      ensures Valid() && rooms == map[]
    {
      rooms := map[];
    }

    /**
     * POST /create-room. A missing or empty room is refused with 400 and changes nothing;
     * otherwise the room's entry is replaced wholesale and every other entry is kept.
     */
    method CreateRoom(room: Option<RoomId>, code: Option<string>, mode: Option<string>, now: int)
      returns (res: Result<RoomId>)
      requires Valid()
      modifies this
      ensures Valid()
      ensures !Truthy(room) ==> res == Err(BadRequest) && rooms == old(rooms)
      ensures Truthy(room) ==> res == Ok(room.value)
      ensures Truthy(room) ==> rooms.Keys == old(rooms).Keys + {room.value}
      ensures Truthy(room) ==> rooms[room.value] == RoomInfo(StoredCode(code), StoredMode(mode), now)
      ensures forall r :: r in old(rooms) && room != Some(r) ==> r in rooms && rooms[r] == old(rooms)[r]
    {
      if !Truthy(room) {
        return Err(BadRequest);
      }
      rooms := rooms[room.value := RoomInfo(StoredCode(code), StoredMode(mode), now)];
      res := Ok(room.value);
    }

    /**
     * GET /room-info. 400 without a room, 404 for an unknown room, otherwise whether the
     * room has a code and its mode.
     */
    function Info(room: Option<RoomId>): (r: Result<InfoReply>)
      reads this
      requires Valid()
      ensures r == Err(BadRequest) <==> !Truthy(room)
      ensures r == Err(NotFound) <==> Truthy(room) && room.value !in rooms
      ensures r.Ok? <==> Truthy(room) && room.value in rooms
      ensures r.Ok? ==> r.value.requiresCode == rooms[room.value].code.Some?
      ensures r.Ok? ==> r.value.mode == rooms[room.value].mode
    {
      if !Truthy(room) then Err(BadRequest)
      else if room.value !in rooms then Err(NotFound)
      else
        var info := rooms[room.value];
        Ok(InfoReply(Truthy(info.code), info.mode))
    }

    /**
     * POST /validate-room. Checked in order: 400 without a room, 404 for an unknown room,
     * 403 exactly when the room has a code and the supplied one is not identical to it.
     */
    function Validate(room: Option<RoomId>, code: Option<string>): (r: Result<()>)
      reads this
      requires Valid()
      ensures r == Err(BadRequest) <==> !Truthy(room)
      ensures r == Err(NotFound) <==> Truthy(room) && room.value !in rooms
      ensures r == Err(Forbidden) <==>
        Truthy(room) && room.value in rooms && rooms[room.value].code.Some? && code != rooms[room.value].code
      ensures r.Ok? <==>
        Truthy(room) && room.value in rooms && (rooms[room.value].code.None? || code == rooms[room.value].code)
    {
      if !Truthy(room) then Err(BadRequest)
      else if room.value !in rooms then Err(NotFound)
      else
        var info := rooms[room.value];
        if Truthy(info.code) && info.code != code then Err(Forbidden)
        else Ok(())
    }
  }

  /** A room without a code accepts every supplied code, including none. */
  lemma OpenRoomAcceptsAll(store: RoomStore, room: RoomId, code: Option<string>)
    requires store.Valid() && room in store.rooms && store.rooms[room].code.None?
    ensures store.Validate(Some(room), code) == Ok(())
  {
  }

  /**
   * A room with a code accepts exactly that code: any other, and no code at all, is forbidden.
   */
  lemma CodedRoomAcceptsOnlyItsCode(store: RoomStore, room: RoomId, secret: string, code: Option<string>)
    requires store.Valid() && room in store.rooms && store.rooms[room].code == Some(secret)
    ensures store.Validate(Some(room), code).Ok? <==> code == Some(secret)
    ensures code == None ==> store.Validate(Some(room), code) == Err(Forbidden)
  {
  }

  /** Room access scenario: a room created with code "1234" admits "1234" only. */
  method AccessScenario() returns (info: Result<InfoReply>, right: Result<()>, wrong: Result<()>, missing: Result<()>)
    ensures info == Ok(InfoReply(true, DefaultMode))
    ensures right == Ok(())
    ensures wrong == Err(Forbidden) && missing == Err(Forbidden)
  {
    var store := new RoomStore();
    var created := store.CreateRoom(Some("R2"), Some("1234"), None, 0);
    info := store.Info(Some("R2"));
    right := store.Validate(Some("R2"), Some("1234"));
    wrong := store.Validate(Some("R2"), Some("0000"));
    missing := store.Validate(Some("R2"), None);
  }
}
