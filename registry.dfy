/** The room registry of source/bunker.c: loading the rooms file
    (rooms_get), first-match lookup by name (name_room_get) and the
    replace-or-append step of address_and_port_store. */
module Registry {
  import opened Outcomes
  import opened Tokenize
  import opened Codec

  /** One element of the array rooms_get fills: the room decoded from a
      line, or the non-zero status line_room_get returned for that line. */
  type Slot = Outcome<Room>

  /** The line delimiter rooms_get hands to string_split. */
  const Newline := "\n"

  /** The C string the file buffer holds once rooms_get has terminated it:
      everything before the first NUL character. */
  function CString(blob: string): (s: string)
    ensures |s| <= |blob| && s == blob[..|s|]
    ensures forall i :: 0 <= i < |s| ==> s[i] != '\0'
    ensures |s| < |blob| ==> blob[|s|] == '\0'
  {
    if blob == [] || blob[0] == '\0' then []
    else
      var s := CString(blob[1..]);
      assert blob[..|s| + 1] == [blob[0]] + blob[1..][..|s|];
      [blob[0]] + s
  }

  /** A buffer without NUL is read whole. */
  lemma {:induction false} CStringOfText(blob: string)
    requires '\0' !in blob
    ensures CString(blob) == blob
  {
    if blob != [] {
      CStringOfText(blob[1..]);
    }
  }

  /** The lines string_split cuts the file into. */
  function Lines(blob: string): seq<string> {
    Tokens(CString(blob), Newline)
  }

  /** The registry rooms_get produces from the rooms file: `None` is a
      failed read (status 1), a file without a line is status 2, and
      otherwise slot i is decoded from line i. */
  function Load(content: Option<string>): (r: Outcome<seq<Slot>>)
    ensures r.Fail? ==> r.code == 1 || r.code == 2
    ensures r.Fail? && r.code == 1 <==> content.None?
    ensures r.Ok? ==> r.value != []
  {
    match content
    case None => Fail(1)
    case Some(blob) =>
      var lines := Lines(blob);
      if lines == [] then Fail(2)
      else Ok(seq(|lines|, i requires 0 <= i < |lines| => LineRoomGet(lines[i])))
  }

  /** The registry has one slot per non-empty line of the file, in file
      order, each the decoding of its line; status 2 exactly when the file
      has no non-empty line. */
  lemma LoadCountsLines(content: Option<string>)
    ensures content.None? ==> Load(content) == Fail(1)
    ensures content.Some? ==>
      var lines := NonEmpty(Fields(CString(content.value), Newline));
      && (Load(content) == Fail(2) <==> lines == [])
      && (Load(content).Ok? <==> lines != [])
      && (Load(content).Ok? ==>
            && |Load(content).value| == |lines|
            && (forall i :: 0 <= i < |lines| ==> Load(content).value[i] == LineRoomGet(lines[i])))
  {
    if content.Some? {
      TokensAreNonEmptyFields(CString(content.value), Newline);
    }
  }

  /** rooms_get over the file content (`None` when dir_file_read fails):
      split the terminated buffer into lines, allocate one room per line and
      decode each line into its room. The array is empty unless the status
      is 0. */
  method RoomsGet(content: Option<string>) returns (status: nat, rooms: array<Slot>)
    ensures fresh(rooms)
    ensures status == Load(content).Status()
    ensures rooms[..] == if Load(content).Ok? then Load(content).value else []
  {
    rooms := new Slot[0];
    if content.None? {
      return 1, rooms;
    }
    var splitStatus, lines := StringSplit(Some(CString(content.value)), Some(Newline));
    assert lines == Lines(content.value);
    if splitStatus != 0 {
      return 2, rooms;
    }
    rooms := new Slot[|lines|];
    for index := 0 to |lines|
      invariant forall j :: 0 <= j < index ==> rooms[j] == LineRoomGet(lines[j])
    {
      rooms[index] := LineRoomGet(lines[index]);
    }
    status := 0;
  }

  /** The slot holds a decoded room called `name` (strcmp equality). A slot
      whose line did not decode matches no name. */
  predicate Named(slot: Slot, name: string) {
    slot.Ok? && slot.value.name == name
  }

  /** The index of the first room called `name`, if there is one. */
  function FirstMatch(rooms: seq<Slot>, name: string): (r: Option<nat>)
    ensures r.Some? ==> r.value < |rooms| && Named(rooms[r.value], name)
    ensures r.Some? ==> forall j :: 0 <= j < r.value ==> !Named(rooms[j], name)
    ensures r.None? <==> forall j :: 0 <= j < |rooms| ==> !Named(rooms[j], name)
  {
    if rooms == [] then None
    else if Named(rooms[0], name) then Some(0)
    else
      match FirstMatch(rooms[1..], name)
      case None =>
        assert forall j :: 1 <= j < |rooms| ==> rooms[j] == rooms[1..][j - 1];
        None
      case Some(i) =>
        assert forall j :: 1 <= j < i + 1 ==> rooms[j] == rooms[1..][j - 1];
        Some(i + 1)
  }

  /** name_room_get: scan the rooms in order and return the first whose
      name equals `name`; `None` is the NULL it returns on a miss. */
  method NameRoomGet(rooms: array<Slot>, name: string) returns (index: Option<nat>)
    ensures index == FirstMatch(rooms[..], name)
  {
    for i := 0 to rooms.Length
      invariant forall j :: 0 <= j < i ==> !Named(rooms[j], name)
    {
      if Named(rooms[i], name) {
        return Some(i);
      }
    }
    return None;
  }

  /** The registry after storing `room`: the first room of the same name
      is replaced where it stands, otherwise the room is appended. */
  function Upserted(rooms: seq<Slot>, room: Room): (r: seq<Slot>)
    ensures |rooms| <= |r| <= |rooms| + 1
    ensures Ok(room) in r
  {
    match FirstMatch(rooms, room.name)
    case Some(i) =>
      assert rooms[i := Ok(room)][i] == Ok(room);
      rooms[i := Ok(room)]
    case None =>
      assert (rooms + [Ok(room)])[|rooms|] == Ok(room);
      rooms + [Ok(room)]
  }

  /** Storing under a registered name replaces that name's first room,
      in place: the count is unchanged and every other slot is unchanged. */
  lemma UpsertReplacesFirst(rooms: seq<Slot>, room: Room, i: nat)
    requires i < |rooms| && Named(rooms[i], room.name)
    requires forall j :: 0 <= j < i ==> !Named(rooms[j], room.name)
    ensures |Upserted(rooms, room)| == |rooms|
    ensures Upserted(rooms, room)[i] == Ok(room)
    ensures forall j :: 0 <= j < |rooms| && j != i ==> Upserted(rooms, room)[j] == rooms[j]
  {
    var k := FirstMatch(rooms, room.name);
    assert k.Some?;
  }

  /** Storing under a new name appends one room at index |rooms| and keeps
      every earlier slot. */
  lemma UpsertAppends(rooms: seq<Slot>, room: Room)
    requires forall j :: 0 <= j < |rooms| ==> !Named(rooms[j], room.name)
    ensures |Upserted(rooms, room)| == |rooms| + 1
    ensures Upserted(rooms, room)[|rooms|] == Ok(room)
    ensures Upserted(rooms, room)[..|rooms|] == rooms
  {
  }

  /** After storing, looking the name up finds the stored room, at the
      place of the room it replaced or at the end. */
  lemma UpsertThenFind(rooms: seq<Slot>, room: Room)
    ensures FirstMatch(Upserted(rooms, room), room.name).Some?
    ensures var i := FirstMatch(Upserted(rooms, room), room.name).value;
            Upserted(rooms, room)[i] == Ok(room) &&
            i == (if FirstMatch(rooms, room.name).Some? then FirstMatch(rooms, room.name).value else |rooms|)
  {
    var u := Upserted(rooms, room);
    var k := FirstMatch(rooms, room.name);
    var i := if k.Some? then k.value else |rooms|;
    assert Named(u[i], room.name);
    assert forall j :: 0 <= j < i ==> u[j] == rooms[j];
    var f := FirstMatch(u, room.name);
    assert f.Some?;
  }

  /** Looking up any other name gives the same answer before and after. */
  lemma UpsertKeepsOtherLookups(rooms: seq<Slot>, room: Room, name: string)
    requires name != room.name
    ensures FirstMatch(Upserted(rooms, room), name) == FirstMatch(rooms, name)
  {
    var u := Upserted(rooms, room);
    assert forall j :: 0 <= j < |rooms| ==> (Named(u[j], name) <==> Named(rooms[j], name));
    assert |u| > |rooms| ==> !Named(u[|rooms|], name);
  }

  /** Storing the same room twice is the same as storing it once. */
  lemma UpsertIdempotent(rooms: seq<Slot>, room: Room)
    ensures Upserted(Upserted(rooms, room), room) == Upserted(rooms, room)
  {
    UpsertThenFind(rooms, room);
  }

  /** No two decoded rooms share a name. */
  predicate UniqueNames(rooms: seq<Slot>) {
    forall i, j :: 0 <= i < j < |rooms| && rooms[i].Ok? && rooms[j].Ok? ==> rooms[i].value.name != rooms[j].value.name
  }

  /** Storing keeps names unique. */
  lemma UpsertKeepsUniqueNames(rooms: seq<Slot>, room: Room)
    requires UniqueNames(rooms)
    ensures UniqueNames(Upserted(rooms, room))
  {
    var u := Upserted(rooms, room);
    var k := FirstMatch(rooms, room.name);
    forall i, j | 0 <= i < j < |u| && u[i].Ok? && u[j].Ok?
      ensures u[i].value.name != u[j].value.name
    {
      if k.Some? {
        if j == k.value { assert !Named(rooms[i], room.name); }
      } else if j == |rooms| {
        assert !Named(rooms[i], room.name);
      }
    }
  }

  /** The replace-or-append loop of address_and_port_store: overwrite the
      first room of the same name in place and stop, or, when the scan ran
      to the end, grow the array by one and put the room last. */
  method Upsert(rooms: array<Slot>, room: Room) returns (result: array<Slot>)
    modifies rooms
    ensures result[..] == Upserted(old(rooms[..]), room)
    ensures FirstMatch(old(rooms[..]), room.name).Some? ==> result == rooms
    ensures FirstMatch(old(rooms[..]), room.name).None? ==> fresh(result) && rooms[..] == old(rooms[..])
  {
    var count := rooms.Length;
    var index := 0;
    while index < count
      invariant index <= count
      invariant forall j :: 0 <= j < index ==> !Named(rooms[j], room.name)
      invariant rooms[..] == old(rooms[..])
    {
      if Named(rooms[index], room.name) {
        rooms[index] := Ok(room);
        break;
      }
      index := index + 1;
    }
    if index == count {
      var kept := rooms[..];
      result := new Slot[count + 1](j requires 0 <= j <= count => if j < count then kept[j] else Ok(room));
      assert result[..] == kept + [Ok(room)];
    } else {
      result := rooms;
    }
  }

  /** address_and_port_store over the file content: load the registry, give
      up with status 1 when that fails, otherwise store (name, address, port)
      and hand the whole registry to rooms_store, which is returned here. */
  method AddressAndPortStore(content: Option<string>, address: string, port: int, name: string)
    returns (status: nat, stored: seq<Slot>)
    ensures status == 1 <==> Load(content).Fail?
    ensures status == 0 <==> Load(content).Ok?
    ensures status == 0 ==> stored == Upserted(Load(content).value, Room(name, address, port))
    ensures status == 1 ==> stored == []
  {
    var room := Room(name, address, port);
    var loaded, rooms := RoomsGet(content);
    if loaded != 0 {
      return 1, [];
    }
    var updated := Upsert(rooms, room);
    return 0, updated[..];
  }
}
