/** The record codec of source/bunker.c: a registered room, the `host:port`
    parser address_and_port_split, the line decoder line_room_get and the
    line encoder room_line_get. */
module Codec {
  import opened Outcomes
  import opened Tokenize
  import opened Numerals

  /** room_t: a room name and the endpoint it stands for. */
  datatype Room = Room(name: string, address: string, port: int)

  /** What address_and_port_split writes through its two out-parameters. */
  datatype Endpoint = Endpoint(address: string, port: int)

  /** The endpoint delimiter of address_and_port_split. */
  const Colon := ":"

  /** The field delimiter of line_room_get. */
  const Comma := ","

  /** address_and_port_split: the first `strtok(":")` token is the address,
      `atoi` of the second is the port, anything after that is ignored.
      Status 1 for a NULL string, 2 when there is no token at all, 3 when
      there is no second token. */
  function AddressAndPortSplit(s: Option<string>): (r: Outcome<Endpoint>)
    ensures r.Fail? ==> 1 <= r.code <= 3
    ensures r.Ok? ==> r.value.address != [] && DelimFree(r.value.address, Colon)
  {
    match s
    case None => Fail(1)
    case Some(str) =>
      match Strtok(str, Colon)
      case None => Fail(2)
      case Some(first) =>
        match Strtok(first.rest, Colon)
        case None => Fail(3)
        case Some(second) => Ok(Endpoint(first.token, Atoi(second.token)))
  }

  /** In terms of the `:` pieces of the string: no piece is status 2, one
      piece is status 3, and with two or more the address is the first piece
      and the port `atoi` of the second. */
  lemma AddressAndPortSplitPieces(s: Option<string>)
    ensures s.None? ==> AddressAndPortSplit(s) == Fail(1)
    ensures s.Some? ==> var ts := Tokens(s.value, Colon);
      AddressAndPortSplit(s) ==
        if |ts| == 0 then Fail(2)
        else if |ts| == 1 then Fail(3)
        else Ok(Endpoint(ts[0], Atoi(ts[1])))
  {
    if s.Some? {
      var first := Strtok(s.value, Colon);
      if first.Some? {
        assert Strtok(first.value.rest, Colon).None? ==> Tokens(first.value.rest, Colon) == [];
      }
    }
  }

  /** line_room_get: the first `strtok(",")` token of the line is the name,
      the second is handed to address_and_port_split, anything after that is
      ignored. Status 1 when the line has no token, 2 when it has no second
      token, 3 when the endpoint does not split. */
  function LineRoomGet(line: string): (r: Outcome<Room>)
    ensures r.Fail? ==> 1 <= r.code <= 3
    ensures r.Ok? ==> r.value.name != [] && DelimFree(r.value.name, Comma)
    ensures r.Ok? ==> r.value.address != [] && DelimFree(r.value.address, Colon)
  {
    match Strtok(line, Comma)
    case None => Fail(1)
    case Some(first) =>
      match Strtok(first.rest, Comma)
      case None => Fail(2)
      case Some(second) =>
        match AddressAndPortSplit(Some(second.token))
        case Fail(_) => Fail(3)
        case Ok(ep) => Ok(Room(first.token, ep.address, ep.port))
  }

  /** In terms of the `,` pieces of the line: no piece is status 1, one
      piece is status 2, a second piece that does not split as an endpoint is
      status 3, and otherwise the name is the first piece and the endpoint
      that of the second. */
  lemma LineRoomGetPieces(line: string)
    ensures var ts := Tokens(line, Comma);
      LineRoomGet(line) ==
        if |ts| == 0 then Fail(1)
        else if |ts| == 1 then Fail(2)
        else match AddressAndPortSplit(Some(ts[1]))
             case Fail(_) => Fail(3)
             case Ok(ep) => Ok(Room(ts[0], ep.address, ep.port))
  {
    var first := Strtok(line, Comma);
    if first.Some? {
      assert Strtok(first.value.rest, Comma).None? ==> Tokens(first.value.rest, Comma) == [];
    }
  }

  /** room_line_get: `sprintf(line, "%s, %s:%d", ...)`, with the space after
      the comma that the format string has. */
  function RoomLineGet(room: Room): string {
    room.name + ", " + room.address + ":" + Decimal(room.port)
  }

  /** The line format the decoder reads back unchanged: `name,address:port`. */
  function RoomLineIntended(room: Room): string {
    room.name + "," + room.address + ":" + Decimal(room.port)
  }

  /** A room the line format can carry: no delimiter inside a field, and
      non-empty name and address. */
  predicate Encodable(room: Room) {
    room.name != [] && room.address != [] &&
    DelimFree(room.name, Comma) && DelimFree(room.address, Comma + Colon)
  }

  lemma DecimalIsDelimFree(n: int)
    ensures DelimFree(Decimal(n), Comma + Colon)
  {
    var s := Decimal(n);
    forall i | 0 <= i < |s| ensures s[i] !in Comma + Colon {
      assert IsDigit(s[i]) || s[i] == '-';
    }
  }

  /** Decoding `address:port` with a delimiter-free address and a `%d` port. */
  lemma SplitOfEndpoint(address: string, port: int)
    requires address != [] && DelimFree(address, Colon)
    ensures AddressAndPortSplit(Some(address + ":" + Decimal(port))) == Ok(Endpoint(address, port))
  {
    DecimalIsDelimFree(port);
    var p := Decimal(port);
    assert DelimFree(p, Colon) by {
      forall i | 0 <= i < |p| ensures p[i] !in Colon {
        assert p[i] !in Comma + Colon;
      }
    }
    assert address + ":" + p == address + [':'] + p;
    TokensOfPair(address, ':', p, Colon);
    AddressAndPortSplitPieces(Some(address + ":" + p));
    AtoiOfDecimal(port);
  }

  /** Decoding a line `name` `,` `field` whose field has no comma. */
  lemma LineOfFields(name: string, field: string)
    requires name != [] && field != [] && DelimFree(name, Comma) && DelimFree(field, Comma)
    ensures LineRoomGet(name + "," + field) ==
      match AddressAndPortSplit(Some(field))
      case Fail(_) => Fail(3)
      case Ok(ep) => Ok(Room(name, ep.address, ep.port))
  {
    assert name + "," + field == name + [','] + field;
    TokensOfPair(name, ',', field, Comma);
    LineRoomGetPieces(name + "," + field);
  }

  /** Decoding what room_line_get writes does NOT give the room back: the
      space the format puts after the comma becomes the first character of
      the address. */
  lemma {:induction false} DecodeRoomLine(room: Room)
    requires room.name != [] && DelimFree(room.name, Comma) && DelimFree(room.address, Comma + Colon)
    ensures LineRoomGet(RoomLineGet(room)) == Ok(Room(room.name, " " + room.address, room.port))
    ensures LineRoomGet(RoomLineGet(room)) != Ok(room)
  {
    var address := " " + room.address;
    var field := address + ":" + Decimal(room.port);
    assert RoomLineGet(room) == room.name + "," + field;
    DecimalIsDelimFree(room.port);
    assert DelimFree(address, Comma + Colon) by {
      forall i | 0 <= i < |address| ensures address[i] !in Comma + Colon {
        if i > 0 { assert address[i] == room.address[i - 1]; }
      }
    }
    assert DelimFree(field, Comma) by {
      var p := Decimal(room.port);
      assert field == address + [':'] + p;
      forall i | 0 <= i < |field| ensures field[i] !in Comma {
        if i < |address| { assert field[i] == address[i]; }
        else if i > |address| { assert field[i] == p[i - |address| - 1]; }
      }
    }
    assert DelimFree(address, Colon) by {
      forall i | 0 <= i < |address| ensures address[i] !in Colon {
        assert address[i] !in Comma + Colon;
      }
    }
    SplitOfEndpoint(address, room.port);
    LineOfFields(room.name, field);
    assert |address| != |room.address|;
  }

  /** With the comma alone as separator, decoding inverts encoding. */
  lemma {:induction false} DecodeRoomLineIntended(room: Room)
    requires Encodable(room)
    ensures LineRoomGet(RoomLineIntended(room)) == Ok(room)
  {
    var field := room.address + ":" + Decimal(room.port);
    assert RoomLineIntended(room) == room.name + "," + field;
    DecimalIsDelimFree(room.port);
    assert DelimFree(field, Comma) by {
      var p := Decimal(room.port);
      assert field == room.address + [':'] + p;
      forall i | 0 <= i < |field| ensures field[i] !in Comma {
        if i < |room.address| { assert field[i] == room.address[i]; }
        else if i > |room.address| { assert field[i] == p[i - |room.address| - 1]; }
      }
    }
    assert DelimFree(room.address, Colon) by {
      forall i | 0 <= i < |room.address| ensures room.address[i] !in Colon {
        assert room.address[i] !in Comma + Colon;
      }
    }
    SplitOfEndpoint(room.address, room.port);
    LineOfFields(room.name, field);
  }
}
