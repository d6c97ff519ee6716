/** Worked cases of endpoint resolution over concrete rooms files. */
module Scenarios {
  import opened Outcomes
  import opened Tokenize
  import opened Numerals
  import opened Codec
  import opened Registry
  import opened Resolver

  /** Empty content that was read successfully does not load: rooms_get
      returns 2. */
  lemma EmptyContentDoesNotLoad()
    ensures Load(Some("")) == Fail(2)
  {
    LoadCountsLines(Some(""));
    assert NonEmpty(Fields(CString(""), Newline)) == NonEmpty([[]]);
    assert NonEmpty([[]]) == [] + NonEmpty([]);
  }

  /** With empty content read successfully, a literal endpoint is parsed. */
  lemma ResolveLiteralToken()
    ensures AddressAndPortGet(Some(""), "10.0.0.9:7000") == Parsed(Endpoint("10.0.0.9", 7000))
  {
    EmptyContentDoesNotLoad();
    var host, port := "10.0.0.9", "7000";
    assert DelimFree(host, Colon);
    assert DelimFree(port, Colon);
    assert "10.0.0.9:7000" == host + [':'] + port;
    TokensOfPair(host, ':', port, Colon);
    assert Decimal(7000) == port;
    AtoiOfDecimal(7000);
    ResolveUnregistered(Some(""), "10.0.0.9:7000");
  }

  /** A token that is neither registered nor `host:port` is unresolved:
      address_and_port_get returns 0. */
  lemma ResolveUnknownName()
    ensures AddressAndPortGet(Some(""), "nope") == Unresolved
    ensures AddressAndPortGet(Some(""), "nope").Status() == 0
  {
    EmptyContentDoesNotLoad();
    assert DelimFree("nope", Colon);
    TokensOfSingle("nope", Colon);
    ResolveUnregistered(Some(""), "nope");
  }

  const Lobby := Room("lobby", "10.0.0.5", 9001)
  const Games := Room("games", "10.0.0.6", 9002)

  /** The two-line rooms file, each line written in the decoder's format. */
  const TwoRooms := RoomLineIntended(Lobby) + "\n" + RoomLineIntended(Games)

  lemma LobbyLineText()
    ensures RoomLineIntended(Lobby) == "lobby,10.0.0.5:9001"
  {
    assert Decimal(9001) == "9001";
  }

  lemma GamesLineText()
    ensures RoomLineIntended(Games) == "games,10.0.0.6:9002"
  {
    assert Decimal(9002) == "9002";
  }

  /** That file, character for character. */
  lemma TwoRoomsText()
    ensures TwoRooms == "lobby,10.0.0.5:9001\ngames,10.0.0.6:9002"
  {
    LobbyLineText();
    GamesLineText();
  }

  lemma DecodeTwoRoomLines()
    ensures LineRoomGet(RoomLineIntended(Lobby)) == Ok(Lobby)
    ensures LineRoomGet(RoomLineIntended(Games)) == Ok(Games)
  {
    DelimFreeOfAbsent(Lobby.name, ','); DelimFreeOfAbsent(Games.name, ',');
    DelimFreeOfAbsent(Lobby.address, ','); DelimFreeOfAbsent(Lobby.address, ':');
    DelimFreeOfAbsent(Games.address, ','); DelimFreeOfAbsent(Games.address, ':');
    DelimFreeOfUnion(Lobby.address, Comma, Colon);
    DelimFreeOfUnion(Games.address, Comma, Colon);
    DecodeRoomLineIntended(Lobby);
    DecodeRoomLineIntended(Games);
  }

  /** A character that is no digit, no minus sign and in neither field does
      not occur in the encoded line. */
  lemma AbsentFromLine(room: Room, c: char)
    requires c !in room.name && c !in room.address && c != ',' && c != ':' && c != '-' && !IsDigit(c)
    ensures c !in RoomLineIntended(room)
  {
  }

  lemma LinesOfTwoRooms()
    ensures NonEmpty(Fields(CString(TwoRooms), Newline)) == [RoomLineIntended(Lobby), RoomLineIntended(Games)]
  {
    var l1, l2 := RoomLineIntended(Lobby), RoomLineIntended(Games);
    assert TwoRooms == l1 + ['\n'] + l2;
    AbsentFromLine(Lobby, '\n');
    AbsentFromLine(Games, '\n');
    AbsentFromLine(Lobby, '\0');
    AbsentFromLine(Games, '\0');
    CStringOfText(TwoRooms);
    DelimFreeOfAbsent(l1, '\n');
    DelimFreeOfAbsent(l2, '\n');
    TokensOfPair(l1, '\n', l2, Newline);
    TokensAreNonEmptyFields(TwoRooms, Newline);
  }

  /** A file of two non-empty lines loads as their two decoded slots. */
  lemma LoadOfTwoLines(blob: string, l1: string, l2: string)
    requires NonEmpty(Fields(CString(blob), Newline)) == [l1, l2]
    ensures Load(Some(blob)) == Ok([LineRoomGet(l1), LineRoomGet(l2)])
  {
    LoadCountsLines(Some(blob));
    var r := Load(Some(blob));
    assert r.Ok? && |r.value| == 2;
    assert r.value[0] == LineRoomGet(l1) && r.value[1] == LineRoomGet(l2);
    assert r.value == [r.value[0], r.value[1]];
  }

  lemma LoadTwoRooms()
    ensures Load(Some(TwoRooms)) == Ok([Ok(Lobby), Ok(Games)])
  {
    LinesOfTwoRooms();
    DecodeTwoRoomLines();
    LoadOfTwoLines(TwoRooms, RoomLineIntended(Lobby), RoomLineIntended(Games));
  }

  /** Resolving `lobby` from that file looks its endpoint up (status 1). */
  lemma ResolveLobby()
    ensures AddressAndPortGet(Some(TwoRooms), "lobby") == LookedUp(Endpoint("10.0.0.5", 9001))
  {
    LoadTwoRooms();
    ResolveRegistered(Some(TwoRooms), "lobby", 0);
  }

  /** Storing `lobby` at port 9050 replaces the first record in place and
      leaves `games` as it was. */
  lemma StoreLobbyPort()
    ensures Upserted([Ok(Lobby), Ok(Games)], Room("lobby", "10.0.0.5", 9050))
            == [Ok(Room("lobby", "10.0.0.5", 9050)), Ok(Games)]
  {
    UpsertReplacesFirst([Ok(Lobby), Ok(Games)], Room("lobby", "10.0.0.5", 9050), 0);
  }
}
