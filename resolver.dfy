/** Endpoint resolution of source/bunker.c: address_and_port_lookup (the
    registry) and address_and_port_get (registry first, then the literal
    `host:port` parse). Both read the rooms file, given here as its content. */
module Resolver {
  import opened Outcomes
  import opened Tokenize
  import opened Numerals
  import opened Codec
  import opened Registry

  /** What address_and_port_get reports: its status is 1 for a registry
      hit, 2 for a parsed token and 0 for failure. */
  datatype Resolution = Unresolved | LookedUp(endpoint: Endpoint) | Parsed(endpoint: Endpoint) {
    function Status(): nat {
      match this
      case Unresolved => 0
      case LookedUp(_) => 1
      case Parsed(_) => 2
    }
  }

  /** The token names a decoded room of the registry. */
  predicate Registered(rooms: seq<Slot>, token: string) {
    exists i :: 0 <= i < |rooms| && Named(rooms[i], token)
  }

  /** address_and_port_lookup: load the registry and return the endpoint of
      the first room called `token`; status 1 when the registry does not load
      or holds no such room. */
  function AddressAndPortLookup(content: Option<string>, token: string): (r: Outcome<Endpoint>)
    ensures r.Fail? ==> r.code == 1
    ensures r.Ok? <==> Load(content).Ok? && Registered(Load(content).value, token)
    ensures r.Ok? ==> var rooms := Load(content).value;
      exists i :: 0 <= i < |rooms| && rooms[i] == Ok(Room(token, r.value.address, r.value.port)) &&
                  forall j :: 0 <= j < i ==> !Named(rooms[j], token)
  {
    match Load(content)
    case Fail(_) => Fail(1)
    case Ok(rooms) =>
      match FirstMatch(rooms, token)
      case None => Fail(1)
      case Some(i) =>
        var room := rooms[i].value;
        assert rooms[i] == Ok(Room(token, room.address, room.port));
        Ok(Endpoint(room.address, room.port))
  }

  /** address_and_port_get: a registry hit wins; on a miss the token itself
      is split as `host:port`; when that fails too nothing is resolved. */
  function AddressAndPortGet(content: Option<string>, token: string): (r: Resolution)
    ensures r.LookedUp? <==> AddressAndPortLookup(content, token).Ok?
    ensures r.LookedUp? ==> r.endpoint == AddressAndPortLookup(content, token).value
    ensures r.Parsed? <==> AddressAndPortLookup(content, token).Fail? && |Tokens(token, Colon)| >= 2
    ensures r.Parsed? ==> r.endpoint == Endpoint(Tokens(token, Colon)[0], Atoi(Tokens(token, Colon)[1]))
    ensures r.Unresolved? <==> AddressAndPortLookup(content, token).Fail? && |Tokens(token, Colon)| < 2
  {
    AddressAndPortSplitPieces(Some(token));
    match AddressAndPortLookup(content, token)
    case Ok(ep) => LookedUp(ep)
    case Fail(_) =>
      match AddressAndPortSplit(Some(token))
      case Ok(ep) => Parsed(ep)
      case Fail(_) => Unresolved
  }

  /** A registered name resolves to the endpoint of its first room, even
      when the name would also split as `host:port`. */
  lemma ResolveRegistered(content: Option<string>, token: string, i: nat)
    requires Load(content).Ok? && i < |Load(content).value|
    requires Named(Load(content).value[i], token)
    requires forall j :: 0 <= j < i ==> !Named(Load(content).value[j], token)
    ensures AddressAndPortGet(content, token) ==
      LookedUp(Endpoint(Load(content).value[i].value.address, Load(content).value[i].value.port))
    ensures AddressAndPortGet(content, token).Status() == 1
  {
    var rooms := Load(content).value;
    var ep := AddressAndPortLookup(content, token).value;
    var k :| 0 <= k < |rooms| && rooms[k] == Ok(Room(token, ep.address, ep.port)) &&
             forall j :: 0 <= j < k ==> !Named(rooms[j], token);
    assert k == i;
  }

  /** A token that names no decoded room is parsed: status 2 exactly when it
      has two `:`-separated pieces, and then the endpoint is those pieces. */
  lemma ResolveUnregistered(content: Option<string>, token: string)
    requires Load(content).Fail? || !Registered(Load(content).value, token)
    ensures var ts := Tokens(token, Colon);
      AddressAndPortGet(content, token) ==
        if |ts| >= 2 then Parsed(Endpoint(ts[0], Atoi(ts[1]))) else Unresolved
  {
  }
}
