# bunker: room registry and endpoint resolution, in Dafny

`bunker` is a command-line chat-room connector. The user gives it a token, which is either the name of a registered room or a literal `host:port`. The program turns the token into an address and a port. It can also register the resolved endpoint under a new room name. The registry is a text file of `name,address:port` lines.

This project models the logic of `source/bunker.c` that does this work:

- the tokenisers `string_split` and `address_and_port_split`, both built on `strtok`;
- the record codec `line_room_get` and `room_line_get`;
- `rooms_get`, which loads the registry from the file content;
- the first-match lookup `name_room_get`;
- the replace-or-append step of `address_and_port_store`;
- the resolvers `address_and_port_lookup` and `address_and_port_get`.

Modules, one file each:

- `Outcomes` (outcomes.dfy): `Option` stands for a C argument that may be NULL. `Outcome` stands for an `int` status: `Ok` is status 0, together with what the routine wrote through its out-parameters, and `Fail(code)` is a non-zero status.
- `Tokenize` (tokenize.dfy): `Strtok` is one `strtok` call on the unread rest of its buffer. `Tokens` is what successive calls return. `StringSplit` is the `while(token)` loop of `string_split`. `Fields` and `NonEmpty` are an independent reference: the string cut at every delimiter, with empty fields then dropped.
- `Numerals` (numerals.dfy): `Atoi` is C's `atoi`, and `Decimal` is `printf`'s `%d`.
- `Codec` (codec.dfy): `Room`, `AddressAndPortSplit`, `LineRoomGet` and `RoomLineGet`.
- `Registry` (registry.dfy): the file buffer as a C string (`CString`), `Load` and the `RoomsGet` method, `FirstMatch` and the `NameRoomGet` method, `Upserted` and the in-place `Upsert` method, and `AddressAndPortStore`.
- `Resolver` (resolver.dfy): `AddressAndPortLookup` and `AddressAndPortGet`.
- `Scenarios` (scenarios.dfy): worked cases over concrete room files.

How the model is built:

- The loops of the source are methods, each proved against a specification function: `StringSplit` against `Tokens`, `RoomsGet` against `Load`, `NameRoomGet` against `FirstMatch`, and `Upsert` against `Upserted`.
- `Upsert` keeps the array. On a hit it overwrites the array in place. On a miss it returns a fresh array one slot longer, as the `realloc` to `count + 1` would.
- The loop-free parsers and the two resolvers are functions. The resolvers are compositions, and functions can only call functions.
- File access goes through `file.h`, which is not part of this model. The rooms file is therefore a parameter, `content: Option<string>`, where `None` means `dir_file_read` failed.
- Every status code is the source's own.

What the code does that a reader might not expect:

- A line that fails to decode is kept as a `Fail` slot, carrying the status `line_room_get` returned for it. The code does not skip it or count warnings.
- Content that reads successfully but has no non-empty line is status 2 from `rooms_get`. It does not give an empty registry. So resolving any token against it falls back to parsing, and `address_and_port_store` gives up with status 1.
- The encoder writes `name, address:port` with a space, and validates nothing. See the finding below.
- The port is `atoi` of the second `:` piece, with no range check. Extra `,` or `:` fields are ignored.

Each of the compile-level defects of `address_and_port_store` and `room_line_get` is modelled by its evident intent:

- `address_and_port_store` is declared `void` but returns 1 and 2 (source/bunker.c:348, 374). `AddressAndPortStore` returns those values as a status.
- `realloc` is called with one argument (source/bunker.c:368). The model grows the array by one slot and keeps its contents.
- `room_line_get` lacks a semicolon and a `return` (source/bunker.c:267). `RoomLineGet` is the string that `sprintf` would write.

## Model

| member | source | states |
|---|---|---|
| `Tokenize.TakeToken` | source/bunker.c:131-148 | the token `strtok` cuts contains no delimiter and is non-empty when the first character is not a delimiter; token and rest together are no longer than the input |
| `Tokenize.TakeTokenCuts` | source/bunker.c:131-148 | the token is a prefix of the input; when it stops short of the end, the next character is a delimiter and the rest resumes just after it, the delimiter `strtok` overwrote; otherwise the rest is empty |
| `Tokenize.Strtok` | source/bunker.c:131-148 | one `strtok` call returns NULL exactly when only delimiters remain; otherwise it returns a non-empty, delimiter-free token and resumes strictly further on |
| `Tokenize.Tokens` | source/bunker.c:131-149 | the sequence of tokens is empty exactly when every character is a delimiter |
| `Tokenize.TokensAreNonEmptyFields` | source/bunker.c:125-156 | the tokens are exactly the non-empty pieces between delimiters, in order: runs of delimiters collapse and empty pieces are dropped |
| `Tokenize.TokensAreDelimFree` | source/bunker.c:136-149 | no token is empty and no token contains a delimiter |
| `Tokenize.StringSplit` | source/bunker.c:125-156 | status 1 for a NULL argument; otherwise the strings are the tokens of the input in order, status 2 exactly when the input is all delimiters (empty included), and 0 otherwise |
| `Numerals.Atoi` | source/bunker.c:115 | `atoi` of a string without a digit is 0 |
| `Numerals.Decimal` | source/bunker.c:267 | `%d` writes a non-empty run of digits, with a leading `-` exactly for negative values |
| `Numerals.AtoiOfDecimal` | source/bunker.c:115 | `atoi` reads back exactly the integer `%d` wrote |
| `Codec.AddressAndPortSplit` | source/bunker.c:87-120 | a failure is one of the statuses 1, 2 and 3; on success the address is non-empty and `:`-free; `AddressAndPortSplitPieces` gives the whole result and `SplitOfEndpoint` the round trip |
| `Codec.AddressAndPortSplitPieces` | source/bunker.c:80-120 | `address_and_port_split` returns 1 for NULL, 2 when there is no `:`-free piece, 3 when there is only one, and otherwise the first piece as address and `atoi` of the second as port, ignoring further pieces |
| `Codec.LineRoomGet` | source/bunker.c:168-196 | a failure is one of the statuses 1, 2 and 3; on success the name is non-empty and `,`-free and the address non-empty and `:`-free; `LineRoomGetPieces` gives the whole result |
| `Codec.LineRoomGetPieces` | source/bunker.c:168-196 | `line_room_get` returns 1 when the line has no `,`-free piece and 2 when it has only one; otherwise it returns 3 when the second piece does not split as `host:port`, and else the first piece as name with the endpoint of the second |
| `Codec.SplitOfEndpoint` | source/bunker.c:87-120 | a non-empty `:`-free address, a colon and a `%d` port split back into that address and port |
| `Codec.LineOfFields` | source/bunker.c:168-196 | a line `name,field` with both parts non-empty and `,`-free decodes to that name and the endpoint of `field`, or to status 3 |
| `Codec.RoomLineGet` | source/bunker.c:265-268 | the line `sprintf` writes, with a space after the comma; `DecodeRoomLine` shows that decoding it does not give the room back |
| `Codec.DecodeRoomLine` | source/bunker.c:265-268 | decoding what `room_line_get` writes yields the address with a leading space, so it never gives the room back |
| `Codec.DecodeRoomLineIntended` | source/bunker.c:174-195 | the comma-only line `name,address:port` of a room with non-empty, delimiter-free fields decodes to exactly that room |
| `Registry.CString` | source/bunker.c:213-224 | the C string of the file buffer is its longest prefix without NUL, cut at the first NUL |
| `Registry.CStringOfText` | source/bunker.c:224 | a buffer without NUL is read whole |
| `Registry.Load` | source/bunker.c:205-260 | a failure is status 1 exactly when the content could not be read, and otherwise status 2; a registry that loads is never empty; `LoadCountsLines` gives slot by slot what it holds |
| `Registry.LoadCountsLines` | source/bunker.c:205-260 | status 1 when the file cannot be read; status 2 exactly when the content has no non-empty line; otherwise there is one slot per non-empty newline-separated line, and slot i is the decoding of line i |
| `Registry.RoomsGet` | source/bunker.c:205-260 | returns the status of `Load` and a fresh array holding exactly the slots `Load` gives, empty on failure |
| `Registry.Named` | source/bunker.c:322 | the `strcmp` test of `name_room_get` and `address_and_port_store` (also line 356): the slot holds a decoded room whose name equals the given name, character for character |
| `Registry.FirstMatch` | source/bunker.c:316-326 | the result is the lowest index whose slot is a room with exactly that name, or none when no slot matches |
| `Registry.NameRoomGet` | source/bunker.c:316-326 | the index loop returns exactly the first match, or NULL |
| `Registry.Upserted` | source/bunker.c:352-380 | storing keeps the count or grows it by one, and the stored room is in the result; `UpsertReplacesFirst` and `UpsertAppends` say where |
| `Registry.UpsertReplacesFirst` | source/bunker.c:354-364 | storing an existing name replaces its first room with the new one; the count is unchanged and every other slot is unchanged |
| `Registry.UpsertAppends` | source/bunker.c:366-380 | storing a new name appends it at index `count`; the count grows by exactly one and all earlier slots are unchanged |
| `Registry.UpsertThenFind` | source/bunker.c:352-380 | after storing, looking the name up finds the stored room, where the replaced room was or at the end |
| `Registry.UpsertKeepsOtherLookups` | source/bunker.c:352-380 | looking up any other name gives the same index before and after storing |
| `Registry.UpsertIdempotent` | source/bunker.c:352-380 | storing the same room twice equals storing it once |
| `Registry.UpsertKeepsUniqueNames` | source/bunker.c:352-380 | if no two rooms shared a name before storing, none do afterwards |
| `Registry.Upsert` | source/bunker.c:352-380 | the array afterwards holds the replace-or-append of the old contents; on a hit it is the same array, changed in place; on a miss it is a fresh array and the old one is untouched |
| `Registry.AddressAndPortStore` | source/bunker.c:331-385 | status 1 exactly when the registry does not load, with nothing stored; otherwise status 0, with the loaded registry after replace-or-append of (name, address, port) as what is handed to `rooms_store` |
| `Resolver.AddressAndPortLookup` | source/bunker.c:394-426 | succeeds exactly when the registry loads and holds a room with that name; then the endpoint is that of the first such room; otherwise status 1 |
| `Resolver.AddressAndPortGet` | source/bunker.c:436-449 | looked up (1) exactly when the lookup succeeds; otherwise parsed (2) exactly when the token has at least two `:` pieces, with address the first piece and port `atoi` of the second; otherwise 0 |
| `Resolver.ResolveRegistered` | source/bunker.c:436-442 | a registered name resolves, with status 1, to the endpoint of its first room, even when it would also parse as `host:port` |
| `Resolver.ResolveUnregistered` | source/bunker.c:443-448 | a token that names no room (or whose registry does not load) is parsed exactly when it has at least two `:` pieces, and is otherwise unresolved |
| `Scenarios.EmptyContentDoesNotLoad` | source/bunker.c:227-237 | empty content that was read successfully is status 2 from `rooms_get` |
| `Scenarios.ResolveLiteralToken` | source/bunker.c:436-449 | with empty content read successfully, `10.0.0.9:7000` is parsed to address `10.0.0.9` and port 7000 |
| `Scenarios.ResolveUnknownName` | source/bunker.c:436-449 | with empty content read successfully, `nope` is unresolved, with status 0 |
| `Scenarios.TwoRoomsText` | source/bunker.c:174-195 | built with the corrected comma-only encoder `RoomLineIntended` (the format `line_room_get` reads), the two-room file is the text `lobby,10.0.0.5:9001`, a newline, then `games,10.0.0.6:9002` |
| `Scenarios.LoadTwoRooms` | source/bunker.c:205-260 | that file loads as the two rooms, in file order |
| `Scenarios.ResolveLobby` | source/bunker.c:394-442 | resolving `lobby` from that file looks up address `10.0.0.5` and port 9001 |
| `Scenarios.StoreLobbyPort` | source/bunker.c:354-364 | storing `lobby` at port 9050 replaces the first record in place and leaves `games` as it was |

## Findings

| source | as written | input that shows it | evidently intended | confidence | as-written member | corrected member |
|---|---|---|---|---|---|---|
| source/bunker.c:267 | `room_line_get` formats `"%s, %s:%d"`, but `line_room_get` does not trim, so the space becomes part of the decoded address | the room (`lobby`, `10.0.0.5`, 9001) is written as `lobby, 10.0.0.5:9001` and read back with address ` 10.0.0.5` | write `name,address:port`, the format the decoder reads and the rooms file uses, so that decoding an encoded room gives it back | medium; not executed | `Codec.DecodeRoomLine` | `Codec.DecodeRoomLineIntended` |

`RoomLineGet` is the encoder as written and `RoomLineIntended` is the corrected one. No other part of the model encodes a room, because `rooms_store` writes nothing.

## Left out

- Connection handling (`source/socket.h`): it only declares socket create, close, read and write, with no bodies. It is network I/O.
- `opt_parse`, the `argp` setup and `main` (source/bunker.c:46-78, 451-494): command-line plumbing around a foreign library.
- All `printf` output, including the `Line:` trace in `line_room_get` (source/bunker.c:170).
- `dir_file_size_get` and `dir_file_read` (source/bunker.c:211-224) belong to `file.h`, which is not part of this model. They are replaced by the `content` parameter.
- The status of an empty rooms file depends on `file.h`. If `dir_file_read(buffer, 0, ...)` reports failure when it reads no byte, `rooms_get` returns 1 at source/bunker.c:215-222. If it reports success, `rooms_get` returns the status 2 of `Scenarios.EmptyContentDoesNotLoad`. The model covers both cases, as `None` and `Some("")`, but cannot say which one an empty file gives.
- NULL out-parameters: status 1 of `string_split` for `!strings || !count` (source/bunker.c:127) and of `rooms_get` for `!rooms || !count` (source/bunker.c:207) is not modelled, because the model returns results directly and has no out-parameter that could be NULL. A NULL string or delimiter in `string_split` is modelled.
- `rooms_store` (source/bunker.c:273-282): a stub whose loop is empty and which always returns 1. Nothing is saved, so there is no save operation and no load/save round trip.
- `AddressAndPortStore`: ignores the status of `rooms_store`, as the source does at line 382.
- Allocation failures: `malloc`, `realloc` and `strdup` are assumed to succeed. This includes the `break` of `string_split` on a failed `realloc` (source/bunker.c:140) and status 2 of `address_and_port_store` (source/bunker.c:370-375).
- `AddressAndPortStore`: its status 2 (failed `realloc`) is not modelled, because allocation never fails in the model.
- Freeing memory: `room_free`, `rooms_free`, and the `free(*address)` of an address that may be NULL (source/bunker.c:110).
- `address_and_port_split` writes `*address` and then frees it on status 3. The model's `Fail(3)` carries no address.
- Undecodable slots: when a line fails to decode, C leaves that `room_t` uninitialised or pointing at freed memory, and a later `strcmp` on it is undefined behaviour. `Registry.Named` treats such a slot as matching no name.
- `Numerals.Atoi`: does not model overflow, which is undefined behaviour in C. Integers are unbounded, and `Room.port` is an unbounded integer rather than a 32-bit `int`.
- `Codec.RoomLineGet`: the size of the buffer `sprintf` writes into is not modelled.
- `strtok` keeps hidden state and overwrites the buffer it cuts. `Strtok` is modelled instead as a pure function that returns the token and the unread rest.
- Strings are sequences of characters that stand for C strings without NUL. Only the file buffer can hold a NUL, and `CString` cuts it there.
