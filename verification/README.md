# A verified model of the sharded Redis client

`HQTEST/redisclient.h` is a header-only Redis client that spreads keys over several servers. It sits on
two small I/O loops in `HQTEST/anet.c` and `HQTEST/anet_win32.c`. This project models the client from the
bytes on its sockets up to whole sessions and proves that it works as one would wish, or exactly when it
does.

The layers, each a module in a file of its own:

- `Decimal`, `Resp`, `RespLaws`: the Redis serialization protocol as the client prints and parses it.
  Every receive routine has a pure parser: for a whole stream, the value or exception and what is left.
- `Wire`: the same protocol in literal bytes, and the strings of every request, stated without those printers and
  parsers.
- `Network`: sockets with partial reads and writes, and `anetWrite`, `anetRead`, `recv_or_throw`, `read_n`,
  `read_line` over them. `arrived` is what is in the kernel's buffer: a `recv` returns all of it up to the
  size asked for, so bytes just peeked at are returned by the `recv` after the peek.
- `Receive`: `makecmd`'s printer and the `recv_*_` routines over those sockets, each equal to its parser
  for every way the stream arrives.
- `Server`, `ServerLaws`: the server at the far end, which is the client's environment. Its commands follow
  the command reference of Redis 7; the order of set members and glob matching are parameters. Older servers
  differ in that `SINTER` stops at a missing key before it has checked the kinds of the others (before 7.0) and
  that `EXEC` runs what was queued although a command was refused (before 2.6.5).
- `Reference`: what each command does to every key and what it answers, entry by entry, stated without the
  functions of `Server`.
- `Door`: the exchange of `AUTH` and `SELECT` on a new connection.
- `Channel`: connections with their servers. What travels is bytes; `pending` reads the unread bytes as
  replies.
- `Shards`, `Gather`, `ClientLaws`: routing, the logical store that the shards hold together, and how the
  parts of a request that was split by shard add up.
- `Client`: the class with the client's commands. `Valid` says that every connection is in sync, that every
  key lives on its shard and that no key holds an empty list or set; `Contents` is the logical store.
- `Pipeline`, `Interleaving`, `Transaction`: `exec` of one and of many commands, the state machine of client
  and servers, and transactions.
- `Session`: any sequence of calls.
- `Findings`: concrete inputs and runs at which the code does not do what one would expect.

A byte string is a Dafny `string`, one `char` for one byte. A socket is named by the index of its connection.
In `Channel` a server answers a message as soon as it is sent, and the bytes arrive at any time later.
`Interleaving.DelayIsArrival` shows that nothing is lost by this: whenever servers answer, the unread bytes are a
prefix of those in `Channel`, that is, a link of which so much has arrived; and what the receive routines return does
not depend on what has arrived. For pipelines, `Client.ExecAll` shows moreover that what it does is one trace of the
state machine in `Interleaving`, and `Interleaving.AnyInterleaving` that every trace with the same commands ends in
the same servers and replies.

Where the code and its comments differ, the model follows the code: `read_line` never advances the counter
that should enforce `max_size`, so there is no limit; `rename`, `sinter` and `sinterstore` are marked as not
usable across servers and do work across servers.

What the proofs found (each has its exact condition, and an input or a run in `Findings`):

- `smove` across servers removes the member before it learns that the destination is of another kind: the
  member is lost (`SmoveAgreesExactly`, `SmoveLosesMember`).
- `rename` across servers drops the time to live and returns normally for a missing key, which one server
  reports as an error (`RenameAgreesExactly`, `Client.Rename`, `RenameDropsTtl`).
- `sinter`, `sunion` and the store commands that throw on one shard leave the replies of later shards unread
  (`StoppedInSync`, `SinterLosesSync`); range `sadd` leaves those of the later members (`SaddRange`,
  `SaddLosesSync`).
- `msetex` with a time that is not positive throws exactly when a key is repeated, and loses sync unless that
  happens at the last reply of all (`Msetex`, `ExpiryStoppedInSync`, `MsetexLosesSync`).
- `sunion` returns the size of the union over one server and the size of the output set over several; the two agree
  exactly when the output set held nothing outside the union (`SunionCountAgreesExactly`, `SunionCountsDifferently`).
- `send_` does not notice a write that stops with 0: it returns normally after sending a part (`SendBytes`,
  `SendsHalf`).
- `exec_transaction` that meets a command the server does not queue throws with the answer to `EXEC` and others
  still unread (`ExecTransaction`, `TransactionLosesSync`). A transaction sent command by command through `exec` makes
  the reading of `EXEC`'s answer throw in the middle of it, unless it is all bulk strings (`Exec`, `ExecLosesSync`).
- a status text ending in CR, an error text not starting with `ERR `, and, where `long` is wider than `int`, an
  integer outside the range of `int` are not received as they were sent (`StatusRoundTripExactly`,
  `ErrorRoundTripExactly`, `IntRoundTripExactly`; `StatusLosesCr`, `ErrorLosesPrefix`, `IntegerWraps`). A missing value
  and the sentinel text are received alike, and no other two (`SentinelIsOnlyCollision`).

## Model

| member | source | states |
|---|---|---|
| `Decimal.CastOfPrint` | HQTEST/redisclient.h:270-275 | printing any integer and reading it with the lexical cast of the length and integer replies gives it back |
| `Decimal.PrintIsDecimal` | HQTEST/redisclient.h:270-275 | what is printed are decimal digits whose weighted sum is the number, without leading zeros, and `-` before a negative one |
| `Decimal.CastMeans` | HQTEST/redisclient.h:2292-2292 | the cast takes exactly a non-empty row of decimal digits, with a sign or without, and gives its decimal value |
| `RespLaws.RTrimMeans` | HQTEST/redisclient.h:2451-2456 | `rtrim` cuts exactly the longest tail of bytes of the given set |
| `RespLaws.LineEndsAtLf` | HQTEST/redisclient.h:2540-2545 | a line is read up to its first LF, whether or not CR precedes it, and exactly the bytes behind the LF stay |
| `RespLaws.ReadStatus` | HQTEST/redisclient.h:2245-2268 | an encoded status gives its text; an encoded error throws with the text behind `ERR `, or "unknown error"; exactly that reply is consumed |
| `RespLaws.ReadInt` | HQTEST/redisclient.h:2367-2382 | an encoded integer is received as that integer, an error throws; exactly that reply is consumed |
| `RespLaws.ReadBulk` | HQTEST/redisclient.h:2295-2319 | any byte string, CR, LF, `$` and `*` included, is received unchanged; a null bulk is received as the sentinel |
| `RespLaws.ReadMultiBulk` | HQTEST/redisclient.h:2321-2347 | a flat array is received whole by both overloads, whatever is in the output already; the length is returned and the tail stays |
| `RespLaws.RefuseBulks` | HQTEST/redisclient.h:2330-2331 | one element that is not a bulk string makes the reading of the whole array throw; exactly what follows its first line is unread |
| `RespLaws.CommandRoundTrip` | HQTEST/redisclient.h:266-280 | receiving what `makecmd` prints appends exactly its strings, returns their number and leaves any tail |
| `RespLaws.FramingRoundTrip` | HQTEST/redisclient.h:693-697 | joined commands are taken apart into exactly the commands that were joined, before whatever follows |
| `RespLaws.FramingIsUnambiguous` | HQTEST/redisclient.h:636-646 | two different command sequences never print the same bytes |
| `RespLaws.ReadGeneric` | HQTEST/redisclient.h:2509-2538 | every reply a server can put on the wire is decoded to the tag and payload of its kind and then consumed exactly; error texts lose five bytes, integers keep their low 32 bits, arrays with an element that is no bulk string throw and leave what follows its first line |
| `RespLaws.SentinelIsOnlyCollision` | HQTEST/redisclient.h:2299-2300 | two different bulk replies are received alike exactly when one is null and the other is the sentinel text |
| `RespLaws.StatusRoundTripExactly` | HQTEST/redisclient.h:2515-2517 | the getter gives a status text back unchanged, with nothing left over, exactly when it has no LF and does not end in CR |
| `RespLaws.ErrorRoundTripExactly` | HQTEST/redisclient.h:2518-2520 | an error's text can be recovered from what the getter gives, with nothing left over, exactly when it has no LF, does not end in CR and starts with `ERR ` |
| `RespLaws.IntRoundTripExactly` | HQTEST/redisclient.h:2521-2523 | where `long` is wider than 32 bits: the getter gives an integer back exactly when it fits into the 32 bits of the variant's `int` |
| `RespLaws.GettersMatchTags` | HQTEST/redisclient.h:298-360 | on whatever has been received from whatever stream, the getter of the tag finds its alternative in the variant, and every other getter throws on the tag |
| `RespLaws.PayloadsRoundTrip` | HQTEST/redisclient.h:2524-2534 | the getters give bulk strings and arrays of them back as they were sent |
| `Wire.CommandBytes` | HQTEST/redisclient.h:266-280 | a command is `*`, its number of strings in decimal, CRLF, and for each string `$`, its size in decimal, CRLF, the string, CRLF |
| `Wire.TenBytes` | HQTEST/redisclient.h:270-275 | a string of ten bytes is announced as `$10` |
| `Wire.ReplyBytes` | HQTEST/redisclient.h:2487-2507 | every kind of reply in bytes |
| `Wire.NoLine` | HQTEST/redisclient.h:2563-2590 | a stream without LF is consumed and its end is an exception |
| `Wire.StatusLines` | HQTEST/redisclient.h:2245-2268 | the text behind `+`; the message behind `-ERR `, "unknown error" when it is empty; the messages for an empty line and any other |
| `Wire.IntegerLine` | HQTEST/redisclient.h:2367-2382 | digits behind `:`, with `-` or without, give their decimal value |
| `Wire.RefusedIntegerLine` | HQTEST/redisclient.h:2367-2382 | the exceptions for an empty line, another prefix and no number |
| `Wire.LengthLine` | HQTEST/redisclient.h:2276-2293 | digits behind the prefix, with `-` or without, give their decimal value |
| `Wire.RefusedLengthLine` | HQTEST/redisclient.h:2276-2293 | the exceptions for another prefix and no number |
| `Wire.NegativeBulks` | HQTEST/redisclient.h:2295-2319 | length -1 gives the sentinel text, -2 is refused as empty, others cannot be allocated |
| `Wire.NegativeArrays` | HQTEST/redisclient.h:2321-2347 | length -1 throws; another negative one is returned with no elements, unless a vector would have to reserve a negative size |
| `Wire.ShortBulk` | HQTEST/redisclient.h:2304-2306 | a stream that ends inside a bulk string or its CRLF throws |
| `Wire.FirstBytes` | HQTEST/redisclient.h:2487-2507 | the five prefixes select their tags and every other byte throws |
| `Wire.IncompleteStays` | HQTEST/redisclient.h:2235-2243 | a part of a command, as `send_` may leave it, is not taken for one |
| `Wire.NarrowIsModulo` | HQTEST/redisclient.h:2521-2523 | an integer that is stored fits into 32 bits and differs by a multiple of 2^32 |
| `Wire.KeyStrings` | HQTEST/redisclient.h:545-551 | the strings sent for commands on keys |
| `Wire.MemberStrings` | HQTEST/redisclient.h:1325-1331 | the strings sent for commands on lists and sets |
| `Wire.NumberStrings` | HQTEST/redisclient.h:636-638 | the strings sent for commands with numbers |
| `Wire.ManyKeysStrings` | HQTEST/redisclient.h:1417-1420 | the strings sent for commands with many keys |
| `Wire.MsetStrings` | HQTEST/redisclient.h:584-594 | `MSET` is followed by keys and values in turn |
| `Network.AnetWrite` | HQTEST/anet.c:195-208 | for every sequence of short writes, exactly the bytes the link accepts are emitted, in order, and the count or the error is returned |
| `Network.SendBytes` | HQTEST/redisclient.h:2235-2243 | returns normally exactly when the link accepts everything or stops with a plain 0; what is sent is exactly what the link accepts |
| `Network.AnetRead` | HQTEST/anet.c:182-193 | for every sequence of short reads, a prefix of the stream is returned in order: `count` bytes, or all there are at the end of the stream |
| `Network.PassOn` | HQTEST/anet_win32.c:77-89 | over any link, in any pieces: the writer gets the number of bytes accepted, or -1 if the link failed, and `read_n` with any count gives exactly those bytes behind what was there before, or throws if there are fewer |
| `Network.PassOnRead` | HQTEST/anet.c:182-208 | the same with `anetRead`, which gives a prefix of that stream, and without interrupts as much of it as asked for |
| `Network.RecvOrThrow` | HQTEST/redisclient.h:381-397 | interrupted calls are repeated; a non-empty prefix of the stream is returned, or an exception at its end |
| `Network.ReadN` | HQTEST/redisclient.h:2466-2485 | exactly the next n bytes are returned and consumed, for every way they arrive |
| `Network.ReadChunk` | HQTEST/redisclient.h:2563-2590 | the bytes peeked at are consumed, but never past the first LF |
| `Network.ReadLine` | HQTEST/redisclient.h:2547-2597 | for every stream, every way it arrives and every size limit: consumes exactly through the first LF, or throws at the end of the stream |
| `Receive.MakeRequest` | HQTEST/redisclient.h:266-280 | the printing loop prints the array of bulk strings of its lines |
| `Receive.RecvSingleLine` | HQTEST/redisclient.h:2245-2268 | on every stream, equal to the parser of a status line: value or exception, and what stays unread |
| `Receive.RecvLength` | HQTEST/redisclient.h:2276-2293 | on every stream, equal to the parser of a length line |
| `Receive.RecvInt` | HQTEST/redisclient.h:2367-2382 | on every stream, equal to the parser of an integer reply |
| `Receive.RecvBulk` | HQTEST/redisclient.h:2295-2319 | on every stream, equal to the parser of a bulk reply, negative lengths included |
| `Receive.RecvElements` | HQTEST/redisclient.h:2330-2331 | the element loop collects what the bulk parser gives, up to the first exception |
| `Receive.RecvMultiBulk` | HQTEST/redisclient.h:2321-2334 | on every stream, appends what the array parser gives and returns the announced length |
| `Receive.RecvMultiBulkSet` | HQTEST/redisclient.h:2336-2347 | the same into a set |
| `Receive.NextReplyType` | HQTEST/redisclient.h:2487-2507 | the tag for the first byte, which stays unread; an unknown byte throws |
| `Receive.RecvGeneric` | HQTEST/redisclient.h:2509-2538 | on every stream, equal to the parser selected by the peeked first byte; an unknown byte throws and consumes nothing |
| `Channel.JoinRequests` | HQTEST/redisclient.h:1340-1345 | joining printed requests gives the encoding of the command sequence |
| `Channel.Channel.Send` | HQTEST/redisclient.h:2235-2243 | the server gets exactly the commands sent and answers each once, in order; a bad socket throws and sends nothing |
| `Channel.Channel.RecvStatusLine` | HQTEST/redisclient.h:2245-2268 | consumes exactly one unread status or error reply and gives its text or exception; an array is refused |
| `Channel.Channel.RecvOk` | HQTEST/redisclient.h:2270-2274 | consumes one reply and returns normally exactly for OK |
| `Channel.Channel.RecvInt` | HQTEST/redisclient.h:2367-2382 | consumes one unread integer or error reply |
| `Channel.Channel.RecvIntOk` | HQTEST/redisclient.h:2384-2388 | consumes one reply and returns normally exactly for 1 |
| `Channel.Channel.RecvBulk` | HQTEST/redisclient.h:2295-2319 | consumes one unread bulk or error reply |
| `Channel.Channel.RecvMultiBulk` | HQTEST/redisclient.h:2321-2334 | consumes one unread array or error reply, appending to a vector |
| `Channel.Channel.RecvMultiBulkSet` | HQTEST/redisclient.h:2336-2347 | consumes one unread array or error reply, inserting into a set |
| `Channel.Channel.RecvGeneric` | HQTEST/redisclient.h:2509-2538 | gives the data of the first unread reply or throws; exactly that reply is consumed, or, after an element that is no bulk string, the rest of the array stays |
| `Channel.Channel.RecvHead` | HQTEST/redisclient.h:738-739 | consumes an array's header and leaves its elements as the next replies |
| `Shards.ShardIsModulo` | HQTEST/redisclient.h:2605-2611 | a key belongs to the connection whose index is the key's hash modulo the number of connections |
| `Shards.ExecuteAllOnShard` | HQTEST/redisclient.h:2390-2397 | requests of one shard act alike on two stores that agree on that shard and leave all other keys alone |
| `Shards.ScatterStaysPlaced` | HQTEST/redisclient.h:2390-2397 | every key still lives only on the shard it is routed to after any work routed by key |
| `Shards.ScatterLifts` | HQTEST/redisclient.h:580-606 | each shard answers as the logical store would, and the shards together hold what the logical store becomes |
| `Shards.RoutedAddUp` | HQTEST/redisclient.h:621-639 | the numbers of elements routed to the sockets add up to the number of elements |
| `Gather.SlicesAddUp` | HQTEST/redisclient.h:1100-1115 | the shares of the shards partition a key set: their sizes add up to its size |
| `Gather.MsetSplits` | HQTEST/redisclient.h:584-594 | on the keys of a shard only that shard's pairs matter, in their order |
| `Gather.MsetIsFold` | HQTEST/redisclient.h:580-606 | setting many pairs is setting them one by one from left to right, a later pair wins |
| `Gather.PositionsPartition` | HQTEST/redisclient.h:752-761 | the index lists partition 0..n-1, are increasing, and line up with the keys sent to each socket |
| `Gather.ExpireReplies` | HQTEST/redisclient.h:636-638 | the reply to an expiry is 1, except for a repeated key with a time that is not positive |
| `Gather.BatchSplits` | HQTEST/redisclient.h:621-647 | on the keys of a shard, the shard's batch of `MSET` and `EXPIRE`s does what the whole batch does |
| `Gather.DistinctSplits` | HQTEST/redisclient.h:621-639 | a key is repeated in the vector exactly when it is repeated on some shard |
| `Gather.SaddEachRuns` | HQTEST/redisclient.h:1341-1353 | adding members one by one adds them all, and the sum of the replies is the number of new members |
| `Reference.SetMeans` | HQTEST/redisclient.h:545-551 | the effect and answer of `SET` on every key |
| `Reference.GetMeans` | HQTEST/redisclient.h:658-663 | the answers to `GET` for a missing key, a string and another kind |
| `Reference.MsetMeans` | HQTEST/redisclient.h:580-606 | a key gets the value of its last pair without a time to live, and other keys stay |
| `Reference.MgetMeans` | HQTEST/redisclient.h:747-778 | texts in the order of the keys, null for a missing key and for another kind |
| `Reference.ExpireMeans` | HQTEST/redisclient.h:636-638 | the effect and answer of `EXPIRE` on every key |
| `Reference.DelMeans` | HQTEST/redisclient.h:939-962 | the named keys go, the answer is how many different ones existed |
| `Reference.TypeMeans` | HQTEST/redisclient.h:964-982 | the name of each kind |
| `Reference.KeysMeans` | HQTEST/redisclient.h:984-999 | each matching key once |
| `Reference.DbsizeMeans` | HQTEST/redisclient.h:1100-1115 | the number of keys |
| `Reference.RenameMeans` | HQTEST/redisclient.h:1027-1074 | the value moves with its time to live; onto itself nothing changes |
| `Reference.RangeInside` | HQTEST/redisclient.h:1163-1171 | `LRANGE` within the list gives the elements from start through stop |
| `Reference.RangeOutside` | HQTEST/redisclient.h:1163-1171 | negative positions count from the end; positions outside the list are cut or give nothing |
| `Reference.LrangeMeans` | HQTEST/redisclient.h:1163-1171 | the answers to `LRANGE` for a missing key, a list and another kind |
| `Reference.RpushMeans` | HQTEST/redisclient.h:1140-1146 | the value is added at the end, the time to live stays, the answer is the new length |
| `Reference.SaddMeans` | HQTEST/redisclient.h:1325-1331 | the member is added, the time to live stays, the answer is whether it was new |
| `Reference.SremMeans` | HQTEST/redisclient.h:1357-1363 | the member goes, and with the last one the key |
| `Reference.SmembersMeans` | HQTEST/redisclient.h:1538-1543 | each member once |
| `Reference.SmoveMeans` | HQTEST/redisclient.h:1372-1385 | when `SMOVE` answers 1, 0 or an error, and that onto itself nothing changes |
| `Reference.SmoveMoves` | HQTEST/redisclient.h:1383-1384 | between two keys the member leaves the one and is in the other, with both times to live kept |
| `Reference.SinterMeans` | HQTEST/redisclient.h:1406-1441 | each member that all sets have, once |
| `Reference.SunionMeans` | HQTEST/redisclient.h:1472-1501 | each member that some set has, once |
| `Reference.StoreMeans` | HQTEST/redisclient.h:1446-1470 | the destination becomes the set without a time to live, or goes when it is empty |
| `Reference.KnownCommands` | HQTEST/redisclient.h:266-280 | a server knows a command exactly if it is one of those the client sends, numbers written in any way |
| `Reference.QueueMeans` | HQTEST/redisclient.h:712-745 | what each command does and answers while a transaction is open |
| `Reference.NoQueueMeans` | HQTEST/redisclient.h:682-687 | what each command does and answers otherwise |
| `Door.KnockMeans` | HQTEST/redisclient.h:533-541 | `AUTH` is answered by OK exactly for the server's password, `SELECT` for a database it has, once the password is known |
| `Door.Enter` | HQTEST/redisclient.h:412-426 | `AUTH` if there is a password, then `SELECT`: returns normally exactly if the server has this password and the database, and leaves nothing unread |
| `Client.Connect` | HQTEST/redisclient.h:438-463 | throws without connections, and unless every server has the password and its database; otherwise the connections are in sync and each server has the chosen database's contents |
| `Client.Client.EmptyIsValid` | HQTEST/redisclient.h:450-463 | over empty databases the client is then valid and its logical store is empty |
| `Client.Partition` | HQTEST/redisclient.h:1409-1412 | for each socket, the elements routed to it in their order, and no socket without elements |
| `Client.Place` | HQTEST/redisclient.h:775-776 | element j of a shard's answer is put at position indices[j] and nothing else changes |
| `Client.MsetexFill` | HQTEST/redisclient.h:621-639 | the filling loop leaves each socket with pairs its `MSET`, its joined `EXPIRE`s and their number, and the counts add up to the number of pairs |
| `ClientLaws.MsetexCounts` | HQTEST/redisclient.h:609-639 | on every socket `count` is the number of commands a server takes out of `expire_cmds`; the counts add up to the number of pairs |
| `Client.Client.Set` | HQTEST/redisclient.h:545-551 | the logical store gets the value without a time to live |
| `Client.Client.Get` | HQTEST/redisclient.h:658-663 | the text under the key, `**nonexistent-key**` if it is missing, an exception exactly for another kind of value |
| `Client.Client.Mset` | HQTEST/redisclient.h:580-606 | the logical store becomes the pairs set from left to right; all connections in sync |
| `Client.Client.Msetex` | HQTEST/redisclient.h:617-656 | the logical store becomes the pairs set and then expired; returns normally exactly when the time is positive or no key is repeated, and then all 1 + count replies of every socket are read; when it throws, where, what is then unread, and exactly when that is nothing |
| `Client.Client.RecvOnes` | HQTEST/redisclient.h:652-653 | reads up to the first reply that is not 1 and leaves those behind it |
| `Client.Client.MsetexShard` | HQTEST/redisclient.h:649-655 | reads OK and one integer per pair of the socket; throws at the first pair that repeats a key, if the time is not positive, and leaves the replies behind it |
| `Client.Client.ExpiryStoppedInSync` | HQTEST/redisclient.h:649-655 | after such an exception the connections are in sync exactly when only the last pair of its socket repeats a key and no later socket has pairs |
| `ClientLaws.MsetexMeans` | HQTEST/redisclient.h:617-656 | for a positive time every named key ends with its last text and that time to live, other keys unchanged; otherwise every named key is gone |
| `Client.Client.Mget` | HQTEST/redisclient.h:747-778 | position i is the text the logical store has under key i, duplicates included, and `**nonexistent-key**` for a missing key and for another kind; nothing changes |
| `Client.Client.Del` | HQTEST/redisclient.h:931-936 | the key is gone and the answer is whether it existed |
| `Client.Client.DelRange` | HQTEST/redisclient.h:939-962 | exactly the given keys are gone and the answer is whether one existed |
| `Client.Client.Type` | HQTEST/redisclient.h:964-982 | the kind of the value under the key |
| `ClientLaws.NamesOfTypes` | HQTEST/redisclient.h:968-981 | the kind for each name the server may answer, and for any other |
| `Client.Client.Keys` | HQTEST/redisclient.h:984-999 | every matching key of the logical store is appended, none twice, and counted |
| `Client.Client.Dbsize` | HQTEST/redisclient.h:1100-1115 | the size of the logical store |
| `Client.Client.Rpush` | HQTEST/redisclient.h:1140-1146 | the value is appended to the list, with the server's count or exception |
| `Client.Client.Lrange` | HQTEST/redisclient.h:1163-1171 | the elements from start through stop, counted from the end when negative, are appended in order; an exception exactly for another kind of value |
| `Client.Client.CopyAcross` | HQTEST/redisclient.h:1033-1067 | string, list and set values arrive whole under the new name, any previous value gone; other kinds throw and change nothing |
| `Client.Client.Rename` | HQTEST/redisclient.h:1027-1074 | the logical store after renaming in both branches, and exactly when it throws |
| `ClientLaws.RenameAgreesExactly` | HQTEST/redisclient.h:1032-1070 | across servers the result is that of one server's RENAME exactly when the old name is missing, or holds a string, list or set without a time to live |
| `ClientLaws.RenameMoves` | HQTEST/redisclient.h:1027-1074 | the new name holds the old value, the old name is gone, all other keys are unchanged |
| `Client.Client.Sadd` | HQTEST/redisclient.h:1325-1331 | the member is in the set, and whether it was new |
| `Client.Client.SaddRange` | HQTEST/redisclient.h:1334-1355 | all members are in the set and the result is the number of new ones; on another kind of value it throws with exactly n-1 replies unread |
| `Client.Client.Srem` | HQTEST/redisclient.h:1357-1363 | returns normally exactly when the member was there, and then it is gone |
| `Client.Client.Smove` | HQTEST/redisclient.h:1372-1385 | the logical store after moving in both branches; returns normally exactly when one server's SMOVE answers 1 |
| `ClientLaws.SmoveAgreesExactly` | HQTEST/redisclient.h:1376-1381 | across servers the result is that of one server exactly unless the member is there and the destination is of another kind |
| `ClientLaws.SmoveConserves` | HQTEST/redisclient.h:1372-1385 | between sets, the union is conserved, a present member changes sides, an absent one and a move onto itself change nothing |
| `Client.Client.Smembers` | HQTEST/redisclient.h:1538-1543 | the members are inserted into the output set and their number is returned; an exception exactly for another kind of value |
| `Client.Client.GetSocket` | HQTEST/redisclient.h:2399-2418 | the common value of the keys' hashes modulo the number of connections, or -1 when there are two |
| `Client.Client.Sinter` | HQTEST/redisclient.h:1406-1441 | the intersection of all sets for every placement of the keys; exactly when it throws, at which shard, what is then unread, and exactly when that is nothing |
| `Client.Client.SinterGather` | HQTEST/redisclient.h:1422-1438 | the receive loop gives the intersection, or stops at the first shard with a key that holds no set, with the later answers unread |
| `Client.Client.StoppedInSync` | HQTEST/redisclient.h:1422-1438 | after such an exception the connections are in sync exactly when no key is on a later shard than a key that holds no set |
| `Client.Client.Sinterstore` | HQTEST/redisclient.h:1446-1470 | both branches end in the store and count of one server's SINTERSTORE, also when the destination is a source; exactly when it throws, what is then unread, and exactly when that is nothing |
| `Client.Client.Sunion` | HQTEST/redisclient.h:1472-1501 | the old output united with all sets in both branches; the size returned is that of the union on one server and that of the output on several; exactly when it throws, what is then unread, and exactly when that is nothing |
| `ClientLaws.SunionCountAgreesExactly` | HQTEST/redisclient.h:1474-1500 | the count returned is the size of the union, as over one server, exactly when the keys are on one server or the output set held nothing outside the union |
| `Client.Client.Sunionstore` | HQTEST/redisclient.h:1503-1518 | gather, delete and pipelined add end in the store and count of one server's SUNIONSTORE, also for an empty union; exactly when it throws, what is then unread, and exactly when that is nothing |
| `Client.Client.Exec` | HQTEST/redisclient.h:682-687 | the command gets its server's reply, which cannot throw outside a transaction; when it throws, exactly what is left of the array is unread |
| `Client.Client.ExecOneByOne` | HQTEST/redisclient.h:682-687 | the list run one command at a time ends in the sequential meaning of the list, or at the first reply that cannot be stored |
| `Client.Client.ExecAll` | HQTEST/redisclient.h:689-710 | every server ends as after running the list one command at a time and command i holds the reply it would get then; its sends and reads are a trace of the state machine; it throws exactly if a reply cannot be stored, never without transactions, and then at the first such reply, with the later ones unread |
| `Client.Client.ExecTransaction` | HQTEST/redisclient.h:712-745 | sends nothing when two commands belong to different servers; otherwise returns normally exactly when all commands can be queued, and then command i holds element i and the server is where the commands in order take it; when it throws, the server's state and the replies left unread |
| `Client.Client.RecvQueued` | HQTEST/redisclient.h:732-737 | consumes exactly n QUEUED lines, or throws at the first other reply |
| `Pipeline.RunByShard` | HQTEST/redisclient.h:689-710 | each server ends as if it had been given its own commands alone |
| `Pipeline.ReplyByShard` | HQTEST/redisclient.h:705-709 | reply i of the sequential run is the reply at the command's position among its server's own commands |
| `Pipeline.RunIsLogical` | HQTEST/redisclient.h:689-710 | on commands that name keys of their own shard, the run over several servers is one server's run on the logical store |
| `Pipeline.RunHasData` | HQTEST/redisclient.h:689-710 | outside transactions every reply to every list of commands can be stored |
| `Interleaving.RepliesMatchCommands` | HQTEST/redisclient.h:682-710 | in every reachable state of every interleaving, the j-th reply read on a connection answers the j-th command sent on it |
| `Interleaving.DelayIsArrival` | HQTEST/redisclient.h:2547-2597 | in every reachable state of every interleaving, the unread bytes are a prefix of those that servers answering at once would have left unread, and all of them once every command is answered |
| `Interleaving.AnyInterleaving` | HQTEST/redisclient.h:689-710 | every interleaving of sending, answering and reading ends in the servers and replies of the sequential run |
| `Transaction.Commits` | HQTEST/redisclient.h:712-745 | MULTI, n known commands and EXEC are answered by OK, n times QUEUED and one array of n replies, with the commands run in order |
| `Transaction.Breaks` | HQTEST/redisclient.h:732-737 | the first command that cannot be queued is answered by something else than QUEUED |
| `Transaction.Aborts` | HQTEST/redisclient.h:728-739 | with a command the server does not know nothing of the transaction happens, and EXEC is answered by an error |
| `Session.RunSession` | HQTEST/redisclient.h:545-778 | any sequence of calls gives the responses, output arguments and counts included, the exception and the store of the same calls on one map, keeps every key on its shard, and ends with the connections in sync exactly when the run on the map says so: always without an exception |
| `Session.CallIsSingle` | HQTEST/redisclient.h:1027-1074 | a call over several servers has the effect and response of the call over one server exactly when it is harmless: only `rename`, `smove`, `sunion` into an output set and transactions can differ |
| `Session.ShardingIsInvisible` | HQTEST/redisclient.h:2390-2418 | a run of harmless calls over any number of servers is the run over one server |
| `Findings.StatusLosesCr` | HQTEST/redisclient.h:2515-2517 | the status `OK` followed by CR arrives as `OK` |
| `Findings.ErrorLosesPrefix` | HQTEST/redisclient.h:2518-2520 | of the error `BUSY now` only ` now` is stored |
| `Findings.IntegerWraps` | HQTEST/redisclient.h:2521-2523 | where `long` is wider than 32 bits: 2147483648 and the integers up to 4294967295 are stored as negative ones |
| `Findings.SendsHalf` | HQTEST/redisclient.h:2235-2243 | of `PING` over a link that takes one byte, `P` is sent and nothing is thrown |
| `Findings.SmoveLosesMember` | HQTEST/redisclient.h:1372-1385 | from a set to a string on another server: the member is in no set afterwards, where SMOVE changes nothing |
| `Findings.RenameDropsTtl` | HQTEST/redisclient.h:1032-1070 | a string with a time to live, renamed to another server, has none |
| `Findings.SinterLosesSync` | HQTEST/redisclient.h:1422-1438 | from empty servers, one `set` and one `sinter` that throws end out of sync |
| `Findings.SinterKeepsSync` | HQTEST/redisclient.h:1422-1438 | with the string on the last server they end in sync |
| `Findings.SaddLosesSync` | HQTEST/redisclient.h:1334-1355 | two members added to a string end out of sync |
| `Findings.MsetexLosesSync` | HQTEST/redisclient.h:649-655 | three pairs with one key and the time 0 end out of sync |
| `Findings.TransactionLosesSync` | HQTEST/redisclient.h:732-737 | a transaction with an unknown command ends out of sync |
| `Findings.ExecLosesSync` | HQTEST/redisclient.h:682-687 | two `SET`s between `MULTI` and `EXEC`, all through `exec`, end out of sync |
| `Findings.SunionCountsDifferently` | HQTEST/redisclient.h:1472-1501 | the same set into the same output: 1 with its key alone, 2 with a missing key on another server |
| `Findings.ForeignKeyIsMisplaced` | HQTEST/redisclient.h:682-687 | a command routed by another key than it writes puts that key on the wrong server |

## Left out

- LexicalCast: `int_type` (`long`) is a mathematical integer: that a length or an integer reply beyond the range of `long` is a bad cast is not modelled, because the width is the platform's (32 bits with Visual C++, where such a reply throws before it could be narrowed; 64 bits on most others). The narrowing of an integer reply to `int` is modelled.
- Session.RunSession: the user's own commands are restricted to those that name keys of the shard they are routed to and are no `MULTI`, `EXEC`, `KEYS` or `DBSIZE`, because the others have no meaning on one map (`ForeignKeyIsMisplaced`); `Client.Exec`, `ExecAll` and `ExecTransaction` take all commands.
- Time: an expiry is recorded with its key and never fires.
- The ids of sockets: a `std::map` keyed by socket is walked in connection order, which matters only for the shard at which a gathering call throws.
- Several connections to one database, several clients at once, and full socket buffers.
- Several databases of one server at the same time: a connection keeps the one it has selected.
- Socket options, name resolution and accepting in `anet.c` and `anet_win32.c`: operating-system calls.
- The `makecmd` builder and its check for exactly one routing key: a command is given as its lines and its key.
- Messages of exceptions other than protocol errors, and what an output argument holds after an exception.
- The debugging output of `sinterstore`.
- `mset(keys, values)`, both `msetnx` overloads, `sdiff`, `brpop(vector)`, the second `sort` overload, `zrangebyscore` with scores and `srandmember`: they use a wrong routing key or a wrong command, ignore a parameter, or do not compile when used.
- `renamenx`, `sdiffstore`, the one-line commands for counters, lists, hashes and sorted sets, and the `distributed_*` wrappers: each sends one request and receives one reply, as `set` and `get` do.
- `distributed_mutex` and `distributed_base_sequence`: compiled out in the source.
- Scores, `randomkey`, `lastsave`, `shutdown`, `save`, `bgsave` and `info`: floating point, randomness or plain I/O.
