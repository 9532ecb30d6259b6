# Chat log protocol — a Dafny model

This project models the chat protocol a server worker runs on each socket
connection (`index.js`). All workers open the same database file
(index.js:22-25), so they share one SQLite table of accepted messages,
`messages(id, client_offset, content, nickname)`. The schema declares
`id INTEGER PRIMARY KEY AUTOINCREMENT` and `client_offset TEXT UNIQUE`.
Three handlers act on that table:

- `set nickname` records the connection's display name;
- `chat message` tries an INSERT. On success it broadcasts
  `{message, nickname}` with the new id to every client and then calls the
  client's acknowledgement callback. When the UNIQUE constraint is violated
  (errno 19) it only acknowledges. On any other failure it does nothing, so the
  client retries with the same `client_offset`;
- connection setup replays, as one `batch chat messages` event, every row
  with `id > serverOffset || 0`. It does this only when the socket layer did
  not recover the connection. A failed read sends nothing.

The model is functional. The table is an immutable `seq` of rows. Each
handler is a pure function that returns the new log and the effects the
handler produces, in the order it produces them (`Broadcast`, `Ack`, `Batch`).
The storage engine is abstract. The table's contents decide whether the UNIQUE
constraint is violated. Everything else the store might do is an input,
`StoreBehaviour(fault, skipped)`:

- `fault` is a failure unrelated to the constraints (I/O error, busy database,
  exhausted rowids). Its code is never 19.
- `skipped` is how many ids AUTOINCREMENT passes over. SQLite promises that ids
  increase, not that they are consecutive.

So the three outcomes of an insert (success, constraint violation, other
failure) follow from the log and that input.

Files:

- `optional.dfy` — `Option`, for JavaScript values that may be `undefined`.
- `message_log.dfy` — module `MessageLog`: rows, the schema's guarantees
  (`Valid`: positive, strictly increasing ids and pairwise distinct offsets),
  the INSERT and the SELECT.
- `chat_server.dfy` — module `ChatServer`: session, the three handlers, and a
  server worker stepping through events on many connections.
- `chat_properties.dfy` — module `ChatProperties`: retried submissions, whole
  event sequences, and live broadcast against later replay.

Facts about the code that shape the contracts:

- Ids increase but need not be consecutive, because AUTOINCREMENT may skip
  ids; the model proves only that they increase.
- The replay query has no ORDER BY (index.js:92), so the batch contract
  claims which rows it holds, not their order.
- A failed replay read is swallowed and sends nothing (index.js:95-97).
- `set nickname` may arrive any number of times; each replaces the last
  (index.js:63-65).

## Model

| member | source | states |
|---|---|---|
| MessageLog.MaxId | index.js:29 | The id AUTOINCREMENT continues from is at least every stored id, is one of them (or 0 for an empty table), and is never negative. |
| MessageLog.Insert | index.js:71 | The INSERT succeeds exactly when the store does not fail and the offset is new. It fails with errno 19 exactly when the store does not fail and the offset is already stored. An unrelated failure is passed through. A success appends exactly one row, with the given values and an id above every existing id, and keeps the schema's guarantees. |
| MessageLog.SelectAfter | index.js:92 | The query returns every row with id above the bound and nothing else. It returns no more rows than the table holds, and the result again has positive, ascending ids and distinct offsets (ascending because the model returns rows in insertion order; see "Left out"). |
| ChatServer.SetNickname | index.js:63-65 | After `set nickname`, the connection's display name is the given nickname, or `Anonymous` when it is empty. |
| ChatServer.OnChatMessage | index.js:67-88 | On a store failure the log is unchanged and nothing is sent. On a duplicate offset the log is unchanged and only an acknowledgement is sent. Otherwise exactly one row is appended, carrying the session's display name and an id above every existing id, and it is broadcast with that id before the acknowledgement. Every outcome keeps the schema's guarantees. |
| ChatServer.OnConnection | index.js:90-98 | A recovered connection, or one whose read fails, gets nothing. Any other connection gets one batch. The batch holds every row above the watermark (`serverOffset`, or 0 when absent), mapped unchanged to `{message, nickname, id}`, and nothing else. On a valid log, no id appears twice in it. |
| ChatServer.Step | index.js:62-99 | One event on one connection never modifies existing rows, adds at most one row, and keeps the schema's guarantees. What it broadcasts is exactly the row it added, if any. Events on a connection that is not open change nothing. A connection starts with a fresh session, `set nickname` changes only its own connection's session, a chat message changes no session, and a stored new message carries the sending connection's display name. |
| ChatProperties.RetryOfStoredOnlyAcks | index.js:71-75 | Retrying a submission whose offset is already stored leaves the log unchanged and never broadcasts. Every attempt the store serves is acknowledged, and every failed attempt gets no reply. |
| ChatProperties.RetriesStoreOnce | index.js:67-88 | Submitting a new offset any number of times back to back, on one connection with no other events in between, stores exactly one row, and only if some attempt is served. It broadcasts exactly once, on the first served attempt and before that attempt's acknowledgement. Every later served attempt is acknowledged, and failed attempts get no reply. |
| ChatProperties.RunKeepsLog | index.js:28-35 | Across any sequence of events on any connections, the log keeps positive strictly increasing ids and distinct offsets. |
| ChatProperties.RunExtendsLog | index.js:71 | Across any sequence of events, every row once stored stays unchanged in place: the final log extends the starting one. |
| ChatProperties.RunBroadcastsNewRows | index.js:71-87 | Across any sequence of events on any connections, the messages broadcast are exactly the rows added to the log, in the order they were added. |
| ChatProperties.EachOffsetBroadcastOnce | index.js:30-87 | However the events of all connections interleave, no client offset is broadcast twice and no offset stored before the run is broadcast at all. Each broadcast is one newly stored row, and the broadcast ids are pairwise distinct. |
| ChatProperties.StoredOffsetOnlyAcks | index.js:71-79 | Once an offset is stored, a later submission with it on any connection, after any events in between, leaves the log unchanged. It is acknowledged when the connection is open and the store serves it, and gets no reply otherwise. |
| ChatProperties.OtherConnsKeepSession | index.js:62-65 | Any sequence of events on other connections leaves a connection's session, and whether it is open, unchanged. |
| ChatProperties.NicknameIsPerConnection | index.js:63-71 | A nickname set on one connection is stored with that connection's next new message, whatever other connections do in between; an empty nickname stores `Anonymous`. |
| ChatProperties.NicknameTakesEffect | index.js:63-71 | After `set nickname`, the next stored and broadcast message carries that nickname, or `Anonymous` when it was empty. |
| ChatProperties.BroadcastIsReplayed | index.js:84-93 | A message broadcast live reappears unchanged in the batch of any later non-recovered connection whose watermark is below its id. |
| ChatProperties.NoWatermarkReplaysAll | index.js:92 | A connection that presents no `serverOffset` is replayed every row of a valid log. |
| ChatProperties.FirstMessageScenario | index.js:67-98 | On an empty log, an anonymous "hi" is broadcast with id 1. Its retry is only acknowledged. A fresh connection with no watermark gets exactly that one message. |

## Left out

- Cluster forking, per-worker ports and `server.listen` (index.js:12-20, 101-105): process supervision and I/O.
- Serving the static page (index.js:58-60).
- Socket.io server construction, the cluster adapter and compression settings (index.js:40-54): library configuration. `io.emit` and `socket.emit` appear only as the `Broadcast` and `Batch` effects. Delivering them across workers is not modelled.
- `console.time` / `console.timeEnd` instrumentation (index.js:68, 73, 81, 83, 85).
- SQLite internals: locking, durability and how AUTOINCREMENT picks an id. They are represented only by the `StoreBehaviour` input and the schema's guarantees. The rowid ceiling of 2^63-1 is not modelled separately, because the resulting SQLITE_FULL is one of the faults the input can choose.
- A missing `client_offset` (SQL NULL, which UNIQUE allows many times): offsets are always present strings.
- Non-string nicknames, messages and offsets, other falsy `serverOffset` values (NaN, "", false), and a client that passes no callback. Payloads are strings, and `serverOffset` is an optional integer.
- Async interleaving and cross-worker concurrency. Each handler runs as one atomic step. The model therefore leaves out a `set nickname` that arrives while an insert is awaited, since line 71 and line 84 read the nickname separately. It also leaves out the race between the batch replay and live broadcasts.
- The order of replayed rows: the query has no ORDER BY.
- Socket.io's own connection-state recovery: `recovered` is an input. A recovered socket does not regain the ad hoc `socket.nickname` property, so every connection starts without a nickname.
- MessageLog.SelectAfter: rows come back in insertion order, so the contract's validity clause includes ascending ids. SQLite does not promise that order without ORDER BY; the batch contract of ChatServer.OnConnection claims only membership and distinct ids.
- Strings are well-formed Unicode. JavaScript strings with unpaired UTF-16 surrogates are re-encoded by the SQLite driver (to U+FFFD), which is not modelled. With such strings a replayed message could differ from the live broadcast, and two offsets could collide on UNIQUE.
- MessageLog.Insert: ids are unbounded integers and `skipped` is unbounded. The program reads ids as JavaScript numbers, exact only up to 2^53, and SQLite refuses inserts past 2^63-1. With no fault chosen, the model lets an insert succeed past either bound. Above 2^53 the claims that the broadcast and replayed id equal the stored id therefore do not reflect the program.
