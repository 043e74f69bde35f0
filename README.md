# SDL_NET_TEST position-sync demo: a verified model

This project models the logic of a two-player position-sync demo built on SDL_net.

- **TCP server** (`server.c`). It admits up to `MAX_PLAYERS` = 2 clients into a dense slot table. Each accepted client is told its slot index as its player id. After that, every tick, the server:
  - receives a `dx` and a `dy` from each connected client, in slot order;
  - adds them to that client's player record when the sum of the two receive statuses is positive;
  - sends every player record, in index order, to every connected client.
- **UDP client** (`client.c`). In each frame, the client:
  - folds the polled input events into a movement delta, where the last arrow key on each axis wins;
  - packs the delta as two ints into the outgoing packet;
  - drains the inbound packets. A packet replaces the local pair of records only when it is exactly `sizeof(players)` long.

Sockets, events and packets are abstract values. An accept result is an `Option<Client>`. One receive is a `Received(status, value)`. The server's sends are returned as a sequence of `Send` values. An input event is an `Event` datatype. A packet buffer is a sequence of ints with a byte length.

Files:
- `wrappers.dfy`: the `Option` datatype.
- `server.dfy`: module `Server`. Class `GameServer` holds the server's global state, modelled as fields: `players` (an array), `clientSockets` (an array of optional handles) and `connectedPlayers`. Beside the class are pure specification functions (`Admission`, `Ticked`, `Broadcast`) and the lemmas about them.
- `client.dfy`: module `Client`. The loop-carried locals of `main` become parameters and results of methods. The packet buffer and the `players` array stay arrays that those methods update in place. Beside them are the specification functions (`Fold`, `Drained`) and the lemmas about them.

The server's constructor gives the state as it stands after the position initialisation at server.c:53-54. The C globals are zero-initialised, and nothing touches `players`, `clientSockets` or `connectedPlayers` between that and the initialisation (server.c:37-50 sets up the library and the listening socket, prints, and may exit).

## Model

| member | source | states |
|---|---|---|
| `Server.GameServer.constructor` | server.c:53-54 | player 0 is {0, 100, 250} and player 1 is {1, 200, 250}; `connectedPlayers` is 0 and no slot holds a client |
| `Server.GameServer.Admit` | server.c:57-63 | an accepted client is stored at slot `connectedPlayers` and is told that index as its id, and only then is the count incremented; a failed (null) accept changes no state and sends nothing |
| `Server.GameServer.AdmitAll` | server.c:56-64 | the loop leaves the slot table equal to `Admission` of the old table and the accept results; client k of the new part is told id `old count + k`; the slot-density invariant is kept |
| `Server.AdmissionTakesFirstAccepted` | server.c:56-64 | admission appends the first accepted clients, in acceptance order, to the existing slots, with no gaps, until capacity; the table never exceeds `MaxPlayers` entries |
| `Server.AdmissionFills` | server.c:56 | once at least as many clients are accepted as there are free slots, the table is full |
| `Server.TickedAt` | server.c:67-76 | after the tick loop, each connected slot k holds `Moved(old record k, input k)` (its position plus the values `Landed` in the zero-initialised `dx` and `dy`, when the status sum is positive) and every record past `connectedPlayers` is unchanged; processing one slot changes no other record |
| `Server.GateIsSum` | server.c:68-75 | for every status class: a status sum ≤ 0 moves nothing (including a failed `dx` with a one-byte `dy`); both statuses positive add both received values; when only one status is positive but the sum is, only that axis moves, since the other variable keeps its initial 0; no clamping |
| `Server.TickedKeepsIds` | server.c:73-74 | a tick changes positions only, never a record's id |
| `Server.GameServer.ApplyDeltas` | server.c:67-76 | the in-place loop leaves `players` equal to `Ticked(old players, inputs)`, i.e. slot by slot in order each record becomes `Moved` of itself, and keeps the invariant that record k has id k |
| `Server.RecordsToAt` | server.c:30-32 | the inner loop sends record j as its j-th send, for every j, to one client |
| `Server.BroadcastLength` | server.c:29-33 | a broadcast makes exactly `connectedPlayers × MAX_PLAYERS` sends |
| `Server.BroadcastAt` | server.c:29-33 | send number `i·MAX_PLAYERS + j` carries `players[j]` to connected client i: clients in slot order, records in index order within each |
| `Server.GameServer.SendPlayerPositions` | server.c:28-34 | the nested loops produce exactly `Broadcast(slots, players)` |
| `Server.GameServer.Tick` | server.c:66-79 | all deltas are applied before the broadcast, and the broadcast carries the post-update records |
| `Client.StepEvent` | client.c:110-117 | one event's effect: a horizontal arrow key sets dx to its key value, a vertical one sets dy to its key value, and the other axis, and every other event, leaves the delta as it was |
| `Client.StepComponent` | client.c:110-117 | UP gives dy = -5, DOWN gives dy = 5, LEFT gives dx = -5, RIGHT gives dx = 5; any other key or non-key event leaves that axis as it was |
| `Client.FoldLastKey` | client.c:106-119 | after the poll loop, each axis holds the value of the last key acting on that axis |
| `Client.FoldNoKey` | client.c:105 | an axis that no key acted on is 0, because dx and dy restart at 0 every frame |
| `Client.FoldRange` | client.c:105-119 | after any frame, dx and dy are each in {-5, 0, 5} |
| `Client.InertEventIgnored` | client.c:111-115 | an event that does not act on an axis can be removed without changing that axis, so vertical keys never change dx and horizontal keys never change dy |
| `Client.QuitDoesNotStopFold` | client.c:106-109 | a QUIT event in the middle of a poll does not stop the later events from being folded; the delta is the one given by the same events without the QUIT |
| `Client.PollInput` | client.c:104-119 | the event loop returns `Fold(events)` as (dx, dy), and `running` is cleared exactly when a QUIT was polled |
| `Client.EncodeMove` | client.c:125-127 | the outgoing buffer holds dx then dy; its length is `2 * sizeof(int)`; the rest of the buffer is untouched; reading the packet back gives (dx, dy) |
| `Client.UnpackPack` | client.c:139 | copying `sizeof(players)` bytes out of a buffer that starts with two packed records gives back those two records |
| `Client.NewPlayers` | client.c:94-96 | the client's two records start all zero |
| `Client.DrainedLast` | client.c:136-140 | when several packets are drained in one frame, the last correctly sized one sets `players` |
| `Client.DrainedNone` | client.c:138-139 | a drain with no packet of length `sizeof(players)` leaves `players` unchanged |
| `Client.DrainInbound` | client.c:136-143 | the in-place drain loop leaves `players` equal to `Drained(old players, packets)` |
| `Client.RunFrame` | client.c:102-143 | one frame without rendering sends `Fold(events)`, updates `running` and drains the inbound packets; the rest of the outgoing buffer is untouched |

## Left out

- SDL and SDL_net calls are not modelled: initialisation, window and renderer, host resolution, socket open and accept, send and receive, `SDL_Delay` and cleanup. These are foreign I/O. Accept results, receive results, events and packets are inputs to the model; sends and greetings are outputs.
- Rendering (client.c:148-161) is not modelled: it is drawing only.
- The server's cleanup after its infinite loop (server.c:82-88) is not modelled, because it is unreachable.
- `Server.GameServer.AdmitAll`: the C loop calls accept until two clients have connected, however many calls that takes. The model runs over a finite sequence of accept results, so it can also stop because those results run out.
- All `printf` calls are not modelled, on the normal and the error paths alike (server.c:38, 46, 50, 61; client.c:24-98): they are console output only.
- `Client.RunFrame`: models one iteration of the client's `while (running)` loop (client.c:102). It does not model the loop itself, its timing or the rendering between frames, and the order of its three steps is fixed by its body, not by its contract.
- `Server.GameServer.Tick`: models one iteration of the endless serve loop. It does not model the loop's non-termination or its timing.
- `Server.Landed`: a receive that delivers only part of an int (1 to 3 bytes) is modelled as delivering a whole value. The byte-level partial write is not modelled.
- Byte layout is not modelled: host endianness, and `sizeof(int)` and `sizeof(Player)` as the compiler lays them out. Payloads are sequences of ints. `sizeof(int)` is taken to be 4, so `sizeof(players)` is 24.
- C `int` overflow in `players[i].x += dx` is not modelled, because it is undefined behaviour in C. The model uses mathematical integers.
- shared.h is not modelled. It declares constants, a message-type enum and a packet struct, but neither `server.c` nor `client.c` includes it or uses it.
- The server keeps no endpoint registry, never removes or compacts slots, has no Keepalive or Disconnect messages, does not clamp positions and sends no rejection to a client beyond capacity; the model has none of these either.
- The two programs disagree on the wire format, and the model keeps them separate. The TCP server sends one `sizeof(Player)` record per send. The UDP client expects one datagram of `sizeof(players)` bytes.
