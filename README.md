# Teleport endpoints of the actor runtime, modelled in Dafny

`actors-teleport.c` joins two halves of a dataflow actor network across a TCP
connection. A *receiver* endpoint is a TCP server. Its network thread reads
fixed-size tokens from one client and hands each one to the actor's output
port through a single-slot *token monitor*. A *sender* endpoint is a TCP
client. Its action scheduler moves tokens from the actor's input port into
its monitor, and its network thread writes them to the socket. The actor
classes of both kinds are generated on demand, one per token size. They are
kept in two process-wide, append-only lists.

This project models the sequential logic of that file and proves what it
promises:

- **Class registry** (`class_registry.dfy`). A `Registry` class holds the
  `initialized` flag and the two lists as `seq` fields of `ExtendedClass`
  objects, so "the same descriptor is returned" is object identity. A lookup
  is a linear search by token size. A miss appends one new descriptor. The
  registry invariant says that no list holds two descriptors of the same size
  and that every descriptor has the shape its factory gives it. The membership
  scans of `getReceiverPort` and `setSenderRemoteAddress` are read-only loops.
- **Generated names** (`class_names.dfy`). A new class is named
  `_receiver_<n>B` or `_sender_<n>B`, with `snprintf` into a 20-character
  buffer. `%d` formatting is modelled together with its inverse. The names are
  proved to tell token sizes apart while they fit the buffer. A lemma shows
  that two receiver sizes of nine digits or more can share a name.
- **Token monitor and local ports** (`rendezvous.dfy`). A `TokenMonitor`
  class holds the `full` flag and a byte array of exactly one token. The
  runtime's local ports are a bounded FIFO of whole tokens.
- **Receiver** (`receiver.dfy`). The action scheduler moves at most one
  token, and only when the output port has room and the monitor is full. The
  network thread's per-token loop takes a sequence of abstract `read()`
  results. It accumulates bytes into the token buffer and updates `bytesRead`.
  It publishes the token only once all `tokenSize` bytes have arrived. It is
  proved against the recursive specification `ReadLoop`.
- **Sender** (`sender.dfy`). The action scheduler moves at most one token,
  and only when the input port holds one and the monitor is empty. The
  network thread's loop takes a sequence of abstract `write()` results. It
  empties the monitor only after a complete write. A write error ends the
  thread (`threadExited`) with the monitor left full. From then on the
  thread writes nothing, and no later action firing takes a token.

Locks are not modelled. Each region that the C code runs under the monitor's
lock is one atomic method. The `while (full)` / `while (!full)` condition
waits become the outcomes `WaitingForSpace` and `WaitingForToken`. They
leave everything unchanged, because the thread is still blocked.

Each instance's `Valid()` predicate holds after construction. Every step the
network thread or the action scheduler takes preserves it: `ReadToken`,
`WriteToken` and both `ActionScheduler`s. The helpers inside one read loop
(`ReadLoopBody`, `ReadLoopStep`, `ReadOnce`, `StoreChunk`) work on intermediate states, where
`bytesRead` may equal `tokenSize` until it is reset. Together with the method
contracts, `Valid()` gives these guarantees:

- At most one token is in flight: two drains with no fill between them see
  the second do nothing.
- No partially filled token is ever exposed: `full` is set only together
  with a buffer that holds all `tokenSize` bytes received. The receiver's
  `Valid()` also says that a full monitor means `bytesRead` is 0, so the
  thread waits for space only before a token starts.
- After a sender's write fails, `threadExited` holds, and `Valid()` ties it
  to a full monitor. Every later `WriteToken` does nothing, and every later
  `ActionScheduler` leaves the input port unchanged.

The relation between the I/O results and the buffer is stated with
`Payload`, the concatenation of the bytes that reads delivered. `ChunksReassemble`
shows that any split of a token into non-empty reads, down to one byte per
read, rebuilds the token. `PiecesComplete` shows the same for writes.

## Model

| member | source | states |
|---|---|---|
| `ClassNames.Snprintf` | actors-teleport.c:514 | the result is a prefix of the formatted text: all of it when it fits in 19 characters, exactly its first 19 otherwise |
| `ClassNames.ReceiverClassName` | actors-teleport.c:514 | a receiver class name starts with `_receiver_`, is a prefix of `_receiver_<n>B`, and is either all of it or cut at 19 characters |
| `ClassNames.SenderClassName` | actors-teleport.c:559 | a sender class name starts with `_sender_`, is a prefix of `_sender_<n>B`, and is either all of it or cut at 19 characters |
| `ClassNames.FormatInt` | actors-teleport.c:514 | `%d` output is non-empty and starts with `-` exactly for negative sizes |
| `ClassNames.ParseIntOfFormatInt` | actors-teleport.c:514 | the formatted token size loses nothing: parsing it gives the size back |
| `ClassNames.ReceiverNameComplete` | actors-teleport.c:514 | a receiver name is the full `_receiver_<n>B` exactly when the decimal of `n` has at most 8 characters |
| `ClassNames.ReceiverNamesDistinct` | actors-teleport.c:514 | distinct receiver token sizes below 10^8 (and above -10^7) get distinct names |
| `ClassNames.SenderNamesDistinct` | actors-teleport.c:559 | distinct sender token sizes of at least -999999999, every non-negative C int included, get distinct names |
| `ClassNames.ReceiverNamesCollide` | actors-teleport.c:56-57 | the 20-character buffer is not enough for every receiver size: sizes 123456789 and 1234567890 share a name |
| `ClassRegistry.ExtendedClass.Receiver` | actors-teleport.c:511-529 | a new receiver descriptor has the requested token size, name `_receiver_<n>B` cut to 19 characters, port `out`, 0 inputs and 1 output |
| `ClassRegistry.ExtendedClass.Sender` | actors-teleport.c:556-574 | a new sender descriptor has the requested token size, name `_sender_<n>B` cut to 19 characters, port `in`, 1 input and 0 outputs |
| `ClassRegistry.IndexOfSize` | actors-teleport.c:501-508 | the linear search finds the first descriptor of the size, and finds none exactly when no descriptor has it |
| `ClassRegistry.FoundIsOnlyOne` | actors-teleport.c:501-508 | in a list without duplicate sizes, the search finds the one descriptor of that size |
| `ClassRegistry.AppendKeepsUnique` | actors-teleport.c:531 | appending a descriptor of a size not yet listed keeps the sizes unique |
| `ClassRegistry.Registry.constructor` | actors-teleport.c:65-66 | at process start, before initialisation, both lists are empty |
| `ClassRegistry.Registry.EnsureInitialized` | actors-teleport.c:124-133 | the first call creates both lists empty and sets the flag; every later call changes nothing |
| `ClassRegistry.Registry.GetReceiverClass` | actors-teleport.c:493-534 | a hit returns the listed descriptor of that size and leaves both lists unchanged; a miss appends exactly one fresh, correctly shaped descriptor at the end; sizes stay unique |
| `ClassRegistry.Registry.GetSenderClass` | actors-teleport.c:538-579 | the same, for the sender list |
| `ClassRegistry.Registry.IsReceiverClass` | actors-teleport.c:587-595 | the scan reports true exactly when the class object is in the receiver list |
| `ClassRegistry.Registry.IsSenderClass` | actors-teleport.c:609-617 | the scan reports true exactly when the class object is in the sender list |
| `ClassRegistry.ReceiverClassIsMemoized` | actors-teleport.c:501-508 | asking twice for one receiver size returns the identical descriptor and adds at most one entry |
| `Rendezvous.TokenMonitor.constructor` | actors-teleport.c:137-145 | a new monitor is empty and has a zeroed buffer of exactly one token |
| `Rendezvous.LocalFifo.SpaceAvailable` | actors-teleport.c:298 | the output port has room exactly when it holds fewer tokens than its capacity |
| `Rendezvous.LocalFifo.TokensAvailable` | actors-teleport.c:448 | the input port offers a token exactly when it is not empty |
| `Rendezvous.LocalFifo.Write` | actors-teleport.c:303 | writing to the port appends the token at the end |
| `Rendezvous.LocalFifo.Read` | actors-teleport.c:453 | reading from the port moves its oldest token into the buffer and removes it |
| `Receiver.ReadStepAsWritten` | actors-teleport.c:193-206 | as written, only a read error ends the connection; every other read, an empty one included, adds its byte count to `bytesRead` |
| `Receiver.ReadStep` | actors-teleport.c:193-206 | corrected: a read error, or an empty read while bytes are missing, ends the connection; any other read adds its byte count, so a step taken while bytes are missing always makes progress |
| `Receiver.LeaveReadLoop` | actors-teleport.c:209-215 | after the loop, `bytesRead` is reset to 0, and the token is published exactly when all `tokenSize` bytes were read; otherwise the client is dropped |
| `Receiver.ReadLoop` | actors-teleport.c:192-215 | the corrected loop uses results in order; it ends with results left over only by publishing or dropping, and then `bytesRead` is 0 |
| `Receiver.ReadLoopAsWritten` | actors-teleport.c:192-215 | the loop as written uses results in order, and drops the client only right after a read error |
| `Receiver.PayloadAppend` | actors-teleport.c:192-198 | the bytes of two runs of reads are those of the first followed by those of the second |
| `Receiver.UnfoldReadLoop` | actors-teleport.c:192-207 | one pass of the read loop: an error or end of stream leaves it, a completed token leaves it, anything else carries on with the larger byte count |
| `Receiver.ReadLoopMeaning` | actors-teleport.c:192-215 | `bytesRead` never exceeds `tokenSize`; a token is published only when the bytes already held plus the bytes read total exactly `tokenSize`; the client is dropped only after an error or end of stream, with `bytesRead` reset to 0; results run out only mid-token |
| `Receiver.ChunksReassemble` | actors-teleport.c:192-207 | any split of a token into non-empty reads, one byte each included, is read whole and published |
| `Receiver.ReadFailureDropsToken` | actors-teleport.c:200-213 | a read error mid-token drops the partial token and goes back to accept, with `bytesRead` reset to 0 |
| `Receiver.ReadStepsAgreeOtherwise` | actors-teleport.c:197-206 | the corrected loop body differs from the written one only for an end of stream |
| `Receiver.EndOfStreamSpinsAsWritten` | actors-teleport.c:192-207 | as written, any number of end-of-stream reads leaves the loop still reading, with `bytesRead` unchanged |
| `Receiver.EndOfStreamDropsClient` | actors-teleport.c:192-213 | with the correction, the first end-of-stream read drops the client |
| `Receiver.ReceiverInstance.constructor` | actors-teleport.c:277-282 | a constructed receiver records its port and has an empty monitor sized from its class, with `bytesRead` 0 |
| `Receiver.ReceiverInstance.ReadToken` | actors-teleport.c:182-223 | with a full monitor the thread waits and nothing changes; otherwise the outcome, results used and new `bytesRead` are ReadLoop's; `full` is set only on publishing; a published token is the bytes already held followed by exactly the bytes read, in order |
| `Receiver.ReceiverInstance.ReadLoopBody` | actors-teleport.c:192-207 | the do-while loop ends as ReadLoop says, and the buffer holds the bytes read so far, in order |
| `Receiver.ReceiverInstance.ReadLoopStep` | actors-teleport.c:192-207 | one pass of the do-while loop keeps its invariant: the rest of the loop ends as the whole loop does, and the buffer holds exactly the bytes read so far |
| `Receiver.ReceiverInstance.ReadOnce` | actors-teleport.c:193-206 | one loop pass does what ReadStep says: it resets on error or end of stream, or appends the chunk and grows `bytesRead` by its length |
| `Receiver.ReceiverInstance.StoreChunk` | actors-teleport.c:193-198 | a read's bytes land right after those already read, and `bytesRead` grows by their number |
| `Receiver.ReceiverInstance.ActionScheduler` | actors-teleport.c:289-313 | with room in the output and a full monitor, the monitor's token is appended to the output and `full` becomes false; otherwise the output and the monitor are unchanged |
| `Receiver.GetReceiverPort` | actors-teleport.c:583-599 | the instance's port is returned exactly when its class is a registered receiver class, and nothing where the C assertion fires |
| `Sender.WriteLoop` | actors-teleport.c:381-395 | the write loop uses results in order, never counts more than `tokenSize` bytes written, and reports a token sent only with all `tokenSize` bytes written |
| `Sender.WriteLoopMeaning` | actors-teleport.c:381-395 | `bytesWritten` never exceeds `tokenSize` and equals the bytes the writes took; the token is sent exactly when the last write completed it; the thread exits exactly on a failed write; results run out only mid-token |
| `Sender.PiecesComplete` | actors-teleport.c:381-395 | any split of the token into accepted non-empty writes sends it whole |
| `Sender.WriteFailureEndsThread` | actors-teleport.c:387-394 | a failed write ends the thread |
| `Sender.SenderInstance.constructor` | actors-teleport.c:415-435 | a constructed sender keeps the remote host and port recorded before construction, has an empty monitor sized from its class, and its thread is running |
| `Sender.SenderInstance.WriteToken` | actors-teleport.c:369-406 | once the thread has exited, nothing more is written; with an empty monitor the thread waits and nothing changes; otherwise the outcome and results used are WriteLoop's; the wire carries a prefix of the token, and the whole token once sent; the monitor is cleared only after a complete write; a failed write ends the thread for good, with the monitor full |
| `Sender.SenderInstance.ActionScheduler` | actors-teleport.c:439-463 | with a token in the input and an empty monitor, the oldest input token moves into the monitor and `full` becomes true; otherwise the input and the monitor are unchanged; once the thread has exited, the input is never touched |
| `Sender.SetSenderRemoteAddress` | actors-teleport.c:603-624 | host and port are recorded exactly when the instance's class is a registered sender class; otherwise the instance is unchanged |

## Left out

- Socket setup is not modelled. That covers `socket`, `setsockopt`, `bind`, `listen`, `getsockname` and `connect`, the `inet_aton` parse, and their failure paths (actors-teleport.c:233-276, 350-367, 415-424). The constructors start from a successful setup, with the OS-assigned port as a parameter.
- The receiver's outer `accept` loop (actors-teleport.c:168-179) is not modelled. The `ClientLost` outcome stands for "back to `accept`".
- Threads, the mutex and the condition variables are not modelled. Each locked region is one atomic method, and a blocking wait is an outcome that changes nothing.
- `wakeUpNetwork()` and `warn()` are calls into code outside this file, and have no effect in the model.
- The destructors (actors-teleport.c:317-338, 467-489) only release memory and sockets, so they are not modelled.
- The `ART_ACTION_SCHEDULER_*` macros are runtime internals, and the action schedulers' constant `EXIT_CODE_YIELD` result is not modelled.
- The `pin*_dyn` calls are modelled by `LocalFifo`. The runtime that implements them is not part of this model.
- `majorVersion`, `minorVersion` and `sizeActorInstance` are runtime constants not visible here, so the descriptors leave them out. The bound action scheduler, constructor and destructor are represented by the descriptor's `direction`.
- Endpoint instances need a non-negative token size. A negative size reaches `calloc` as a huge size, and that allocation failure is not modelled. The registry itself accepts any C `int`.
- `dllist.h` is not part of this model. A list that was never initialised is modelled as empty.
- The assertions at actors-teleport.c:199 and 389 become the preconditions `ReadsFit` and `WritesFit`: every `read()`/`write()` result fits the byte count that was asked for, as POSIX guarantees.
- The membership assertions in `getReceiverPort` and `setSenderRemoteAddress` become a `None` or `false` result instead of stopping the program.
- `Sender.SetSenderRemoteAddress`: the runtime calls `setSenderRemoteAddress` on the allocated instance *before* `sender_constructor` runs (actors-teleport.c:426-427), and the thread reads the address immediately. In the model an instance exists only once it is constructed. So the constructor takes the recorded host and port as parameters and keeps them, and `SetSenderRemoteAddress` acts on a constructed instance. The model does not capture that both operations act on the same storage in that order.
- `Sender.SenderInstance.WriteToken`: `bytesWritten` is a local variable of the C thread, so one call models one token's whole write loop. When the results run out, the model does not resume a partly written token.
- Token contents that a dropped client left behind are stale bytes. No contract says what they are.

## Findings

| source | as written | input that shows it | evidently intended | confidence | as-written member | corrected member |
|---|---|---|---|---|---|---|
| actors-teleport.c:192-213 | `read()`'s status is added to `bytesRead` whenever it is `>= 0`, and the loop repeats while `bytesRead != tokenSize` | the client closes its connection, mid-token or between tokens, so every later `read()` on the socket returns 0 | an end of stream counts as a disconnect: drop the partial token, reset `bytesRead`, and go back to `accept` for a new client, as the comment at lines 201-202 and the reconnect design describe | medium; not executed | `Receiver.ReadStepAsWritten`, `Receiver.EndOfStreamSpinsAsWritten` | `Receiver.ReadStep`, `Receiver.EndOfStreamDropsClient` |

As written, the read loop spins forever on a closed connection, and a new
client is never accepted. The model uses the corrected step, `ReadStep`.
There, a read that asked for at least one byte and got none ends the client,
like a read error does. `ReadStepsAgreeOtherwise` shows that the two steps
agree on every other input.

A token size of 0 is kept as written. After the reset at line 203, line 211
compares `bytesRead` with `tokenSize`. So at that size a read error still
publishes an empty token. That is why `ReadLoopMeaning` says the client is
dropped only for a positive token size.
