# Catena command stream, transmit buffer and `lorawan configure` — a Dafny model

This project models three pieces of the MCCI Catena Arduino platform firmware:

- **`TxBuffer_t`**: the 32-byte LoRaWAN uplink buffer. It has a write cursor, a
  `put` that drops bytes once the buffer is full, and integer encoders. Each
  encoder clamps its argument to a range and appends it most significant byte
  first. The class `TxBuffers.TxBuffer` keeps the array and the count as
  fields. The pure functions beside it say what the buffer holds (`Tx`,
  `PutByte`, `PutBytes`) and which bytes each encoder emits (`BigEndian` of a
  clamped value). Every method is proved to move the buffer from one `Tx`
  state to the next. A ghost field records every byte put since `begin`, and
  the invariant says the held bytes are that history cut at 32.
- **`cCommandStream` and `cCommandStream::cDispatch`**: the polling command
  interpreter and its dispatch tables. `CommandStreams.CommandStream` has the
  header's fields: the 128-byte line buffer, 32 argument slots, the read and
  command flags, the command status, the collector and host pointers, and the
  head of the table chain. A ghost sequence `chain` gives the tables linked
  from `m_pHead`. The invariant ties the `m_pNext` and `m_pLast` pointers to
  that sequence. It also says that at most one line is in flight.
- **`doConfigure`**: the `lorawan configure [param [value]]` handler, with the
  `sKeyMap` scan as a loop (`LoRaWANCommands.LocateKey`) and the rest of its
  decision tree as a pure function (`LoRaWANCommands.Configure`). That
  function maps the argument count and what the FRAM cursor reports to a
  `CommandStatus` and to the trace of storage requests the handler makes.

How source values are represented:

- `uint8_t`, `int32_t` and `uint32_t` are integer subset types.
- The cast `(uint32_t)` of an `int32_t` is written out as two's-complement
  reinterpretation (`CatenaTypes.ToUint32`).
- Pointers into `buf` are a `Ptr` value: the array and an offset.
- Function pointers (`CommandFn *`) are handler identities (`nat`).
- `sizeof(cEntry)` is 8, as for two 32-bit pointers on the STM32L0 target.

As written in the source, the signed overloads `put2(int32_t)` and
`put3(int32_t)` cast a negative value to a huge `uint32_t`. The unsigned
overload then clamps it a second time. So every negative input is written as
`FF FF` or `FF FF FF`; `TxBuffers.Put2SignedValue` and
`TxBuffers.Put3SignedValue` state this.

## Modelling assumptions

The bodies of `cCommandStream`'s out-of-line members (`begin`, `poll`,
`launchRead`, `readComplete`, `registerCommands`, `completeCommand`, `search`,
the dispatchers) are not part of this model; only the header is. Where these
members do more than the header fixes, the model assumes:

- `begin` stores both pointers and returns true.
- `registerCommands` stores the table's context. It then walks from
  `m_pHead` along `m_pNext` to the last table and links the new table after
  it. `m_pNext` points to the following table and `m_pLast` to the preceding
  one; both are null at the ends.
- A table can stand in the chain only once, because the links live inside the
  table. So `RegisterCommands` requires a table that is not already
  registered. In this model, the same tail walk applied to a registered
  table is `CommandStreams.RegisterAgain`. That table becomes the end of the
  walk from `m_pHead`, so every table registered after it drops out, and its
  `m_pLast` points at the old tail (itself, when it was the tail).
  `CommandStreams.LinkAtTail` sets `m_pNext` of the old tail first and then clears the
  table's own `m_pNext`. A body that linked in another order could leave a
  cycle instead.
- `search` returns the first of the table's `m_nEntries` entries whose name
  equals the command exactly (case-sensitive). A case-insensitive match,
  like the `strcasecmp` used by `doConfigure`, is just as consistent with
  the header. The chain lemmas `ChainLookupFirst` and `ChainLookupAppend`
  use only the contract of `Search` (the first entry with a matching name,
  or none). So they would carry over to either matching rule. The contract of
  `LoRaWANCommands.NewLoRaWANDispatch` does not: it says only the exact
  name `configure` is found. So it holds only under the case-sensitive
  match, because with `strcasecmp` `CONFIGURE` would be found too.
- The dispatcher's lookup (`FindCommand`) walks the chain in link order and
  stops at the first table whose `search` succeeds. So registration order is
  precedence order.
- `readComplete` clears `m_fReadPending`, records the status and count, and
  sets `m_fReadComplete`. The collector's `ErrorCode` is narrowed to the
  `uint8_t` field `m_ReadStatus`: its value is taken modulo 256
  (`CatenaTypes.ToUint8`).
- `poll` does nothing while a command is active or a read is outstanding.
  Given a completed line, it always consumes it. What happens next depends
  on what became of the line (the `LineOutcome` parameter):
  - a failed read is reported on the stream and not dispatched;
  - an empty line is ignored;
  - in both of those cases no status is recorded, no command becomes active,
    and the stream is idle, so the next poll reads again;
  - a dispatched line records the handler's status, which makes the command
    active when it is `kPending`.

  With nothing outstanding, `poll` launches a read.
- `completeCommand` clears `m_fCmdActive` and records the status.
- In `doConfigure`, `cursor.locate(key)` binds the cursor, so `isbound()` is
  true exactly when a name matched. `islocated()`, `getitemsize()`, `get`,
  `parsevalue`, `create` and `put` report the fields of `StorageResults`.

## Model

`CommandStreams.PendingCommandScenario` has no row. It models no source
function; it runs one stream through the state machine: a pending command,
its completion, then a failed read.

| member | source | states |
|---|---|---|
| `CatenaTypes.ToUint32` | src/Catena_TxBuffer.h:74-82 | the `(uint32_t)` cast of an `int32_t`: unchanged when non-negative, `v + 2^32` when negative |
| `TxBuffers.TxBuffer.constructor` | src/Catena_TxBuffer.h:45-48 | a new buffer holds no bytes: the cursor is at the base of a fresh 32-byte array |
| `TxBuffers.TxBuffer.Begin` | src/Catena_TxBuffer.h:49-52 | `begin` rewinds the count to 0 and leaves the 32 bytes as they were |
| `TxBuffers.TxBuffer.Put` | src/Catena_TxBuffer.h:53-57 | with fewer than 32 bytes held, `c` is stored at index `getn()` and the count grows by one; when full, bytes and count are unchanged |
| `TxBuffers.PutByte` | src/Catena_TxBuffer.h:53-57 | one `put` keeps the buffer at 32 bytes with a count of at most 32 |
| `TxBuffers.PutBytesAppend` | src/Catena_TxBuffer.h:53-57 | putting a string and then one more byte is putting the longer string |
| `TxBuffers.PutBytesSpec` | src/Catena_TxBuffer.h:53-91 | after a run of puts the count is the old count plus the run's length capped at 32; the held bytes are the old ones followed by the leading bytes of the run that fit; bytes past the count are untouched |
| `TxBuffers.Clamp` | src/Catena_TxBuffer.h:58-65 | the result lies in [lo, hi], equals v inside the range and the nearer bound outside it |
| `TxBuffers.TxBuffer.Put1u` | src/Catena_TxBuffer.h:58-65 | `put1u(v)` is one `put` of v clamped to [0, 255] |
| `TxBuffers.Put1uValue` | src/Catena_TxBuffer.h:58-65 | `put1u` emits exactly one byte, equal to 0 for negative v, 255 above 255, v otherwise |
| `TxBuffers.TxBuffer.Put2` | src/Catena_TxBuffer.h:66-73 | `put2(uint32_t)` is the puts of the two-byte big-endian form of v saturated at 0xFFFF |
| `TxBuffers.Put2Value` | src/Catena_TxBuffer.h:66-73 | those two bytes, high first, have the value min(v, 0xFFFF) |
| `TxBuffers.BigEndianRoundTrip` | src/Catena_TxBuffer.h:66-91 | the k-byte most-significant-first encoding of a value below 256^k decodes back to that value |
| `TxBuffers.FromBigEndianRoundTrip` | src/Catena_TxBuffer.h:66-91 | encoding the value of a byte string at its own length gives the string back |
| `TxBuffers.TxBuffer.Put2Signed` | src/Catena_TxBuffer.h:74-82 | `put2(int32_t)` clamps to [-0x8000, 0x7FFF], casts to `uint32_t` and performs `put2(uint32_t)` on the result |
| `TxBuffers.Put2SignedValue` | src/Catena_TxBuffer.h:74-82 | a non-negative v is written as min(v, 0x7FFF); every negative v is written as FF FF |
| `TxBuffers.TxBuffer.Put3` | src/Catena_TxBuffer.h:83-91 | `put3(uint32_t)` is the puts of the three-byte big-endian form of v saturated at 0xFFFFFF |
| `TxBuffers.Put3Value` | src/Catena_TxBuffer.h:83-91 | those three bytes, most significant first, have the value min(v, 0xFFFFFF) |
| `TxBuffers.TxBuffer.Put2u` | src/Catena_TxBuffer.h:92-99 | `put2u` clamps to [0, 0xFFFF] and then encodes like `put2(uint32_t)` |
| `TxBuffers.Put2uValue` | src/Catena_TxBuffer.h:92-99 | the two bytes `put2u` writes have the value of v clamped to [0, 0xFFFF] |
| `TxBuffers.TxBuffer.Put3Signed` | src/Catena_TxBuffer.h:100-107 | `put3(int32_t)` clamps to [-0x800000, 0x7FFFFF], casts to `uint32_t` and performs `put3(uint32_t)` |
| `TxBuffers.Put3SignedValue` | src/Catena_TxBuffer.h:100-107 | a non-negative v is written as min(v, 0x7FFFFF); every negative v is written as FF FF FF |
| `TxBuffers.TxBuffer.GetP` | src/Catena_TxBuffer.h:108-111 | `getp()` is `getbase() + getn()` and never points past the end of `buf` |
| `TxBuffers.TxBuffer.GetN` | src/Catena_TxBuffer.h:112-115 | `getn()` is at most 32; the first `getn()` bytes are the bytes put since `begin`, in order, truncated to 32 |
| `TxBuffers.TxBuffer.GetBase` | src/Catena_TxBuffer.h:116-119 | `getbase()` is the start of `buf` |
| `TxBuffers.SensorMessageHeader` | src/Catena_TxBuffer.h:181-184 | a sensor message starts with the magic byte 0x11 and then the flags byte: putting both into an empty buffer holds exactly those two bytes |
| `TxBuffers.FlagsAreBits` | src/Catena_TxBuffer.h:186-194 | the six sensor flags are bits 0 to 5 of the flags byte |
| `CommandStreams.CommandStatus.Code` | src/Catena_CommandStream.h:55-68 | every status code lies in [-2, 8]; -2 is only kUnknown and 8 only kPending |
| `CommandStreams.FromCode` | src/Catena_CommandStream.h:55-68 | an integer names a status exactly when it lies in [-2, 8], and that status has that code |
| `CommandStreams.CodeRoundTrip` | src/Catena_CommandStream.h:55-68 | each status is recovered from its code |
| `CommandStreams.CodesDistinct` | src/Catena_CommandStream.h:55-68 | two statuses have the same code only when they are the same status |
| `CommandStreams.Dispatch.constructor` | src/Catena_CommandStream.h:179-188 | the entry count is `sizeofEntries / sizeof(cEntry)`; the entries and group name are stored; `m_pNext` and `m_pLast` start null |
| `CommandStreams.Dispatch.Search` | src/Catena_CommandStream.h:201-203 | the result is the first of the table's entries named `command`; None only when no entry has that name |
| `CommandStreams.ChainLookup` | src/Catena_CommandStream.h:206-210 | a chain lookup's result is an entry, of that name, of a table in the chain |
| `CommandStreams.ChainLookupFirst` | src/Catena_CommandStream.h:206-210 | the chain lookup fails exactly when no table has the command, and otherwise answers from the first table in chain order that has it |
| `CommandStreams.ChainLookupAppend` | src/Catena_CommandStream.h:85 | linking a table at the end changes no earlier answer; the new table answers only for commands no earlier table has |
| `CommandStreams.ArgvCapacity` | src/Catena_CommandStream.h:163-164 | the argument vector has `sizeof(m_buffer)/4` = 32 slots over the 128-byte buffer |
| `CommandStreams.CommandStream.constructor` | src/Catena_CommandStream.h:151-173 | a new stream has a 128-byte buffer and 32 argument slots, no read pending or complete, no command active, a null collector and host, and an empty chain |
| `CommandStreams.CommandStream.Begin` | src/Catena_CommandStream.h:48-51 | `begin` stores the collector and host and changes no flag |
| `CommandStreams.LinkAtTail` | src/Catena_CommandStream.h:85 | the walk from `m_pHead` along `m_pNext` ends at the last table; the new table is linked after it with a null `m_pNext`; no other table's links or context change |
| `CommandStreams.CommandStream.RegisterCommands` | src/Catena_CommandStream.h:85 | the chain becomes the old chain followed by the new table, which gets the context; the links stay consistent and no earlier table is lost |
| `CommandStreams.RegisterAgain` | src/Catena_CommandStream.h:85 | relinking a table already at position j makes the `m_pNext` walk end at it, losing every table registered after it, and points its `m_pLast` at the old tail |
| `CommandStreams.CommandStream.FindCommand` | src/Catena_CommandStream.h:145-146 | walking `m_pHead` / `m_pNext` finds what the chain lookup over the registered tables finds |
| `CommandStreams.CommandStream.LaunchRead` | src/Catena_CommandStream.h:118-119 | from the idle state, a read becomes pending and nothing else changes |
| `CatenaTypes.ToUint8` | src/Catena_CommandStream.h:159 | the conversion to `uint8_t` keeps values in [0, 255], adds 256 to values in [-256, -1], and always agrees with its argument modulo 256 |
| `CommandStreams.CommandStream.ReadComplete` | src/Catena_CommandStream.h:135-140 | the pending read ends: the status, narrowed to `uint8_t`, and the count are recorded and the line is ready |
| `CommandStreams.CommandStream.ReadCompleteCb` | src/Catena_CommandStream.h:121-133 | the callback forwards status and count unchanged to `readComplete` on the stream the context designates |
| `CommandStreams.CommandStream.Poll` | src/Catena_CommandStream.h:53 | while a command is active or a read is pending nothing changes; a ready line is consumed exactly once; a failed read or empty line records no status and returns to idle, while a dispatched line records its handler's status and activates the command only for kPending; a read is launched only from the idle state |
| `CommandStreams.CommandStream.CompleteCommand` | src/Catena_CommandStream.h:100-101 | `m_fCmdActive` becomes false and `m_CmdStatus` records the status; a pending command returns the stream to idle |
| `LoRaWANCommands.ToLower` | src/lib/stm32/stm32l0/CatenaStm32L0_LoRaWAN_commands.cpp:165 | C-locale case folding: 'A'..'Z' map to 'a'..'z', every other character is unchanged |
| `LoRaWANCommands.EqualsIgnoreCaseSymmetric` | src/lib/stm32/stm32l0/CatenaStm32L0_LoRaWAN_commands.cpp:165 | case-insensitive equality is symmetric |
| `LoRaWANCommands.EqualsIgnoreCaseTransitive` | src/lib/stm32/stm32l0/CatenaStm32L0_LoRaWAN_commands.cpp:165 | case-insensitive equality is transitive |
| `LoRaWANCommands.LowerNamesIgnoreCase` | src/lib/stm32/stm32l0/CatenaStm32L0_LoRaWAN_commands.cpp:67-79 | two lower-case names are equal ignoring case exactly when they are equal |
| `LoRaWANCommands.KeyMapNamesDistinct` | src/lib/stm32/stm32l0/CatenaStm32L0_LoRaWAN_commands.cpp:67-79 | the ten `sKeyMap` names are pairwise distinct even ignoring case |
| `LoRaWANCommands.AtMostOneKeyMatches` | src/lib/stm32/stm32l0/CatenaStm32L0_LoRaWAN_commands.cpp:163-170 | any parameter name matches at most one `sKeyMap` entry |
| `LoRaWANCommands.LookupAppend` | src/lib/stm32/stm32l0/CatenaStm32L0_LoRaWAN_commands.cpp:163-170 | scanning one more entry changes the found key only when nothing was found before and the new entry matches |
| `LoRaWANCommands.LookupMatches` | src/lib/stm32/stm32l0/CatenaStm32L0_LoRaWAN_commands.cpp:163-170 | the lookup finds a key exactly when some entry matches, and that key belongs to a matching entry |
| `LoRaWANCommands.LocateKey` | src/lib/stm32/stm32l0/CatenaStm32L0_LoRaWAN_commands.cpp:163-170 | the scan, locating the cursor at every match, ends bound exactly when some entry matches, on that entry's key |
| `LoRaWANCommands.TransferSize` | src/lib/stm32/stm32l0/CatenaStm32L0_LoRaWAN_commands.cpp:182-186 | the transfer size is the item size limited to the 16 bytes of `databuf` |
| `LoRaWANCommands.Configure` | src/lib/stm32/stm32l0/CatenaStm32L0_LoRaWAN_commands.cpp:154-246 | never kPending; too few arguments or an unknown name give kInvalidParameter with no storage request; otherwise the cursor is first located on the key; every transfer uses the clamped size; success exactly when the display reads or the set parses, creates and writes; a write happens exactly when a set's value parsed and the entry was created |
| `LoRaWANCommands.DisplayStatus` | src/lib/stm32/stm32l0/CatenaStm32L0_LoRaWAN_commands.cpp:189-213 | with two arguments: kNotInitialized if the key is not located, kReadError if the get fails, kSuccess otherwise; nothing is written |
| `LoRaWANCommands.SetStatus` | src/lib/stm32/stm32l0/CatenaStm32L0_LoRaWAN_commands.cpp:215-246 | with a value: kInvalidParameter if it does not parse, kCreateError if create fails, then kSuccess or kWriteError as the put succeeds or fails |
| `LoRaWANCommands.DoConfigure` | src/lib/stm32/stm32l0/CatenaStm32L0_LoRaWAN_commands.cpp:141-247 | the handler's result is `Configure` applied to the key the `sKeyMap` scan finds; it never returns kPending, and with fewer than two arguments it returns kInvalidParameter without touching storage |
| `LoRaWANCommands.NewLoRaWANDispatch` | src/lib/stm32/stm32l0/CatenaStm32L0_LoRaWAN_commands.cpp:50-58 | `sDispatch` has exactly one entry, `configure`, in group `lorawan`; only the name `configure` is found in it |

## Left out

- The float encoders `put2sf`, `put2uf`, `put1uf`, `putT`, `putRH`, `putV`, `putP`, `putLux`: they depend on floating-point rounding and scaling.
- `cCommandStream::printf` and every message a handler prints: this is variadic formatted output.
- `getEcho` / `setEcho`: they pass straight through to the line collector, whose reading and echo control are external.
- `launchRead`'s request to the collector: the collector is external.
- `CommandStreams.CommandStream.ReadComplete`: does not take the `pBuffer` argument. The collector always reads into `m_buffer`, so only the status and the count are recorded.
- `CommandStreams.CommandStream.ReadCompleteCb`: does not forward `pBuffer`, for the same reason; it forwards the status and the count.
- `CommandStreams.CommandStream.Poll`: whether a read failed, and whether a line was empty, come from the `LineOutcome` parameter. They are not derived from `m_ReadStatus` and the line's tokens, because the values of `cStreamLineCollector::ErrorCode` and the tokenizer are not part of this model.
- `parseAndDispatch`, `dispatch`, `dispatchHelp`, `cDispatch::dispatch` and `getuint32`: their bodies are not part of this model. Tokenizing a line into `m_argv`, help text, "unknown command" reporting and argument parsing are therefore not modelled. `Poll` takes what became of a line as a parameter, and `FindCommand` models only the chain lookup.
- Calling a handler with `m_pContext`, `argc` and `argv`: handler function pointers are identities only, and the `lorawan` handler is modelled on its own as `DoConfigure`.
- The FRAM cursor internals (`locate`, `isbound`, `islocated`, `get`, `put`, `create`, `parsevalue`, `formatvalue`, `getitemsize`): this storage library is not part of this model. Their results are the abstract `StorageResults`, and the bytes moved through `databuf` are not tracked.
- `LoRaWAN::addCommands`: it logs and registers the table with the host, then falls off the end of a `bool` function without returning, which is undefined behaviour.
- Fields the C++ leaves uninitialised (`m_nRead`, `m_ReadStatus`, `m_CmdStatus`, `m_argv`, `m_pContext`): no contract of the model states their initial values.
- `CommandStreams.CommandStream.constructor`: states nothing about the contents of `m_argv`. These hold no defined values until a line is parsed, and parsing is not part of this model.
- `CommandStreams.Dispatch.constructor`: states nothing about `m_pContext`, which has no initialiser; `registerCommands` sets it.
- `CommandStreams.CommandStream.RegisterCommands`: requires a table that is not yet registered. The source does not reject a repeat, but relinking a registered table breaks the chain, as `CommandStreams.RegisterAgain` shows. The body of `registerCommands` is not part of this model, so what the firmware does in that case is not modelled beyond that walk.
- `CommandStreams.CommandStream.ReadComplete`: does not bound `m_nRead` by the 128-byte buffer, because that bound is the collector's to keep and the collector is external.
- Copy and move deletion, destructors and `cPollableObject` registration: these are C++ object-lifetime mechanics.
- `CommandStreams.CommandStream.Begin`: its result is always true. This is an assumption, because the body of `begin` is not part of this model.
