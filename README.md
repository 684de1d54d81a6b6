# roq-python: the bindings' own logic, modelled in Dafny

roq-python is a pybind11 binding layer over a native market-data and trading
toolkit, plus Python sample scripts. The order book, the market-by-price
sequencer, the FIX and SBE codecs and the trading framework are all foreign.
This project models the small, sequential rules that the repository itself
contains around those collaborators, and proves what they promise:

- **UDP fragment buffering** of the SBE multicast receiver sample
  (`Snapshot` and `Incremental` `datagram_received`): module `SbeReceiver`.
  It is modelled as coded: non-final fragments are buffered whole, header
  included.
- **FIX session** of the asyncio sample: the framing loop of
  `data_received` over an abstract decoder, the Logon sent on connect, and
  the replies to Logon and TestRequest. Module `FixSession`.
- **Per-instrument book registry** shared by three sample scripts: a dict
  keyed by (exchange, symbol) that lazily creates a book, applies the update
  and extracts two layers. Module `MbpCache`.
- **Routing of market-by-price updates into the sequencer**
  (`use_snapshot`, `sequence_helper`, `create`), which the market and utils
  bindings share word for word. Modules `MbpRouting`, `MarketMbp` and
  `UtilsMbp`.
- **FIX header stamping** by the bindings' `Encoder`: module
  `CodecFixEncoder`.
- **FIX wrapper conversions**: the `DateTime` helper, the wrappers'
  value constructors and `operator value_type`, `SecurityList::create` and
  `create_2`, and the `Header` wrapper. Modules `CodecFix` and
  `CodecFixHeader`; `FixTypes` holds the foreign value types.
- **Client configuration**: `Config::dispatch` and the `set_flags`
  command-line builder. Module `ClientConfig`.
- **The stand-in `Manager::dispatch`** of `src/main.cpp`: module `MainClient`.

The foreign collaborators appear as follows:

- the FIX decoder is a function from the buffered bytes to a `DecodeResult`;
- the sequencer's readiness and the channel test `is_incremental` are parameters;
- the book is the log of the updates applied to it;
- the framework's handler is the log of its calls;
- the wall clock is a parameter;
- the transport is the log of what was written.

src/roq/python/fix/details.hpp holds a second copy of the `Encoder`, of the
Logon, ResendRequest, Reject and SecurityList wrappers and of `Header`. It
behaves the same as the codec/fix copy, so the same members model both, and
some rows below cite that copy.

The fragment buffer is modelled as the code behaves, even where that departs
from what reassembly evidently intends:

- the code buffers whole datagrams, header bytes included, not payloads
  (see "## Findings");
- it appends a middle fragment even when nothing is buffered, rather than
  dropping the incomplete message;
- its restart check is an `assert` that leaves the buffer as it was;
- the buffer keeps its Python type: it is a `bytearray` at the start and
  after each dispatch, `bytes` after fragment 0 replaces it, and `+=` keeps
  either. The decoder's `dispatch` takes its message as `pybind11::bytes`,
  which refuses a `bytearray`, so a message whose first received fragment is
  a continuation is refused when its final fragment arrives, and its bytes
  stay buffered (see "## Findings").

## Model

| member | source | states |
|---|---|---|
| `Bytes.Drop` | samples/fix_session.py:62-63 | slicing off the first n bytes leaves the rest, or nothing when n exceeds the length, and the input is the dropped prefix followed by the result |
| `SbeReceiver.Snapshot.DatagramReceived` | samples/sbe_receiver.py:42-64 | the new `decode_buffer`, with its Python type, and the reaction (decoded bytes, buffering, the "internal error" assertion, or the decoder refusing a `bytearray`) are exactly the transition `Step` of the old buffer and the datagram |
| `SbeReceiver.Incremental.DatagramReceived` | samples/sbe_receiver.py:122-144 | the Incremental handler has the same transition `Step` as Snapshot |
| `SbeReceiver.FinalOnEmptyBufferDispatchesPayload` | samples/sbe_receiver.py:49-58 | a final fragment on an empty buffer dispatches only the bytes after `header.sizeof()`, and the buffer stays as it was |
| `SbeReceiver.FinalOnBufferDispatchesConcatenation` | samples/sbe_receiver.py:52-56 | a final fragment on a non-empty `bytes` buffer dispatches buffer ++ payload once and resets the buffer to `bytearray()` |
| `SbeReceiver.FinalOnByteArrayIsRejected` | samples/sbe_receiver.py:53-55 | a final fragment on a non-empty `bytearray` buffer appends the payload, then the decoder's `bytes` parameter refuses the buffer before the reset at line 56, so it stays buffered |
| `SbeReceiver.FinalAlwaysEmptiesBuffer` | samples/sbe_receiver.py:51-58 | after a final fragment on an empty or `bytes` buffer the buffer is empty and something was dispatched |
| `SbeReceiver.RestartKeepsWholeDatagram` | samples/sbe_receiver.py:60-62 | a non-final fragment 0 replaces an empty buffer with the whole datagram as `bytes`, header included; on a non-empty buffer it is the "internal error" assertion and the buffer is kept |
| `SbeReceiver.ContinuationAppendsWholeDatagram` | samples/sbe_receiver.py:63-64 | a non-final fragment > 0 appends the whole datagram, even to an empty buffer, and keeps the buffer's type |
| `SbeReceiver.NonFinalNeverDispatches` | samples/sbe_receiver.py:59-64 | a non-final fragment never reaches the decoder |
| `SbeReceiver.ContinuationDispatchesOnce` | samples/sbe_receiver.py:47-64 | on a `bytes` buffer, continuation fragments ending in a final one dispatch exactly once, buffer ++ their whole datagrams ++ the final payload, and leave the buffer empty with no assertion failure or refusal |
| `SbeReceiver.InOrderFragmentsDispatchOnce` | samples/sbe_receiver.py:42-64 | fragments 0..n (n > 0) in order from `bytearray()` dispatch exactly once, data_0 ++ ... ++ data_{n-1} ++ payload_n |
| `SbeReceiver.ContinuationOnByteArrayIsRejected` | samples/sbe_receiver.py:53-64 | on a `bytearray` buffer, continuation fragments ending in a final one decode nothing: the dispatch is refused once and buffer ++ whole datagrams ++ final payload stays buffered |
| `SbeReceiver.StuckStep` | samples/sbe_receiver.py:51-64 | one datagram on a non-empty `bytearray` buffer decodes nothing and leaves a non-empty `bytearray` |
| `SbeReceiver.RejectedBufferNeverDispatches` | samples/sbe_receiver.py:51-64 | once the buffer is a non-empty `bytearray`, no later datagram is ever decoded: each final fragment is refused and each fragment 0 fails the assertion |
| `SbeReceiver.MessageBegunMidwayIsRejected` | samples/sbe_receiver.py:53-64 | header size 1, fragment 1/2 [9, 5] then fragment 2/2 [9, 6] from `bytearray()`: nothing is decoded, one dispatch is refused, and [9, 5, 6] stays buffered |
| `SbeReceiver.HeaderBytesReachDecoder` | samples/sbe_receiver.py:60-64 | a two-fragment message whose dispatched bytes include the first fragment's header byte instead of being the two payloads |
| `SbeReceiver.IntendedContinuationDispatchesOnce` | samples/sbe_receiver.py:47-64 | with payload-only buffering and `bytes(decode_buffer)` handed to the decoder, continuation fragments dispatch buffer ++ all their payloads exactly once, whatever the buffer's type |
| `SbeReceiver.IntendedReassembly` | samples/sbe_receiver.py:47-64 | with payload-only buffering, fragments 0..n in order dispatch exactly the concatenation of their payloads |
| `FixSession.FrameStep` | samples/fix_session.py:58-65 | one decoder call: an exception ends the loop, 0 consumed stops with the buffer unchanged, n consumed strips the first n bytes and stops when nothing is left |
| `FixSession.FrameLeavesSuffix` | samples/fix_session.py:57-65 | whatever the decoder reports, the loop leaves a suffix of the bytes it started from |
| `FixSession.FrameStopsOnlyWhenStuck` | samples/fix_session.py:58-65 | the loop ends only with an empty buffer, an exception, or a decoder that needs more data |
| `FixSession.FixSession.constructor` | samples/fix_session.py:38-44 | the encoder carries the given comp IDs and counter 0; the buffer and the transport are empty |
| `FixSession.FixSession.Send` | samples/fix_session.py:72-75 | `_send` writes exactly one message: the converted wrapper stamped with the next sequence number and the current time |
| `FixSession.FixSession.ConnectionMade` | samples/fix_session.py:45-53 | the message written on connect is a Logon with HeartBtInt 30, encrypt method NONE and the configured username and password |
| `FixSession.Reply` | samples/fix_session.py:77-98 | `_callback` replies exactly to Logon and TestRequest |
| `FixSession.ReplyValuesAreConvertedReplies` | samples/fix_session.py:77-98 | the bodies written for a delivered message are the converted replies `_callback` builds |
| `FixSession.TestRequestAnsweredByHeartbeat` | samples/fix_session.py:92-98 | a TestRequest is answered by exactly one Heartbeat echoing its TestReqID |
| `FixSession.LogonAnsweredBySecurityListRequest` | samples/fix_session.py:77-86 | a Logon is answered by exactly one SecurityListRequest "req1", ALL_SECURITIES, SNAPSHOT |
| `FixSession.OtherMessagesUnanswered` | samples/fix_session.py:88-110 | every other message (Logout, Heartbeat, ResendRequest, Reject, the order and position messages) gets no reply |
| `FixSession.FixSession.Callback` | samples/fix_session.py:77-98 | the bodies written by one callback are the old ones followed by the reply bodies of the message |
| `FixSession.FixSession.DecodeOnce` | samples/fix_session.py:59-65 | one loop turn either stops, as the whole loop would, or strictly shrinks the buffer and leaves the rest of the loop's outcome unchanged |
| `FixSession.FixSession.DataReceived` | samples/fix_session.py:55-65 | a chunk that `data.decode()` rejects raises before anything is buffered or written; otherwise the chunk is appended and the loop terminates, the buffer and the exception are those of the framing loop on old buffer ++ data, the buffer is a suffix of old buffer ++ data, and exactly the replies to the delivered messages are written, in order |
| `MbpCache.Cache.constructor` | samples/client_strategy.py:19 | the registry starts empty |
| `MbpCache.Cache.FindOrCreate` | samples/event_log_reader.py:111-116 | an existing book is returned and kept; otherwise a fresh book is stored under the key, and nothing else changes |
| `MbpCache.Cache.ApplyTo` | samples/client.py:46 | the update is appended to the history of the book under its key alone |
| `MbpCache.Cache.OnMarketByPriceUpdate` | samples/client_strategy.py:227-237 | afterwards a book exists under (exchange, symbol); a stored book is reused and never replaced; a new one is created only when the key was absent; the registry's histories are `Handled` of the old ones; the layers extracted are depth 2 of that book's history |
| `MbpCache.HandledChangesOnlyItsKey` | samples/client.py:40-46 | one callback adds its key, extends that key's history by the update, and leaves every other key unchanged |
| `MbpCache.HandledHistory` | samples/event_log_reader.py:113-117 | the history under any key after one callback: one more update for its own key, unchanged otherwise |
| `MbpCache.HandledAllKeys` | samples/event_log_reader.py:111-117 | the key set only grows: books exist exactly for the keys stored or seen |
| `MbpCache.HandledAllSplitsByKey` | samples/client_strategy.py:228-234 | each book receives exactly the updates for its instrument, each once and in arrival order |
| `MbpCache.FromEmpty` | samples/client.py:40-49 | from an empty registry, a key has a book exactly when an update for it arrived, and its history is those updates |
| `MbpRouting.Route` | src/roq/python/market/mbp/details.cpp:59-89 | UNDEFINED is the assertion failure; a SNAPSHOT reaches the sequencer iff it is not ready or the header is incremental, with last_sequence_number and `true`; an INCREMENTAL always does, with (sequence_number, sequence_number, last_sequence_number); STALE and refused snapshots do nothing |
| `MbpRouting.SnapshotsAcceptedUntilReady` | src/roq/python/market/mbp/details.cpp:23-28 | before the sequencer is ready every snapshot is forwarded, whatever its channel |
| `MbpRouting.OnlySnapshotsDependOnReadiness` | src/roq/python/utils/mbp/details.cpp:60-90 | readiness and channel change the routing of snapshots only |
| `MbpRouting.Publish` | src/roq/python/market/mbp/details.cpp:32-38 | a published copy has the given levels and update type, and every other field of the input update |
| `MbpRouting.PublishOwnLevels` | src/roq/python/utils/mbp/details.cpp:32-38 | publishing an update's own levels and type gives the update back |
| `MarketMbp.React` | src/roq/python/market/mbp/details.cpp:46-58 | publish_update and publish_snapshot dispatch copies typed INCREMENTAL and SNAPSHOT with the reported levels; request_snapshot forwards its retry count to `reset` |
| `MarketMbp.SnapshotIgnoresBookkeeping` | src/roq/python/market/mbp/details.cpp:50-57 | the sequence, retries and delay reported with a snapshot do not affect what is published |
| `MarketMbp.CreateSequencer` | src/roq/python/market/mbp/details.cpp:117-128 | the options carry the given timeout and the default max_updates |
| `MarketMbp.DefaultSequencer` | src/roq/python/market/mbp/details.cpp:135 | built without arguments, the sequencer's timeout is 0 ms |
| `UtilsMbp.React` | src/roq/python/utils/mbp/details.cpp:46-59 | the utils callbacks publish typed copies with the reported levels and forward the retry count to `reset` |
| `UtilsMbp.AgreesWithMarket` | src/roq/python/utils/mbp/details.cpp:51-55 | for every callback the utils binding reacts as the market one does, whatever retries and delay the market snapshot callback carries |
| `CodecFixEncoder.Increment` | src/roq/python/codec/fix/encoder.hpp:31-45 | the 64-bit counter's pre-increment: one more, modulo 2^64 |
| `CodecFixEncoder.NumberedAt` | src/roq/python/codec/fix/encoder.hpp:26-33 | the i-th message of an encoder carries FIX_44, its own MSG_TYPE, the construction-time comp IDs and MsgSeqNum i + 1 (mod 2^64) |
| `CodecFixEncoder.NumbersIncrease` | src/roq/python/fix/details.hpp:30-49 | until the counter wraps, sequence numbers strictly increase and are never reused |
| `CodecFixEncoder.CounterWraps` | src/roq/python/codec/fix/encoder.hpp:45 | the 2^64-th message wraps the uint64_t counter to 0 |
| `CodecFixEncoder.Encoder.constructor` | src/roq/python/codec/fix/encoder.hpp:20-22 | comp IDs as given, counter 0, nothing sent |
| `CodecFixEncoder.Encoder.Encode` | src/roq/python/codec/fix/encoder.hpp:24-35 | the counter is pre-incremented, and the header is FIX_44, the value's MSG_TYPE, the comp IDs, the new counter and the sending time unchanged |
| `CodecFixEncoder.Encoder.EncodeEncodeable` | src/roq/python/codec/fix/encoder.hpp:37-39 | a wrapper is encoded as its converted value, stamped with the time since the epoch |
| `CodecFixHeader.ToValue` | src/roq/python/codec/fix/header.hpp:22-31 | converting back writes FIX_44 and keeps msg_type, both comp IDs, msg_seq_num and sending_time |
| `CodecFixHeader.FromValue` | src/roq/python/codec/fix/header.hpp:18-20 | the wrapper converts back to the original header with its version set to FIX_44 |
| `CodecFixHeader.RoundTrip` | src/roq/python/fix/details.hpp:565-578 | the header round trip is the identity exactly when the original version was FIX_44 |
| `CodecFixHeader.WrapperRoundTrip` | src/roq/python/codec/fix/header.hpp:15-31 | wrapper to value to wrapper is the identity |
| `CodecFix.ToMilliseconds` | src/roq/python/codec/fix/details.hpp:31-33 | duration_cast to milliseconds truncates toward zero, for times before and after the epoch |
| `CodecFix.WholeMillisecondsExact` | src/roq/python/codec/fix/details.hpp:31-33 | a whole number of milliseconds converts exactly |
| `CodecFix.TruncatesTowardZero` | src/roq/python/codec/fix/details.hpp:32 | one nanosecond before the epoch is 0 ms, not the -1 of floor division |
| `CodecFix.ToDate` | src/roq/python/codec/fix/details.hpp:34-36 | the date conversion always yields the value-initialised date, which is not a valid calendar date |
| `CodecFix.SecListGrpFromValue` | src/roq/python/codec/fix/details.hpp:454-457 | a group entry keeps its strings and the numeric part of each Number |
| `CodecFix.SecListGrpToValue` | src/roq/python/codec/fix/details.hpp:468-475 | converting back gives undefined decimals and is undone by the value constructor |
| `CodecFix.SecListGrpRoundTrip` | src/roq/python/codec/fix/details.hpp:451-483 | an entry survives value to wrapper to value exactly when it has no decimals |
| `CodecFix.Wrapped` | src/roq/python/codec/fix/details.hpp:518-528 | `create` yields one converted entry per input entry, same length and order |
| `CodecFix.Unwrapped` | src/roq/python/codec/fix/details.hpp:530-540 | `create_2` yields one converted entry per input entry, same length and order |
| `CodecFix.Create` | src/roq/python/codec/fix/details.hpp:519-528 | the `emplace_back` loop computes `Wrapped` |
| `CodecFix.Create2` | src/roq/python/codec/fix/details.hpp:531-540 | the `emplace_back` loop computes `Unwrapped` |
| `CodecFix.CreateThenCreate2` | src/roq/python/fix/details.hpp:513-552 | `create` then `create_2` keeps count and order, copies symbol, exchange and session strings and the numbers, drops decimals, and is the identity exactly when no entry has decimals |
| `CodecFix.Create2ThenCreate` | src/roq/python/codec/fix/details.hpp:488-501 | wrapper entries converted to codec entries and back are unchanged |
| `CodecFix.NewSecurityList` | src/roq/python/codec/fix/details.hpp:494-501 | the Python SecurityList constructor keeps the list and stores its conversion entry by entry |
| `CodecFix.ToValueKeepsMsgType` | src/roq/python/codec/fix/details.hpp:72-75 | the value a wrapper encodes has the wrapper's own message type |
| `CodecFix.FromValueKeepsMsgType` | src/roq/python/codec/fix/details.hpp:46-49 | a wrapper built from a codec value has the value's message type |
| `CodecFix.GroupsEmittedEmpty` | src/roq/python/codec/fix/details.hpp:918-926 | NoPartyIDs, NoTradingSessions and NoSides are always emitted empty |
| `CodecFix.ValueRoundTrip` | src/roq/python/codec/fix/details.hpp:744-794 | a codec value converts back to itself exactly when it has no party, session or side entries and no decimals in NoRelatedSym |
| `CodecFix.SecurityListRoundTrip` | src/roq/python/codec/fix/details.hpp:485-548 | a SecurityList value round-trips exactly when no entry has decimals |
| `CodecFix.GroupFreeRoundTrip` | src/roq/python/codec/fix/details.hpp:1463-1518 | any other value round-trips exactly when its dropped groups are empty |
| `CodecFix.SessionMessageRoundTrip` | src/roq/python/fix/details.hpp:164-209 | Logon, ResendRequest and Reject values round-trip unchanged |
| `CodecFix.HeartBtIntNarrowing` | src/roq/python/fix/details.hpp:70-79 | HeartBtInt is the seconds count modulo 65536, kept exactly iff it fits in uint16 |
| `CodecFix.WrapperRoundTrip` | src/roq/python/codec/fix/details.hpp:46-70 | wrapper to value to wrapper is the identity when the value can express the wrapper |
| `CodecFix.TimePointConstructors` | src/roq/python/codec/fix/details.hpp:1569-1571 | time-point constructors store transact_time truncated to milliseconds, numbers with undefined decimals, and the default clearing date |
| `ClientConfig.OrderedIsDistinct` | src/roq/python/client/details.hpp:20-21 | a `std::set` in iteration order holds each element once |
| `ClientConfig.AccountCallsAt` | src/roq/python/client/details.hpp:25-30 | one Account call per account regex, in set order |
| `ClientConfig.ExchangeCallsAt` | src/roq/python/client/details.hpp:32-37 | one Symbol call per regex of an exchange, in set order, each carrying the exchange |
| `ClientConfig.SymbolCallsCount` | src/roq/python/client/details.hpp:31-38 | the Symbol calls number the regexes over all exchanges |
| `ClientConfig.DispatchedShape` | src/roq/python/client/details.hpp:23-39 | 1 + accounts + symbol regexes calls: the settings first and only there, then the accounts in order |
| `ClientConfig.SymbolCallsAreSymbols` | src/main.cpp:251-258 | every call after the accounts is a Symbol call for a regex listed under the exchange it carries |
| `ClientConfig.EverySymbolDispatched` | src/roq/python/client/details.hpp:31-38 | every (exchange, regex) of the map yields its Symbol call |
| `ClientConfig.AccountsOnceEach` | src/main.cpp:245-250 | each account regex is handed over once |
| `ClientConfig.Dispatch` | src/main.cpp:243-259 | the nested loops make exactly the calls `Dispatched` lists, in order |
| `ClientConfig.DispatchExchange` | src/roq/python/client/details.hpp:32-38 | the inner loop makes the Symbol calls of one exchange |
| `ClientConfig.CommandLine` | src/roq/python/client/details.hpp:197-211 | the buffer starts with the empty program name and ends with a NUL |
| `ClientConfig.AppendEntry` | src/roq/python/client/details.hpp:201-210 | one flag pushes "--", the key, NUL, the value, NUL |
| `ClientConfig.BuildBuffer` | src/roq/python/client/details.hpp:196-211 | the first loop builds `CommandLine` of the flags |
| `ClientConfig.BuildArgs` | src/roq/python/client/details.hpp:213-224 | args[0] is buffer[0], then each i >= 1 with i == 1 or buffer[i-1] == NUL, in order |
| `ClientConfig.SetFlags` | src/roq/python/client/details.hpp:195-224 | the buffer is `CommandLine` of the flags and args point at the program name and every argument start |
| `ClientConfig.EntryAt` | src/roq/python/client/details.hpp:203-210 | the characters of one flag's entry, position by position |
| `ClientConfig.StartsOfEntry` | src/roq/python/client/details.hpp:216-224 | after a NUL, a NUL-free flag's entry starts exactly two arguments, at "--key" and at the value |
| `ClientConfig.FlagArgumentStarts` | src/roq/python/client/details.hpp:200-211 | two argument starts per flag |
| `ClientConfig.ArgumentsOfFlags` | src/roq/python/client/details.hpp:214-224 | with NUL-free keys and values, args are the program name and then "--key", value for each flag in dict order: 1 + 2 * flags entries |
| `ClientConfig.CommandLinePrefix` | src/roq/python/client/details.hpp:200-211 | the command line of the first flags is a prefix of the whole one |
| `ClientConfig.EntryPlacement` | src/roq/python/client/details.hpp:200-211 | the j-th flag's entry sits right after the entries before it |
| `ClientConfig.NoFlags` | src/roq/python/client/details.hpp:195-217 | with no flags the buffer is one NUL and args holds only the program name |
| `MainClient.Dispatch` | src/main.cpp:276-297 | the callback gets ReferenceData then TopOfBook; an exception stops delivery and propagates; otherwise the result is false |

## Left out

- The foreign codecs are not modelled: the FIX decoder (`codec/fix/decoder.hpp`, the `Decoder::dispatch` of fix/details.hpp), the SBE decoder, and `(*encoder_).encode` serialisation. The UDP header layout (`roq::codec::udp::Header`) is foreign; its Python binding belongs to this repository and is covered by the `SbeReceiver` and `MbpRouting.Route` lines below. The FIX decoder is a parameter returning bytes consumed, a delivered message or an exception; the SBE decoder is the dispatched bytes.
- The order book, the MBP/MBO caches and the sequencer are foreign. The book is the log of applied updates, and `extract` is named by that log and the depth. The sequencer is its readiness plus the call it receives, and its callbacks are events.
- `roq::codec::udp::is_incremental` is foreign and is a parameter.
- Sockets, asyncio, multicast setup, logging and `print` are I/O and are not modelled. The transport is the log of written messages. `datetime.now()` is the `now` parameter of one send; while a chunk is handled, `clock(k)` is the time read when the (k+1)-th message is written. The text decoding of a received chunk for the debug log can raise: whether it succeeds is the `decodes` parameter of `DataReceived`, since UTF-8 validation is CPython's.
- Price levels, quantities and the double fields of the FIX messages are floating point. Levels are opaque values, and numbers are `real` values that are only copied.
- The pybind11 registration code, the argument defaults other than the sequencer's timeout, and the Python-to-C++ container conversions are binding mechanics. A Python set or dict of strings reaches `Config` as a sorted `std::set`/`std::map`, held here as the sorted sequence.
- The `ref_count() > 1` "Objects must not be stored" checks concern Python object lifetime, not logic.
- `absl::ParseCommandLine` in `set_flags` is a foreign call. The model stops at the buffer and argv it is given.
- The reorder buffer only wraps a foreign class, and its binding is disabled.
- Wrappers of codec/fix/details.hpp not in `Encodeable` are left out. Each is a field-by-field copy of the same form as those modelled, with one exception: BusinessMessageReject stores its `text_` as a `std::string_view` (codec/fix/details.hpp:252, and fix/details.hpp:261), a view of the constructor's argument rather than a copy, so its value conversion depends on the lifetime of the Python string it was built from. The left-out wrappers are BusinessMessageReject, UserRequest, UserResponse, TradingSessionStatusRequest, TradingSessionStatus, SecurityDefinitionRequest, SecurityDefinition, SecurityStatusRequest, SecurityStatus, OrderCancelRequest, OrderCancelReplaceRequest, OrderCancelReject, OrderMassCancelReport, ExecutionReport, TradeCaptureReportRequest and RequestForPositionsAck. Logon, ResendRequest, Reject, SecurityList and the order and position messages carry the properties (narrowing, dropped groups, list conversion, time points).
- The sample callbacks registered as `callback` rather than `_callback`, and the `typedispatch` routing itself, are library dispatch behaviour. A delivered message reaches `_callback` directly.
- `MarketMbp.CreateSequencer`: `max_updates = {}` is taken to be the value-initialised 0. The type of `Options::max_updates` is not part of this model.
- `CodecFixEncoder.Encoder.Encode`: the `std::span` of encoded bytes is not modelled. The result is the header and value handed to the foreign encoder.
- `MbpRouting.Route`: the C++ `assert(false)` on an UNDEFINED update type is taken as enabled. In a build with NDEBUG it does nothing, and an UNDEFINED update then falls through to `break` like STALE, which the model's `AssertionFailed` does not show. The `header` argument of `Sequencer.apply` (src/roq/python/market/mbp/details.cpp:140, src/roq/python/utils/mbp/details.cpp:122) is a `roq.codec.udp.Header`, which Python code cannot build with this repository's binding (no constructor is registered); the model takes the parsed header's sequence fields as given.
- `ClientConfig.SetFlags`: a flag's key and value are taken to be Python strings already converted. `pybind11::cast<std::string>` throws `cast_error` on a key or value that is not a `str`, and that error path is not modelled. A converted string is its UTF-8 bytes; the model reads each character of a `Flag` as one byte of that encoding, so `args` are byte offsets only when the key and value are given in that form. The encoding itself is not modelled.
- `SbeReceiver.Snapshot.DatagramReceived`: a failing `assert` is a result value that leaves the buffer unchanged. Python run with `-O` would skip the check, and that is not modelled. An exception raised by `_callback` during a dispatch is rethrown by the decoder (src/roq/python/sbe/decoder.hpp:56-61) and would also skip the reset; callbacks are taken not to raise. The refusal of a `bytearray` is the reaction `Rejected`, not a raised TypeError; the model does not say who catches it. The datagram's header is taken as parsed: the model assumes a `roq.codec.udp.Header` binding with a constructor from bytes, `sizeof()`, `fragment` and `fragment_max`. This repository's binding (src/roq/python/codec/udp/details.cpp:20-27) registers only `__repr__`, and its C++ wrapper is built only from an already parsed header (src/roq/python/codec/udp/details.hpp:15), so as written `roq.codec.udp.Header(data)` at samples/sbe_receiver.py:49 raises TypeError on every datagram before any buffering, and that path is not modelled.
- `SbeReceiver.Incremental.DatagramReceived`: the same assumptions as the `Snapshot` handler: the header is taken as parsed (as written, `roq.codec.udp.Header(data)` at samples/sbe_receiver.py:129 raises TypeError for the same reason), a failing `assert` is a result value, `-O` is not modelled, `_callback` exceptions are taken not to occur, and the refusal of a `bytearray` is the reaction `Rejected`.

## Findings

| source | as written | input that shows it | evidently intended | confidence | as-written member | corrected member |
|---|---|---|---|---|---|---|
| samples/sbe_receiver.py:60-64 | non-final fragments are buffered whole (`self.decode_buffer = data`, `+= data`), header bytes included, while the final fragment contributes only its payload | header size 1; fragment 0/1 with bytes [7, 1] then fragment 1/1 with bytes [8, 2]: the decoder is handed [7, 1, 2] instead of the payloads [1, 2] | buffer only `payload` for every fragment, so that the decoder sees the concatenated payloads | not executed; medium (the decoder is foreign and might skip an embedded header, but the final fragment's header is stripped, which suggests it does not) | `SbeReceiver.HeaderBytesReachDecoder` | `SbeReceiver.IntendedReassembly` |
| samples/sbe_receiver.py:53-56 | the buffer is handed to `decoder.dispatch` as it is; after a continuation fragment on an empty buffer it is a `bytearray` (`bytearray() += data`), which the binding's `pybind11::bytes` parameter (src/roq/python/codec/sbe/details.cpp:111) refuses with a TypeError before the reset, so the buffer stays non-empty and every later message is refused or fails the "internal error" assertion | header size 1; fragment 1/2 with bytes [9, 5] then fragment 2/2 with bytes [9, 6]: nothing is decoded and [9, 5, 6] stays buffered | hand over `bytes(self.decode_buffer)`, as samples/fix_session.py:59 does, so that the message is decoded and the buffer reset | not executed; high (the binding's parameter type is visible) | `SbeReceiver.MessageBegunMidwayIsRejected` | `SbeReceiver.IntendedContinuationDispatchesOnce` |
