/**
 * The UDP fragment buffer of the SBE multicast receiver sample: the
 * `datagram_received` handlers of `Snapshot` and `Incremental`, which share
 * one transition on the `decode_buffer` field.  The SBE decoder is foreign.
 * A datagram arrives here with its header already parsed, which assumes a
 * `roq.codec.udp.Header` binding that can be built from bytes and exposes
 * `sizeof()`, `fragment` and `fragment_max`; the binding of this
 * repository registers none of these.  What is handed to
 * `decoder.dispatch` is the method's result.
 *
 * The buffer's Python type matters: it starts as, and is reset to, an empty
 * `bytearray`; fragment 0 replaces it with the received `bytes`; `+=` keeps
 * whichever type it has.  The decoder binding takes its message as
 * `pybind11::bytes`, which refuses a `bytearray` with a TypeError.
 */
module SbeReceiver {
  import opened Bytes

  /** The header fields the handler reads (`fragment`, `fragment_max`); `size` is `header.sizeof()`. */
  datatype FragmentHeader = FragmentHeader(fragment: nat, fragmentMax: nat, size: nat)

  /** A received datagram: its parsed header and its raw bytes, header included. */
  datatype Datagram = Datagram(header: FragmentHeader, data: seq<byte>)

  /** The Python type of `decode_buffer`. */
  datatype Kind = ByteArray | Immutable

  /** `decode_buffer`: its type and its contents. */
  datatype Buffer = Buffer(kind: Kind, bytes: seq<byte>)

  /** `bytearray()`, the buffer at construction and after each dispatch. */
  const EMPTY := Buffer(ByteArray, [])

  /**
   * What one datagram causes: a decode of the given bytes, buffering, the
   * "internal error" assertion, or the TypeError the decoder binding raises
   * when it is handed a `bytearray`.
   */
  datatype Reaction = Dispatched(message: seq<byte>) | Buffered | InternalError | Rejected

  datatype Transition = Transition(buffer: Buffer, reaction: Reaction)

  /** `data[header.sizeof():]` */
  function Payload(d: Datagram): seq<byte> {
    Drop(d.data, d.header.size)
  }

  predicate IsLast(d: Datagram) {
    d.header.fragment == d.header.fragmentMax
  }

  /** `decode_buffer += more`: the bytes are appended and the type is kept. */
  function Append(buffer: Buffer, more: seq<byte>): Buffer {
    Buffer(buffer.kind, buffer.bytes + more)
  }

  /** The transition of `datagram_received` as written: non-final fragments are kept whole. */
  function Step(buffer: Buffer, d: Datagram): Transition {
    if IsLast(d) then
      if |buffer.bytes| > 0 then
        var joined := Append(buffer, Payload(d));
        if joined.kind == Immutable then Transition(EMPTY, Dispatched(joined.bytes))
        else Transition(joined, Rejected)
      else Transition(buffer, Dispatched(Payload(d)))
    else if d.header.fragment == 0 then
      if |buffer.bytes| == 0 then Transition(Buffer(Immutable, d.data), Buffered)
      else Transition(buffer, InternalError)
    else
      Transition(Append(buffer, d.data), Buffered)
  }

  /**
   * The transition the reassembly evidently intends: only payloads are
   * buffered, and the buffer is handed over as `bytes(decode_buffer)`.
   */
  function IntendedStep(buffer: Buffer, d: Datagram): Transition {
    if IsLast(d) then
      if |buffer.bytes| > 0 then Transition(EMPTY, Dispatched(buffer.bytes + Payload(d)))
      else Transition(buffer, Dispatched(Payload(d)))
    else if d.header.fragment == 0 then
      if |buffer.bytes| == 0 then Transition(Buffer(Immutable, Payload(d)), Buffered)
      else Transition(buffer, InternalError)
    else
      Transition(Append(buffer, Payload(d)), Buffered)
  }

  /**
   * Several datagrams in arrival order: the final buffer, every decoded
   * message, the number of assertion failures and of refused dispatches.
   */
  datatype Run = Run(buffer: Buffer, dispatched: seq<seq<byte>>, errors: nat, rejected: nat)

  function Feed(step: (Buffer, Datagram) -> Transition, buffer: Buffer, ds: seq<Datagram>): Run
    decreases |ds|
  {
    if ds == [] then Run(buffer, [], 0, 0)
    else
      var t := step(buffer, ds[0]);
      var rest := Feed(step, t.buffer, ds[1..]);
      Run(rest.buffer,
          (if t.reaction.Dispatched? then [t.reaction.message] else []) + rest.dispatched,
          rest.errors + (if t.reaction.InternalError? then 1 else 0),
          rest.rejected + (if t.reaction.Rejected? then 1 else 0))
  }

  /** The raw bytes of the datagrams, concatenated. */
  function Joined(ds: seq<Datagram>): seq<byte> {
    if ds == [] then [] else ds[0].data + Joined(ds[1..])
  }

  /** The payloads of the datagrams, concatenated. */
  function JoinedPayloads(ds: seq<Datagram>): seq<byte> {
    if ds == [] then [] else Payload(ds[0]) + JoinedPayloads(ds[1..])
  }

  // ---- one datagram -------------------------------------------------------

  lemma FinalOnEmptyBufferDispatchesPayload(buffer: Buffer, d: Datagram)
    requires IsLast(d) && buffer.bytes == []
    ensures Step(buffer, d) == Transition(buffer, Dispatched(Drop(d.data, d.header.size)))
  {
  }

  lemma FinalOnBufferDispatchesConcatenation(buffer: Buffer, d: Datagram)
    requires IsLast(d) && buffer.bytes != [] && buffer.kind == Immutable
    ensures Step(buffer, d) == Transition(EMPTY, Dispatched(buffer.bytes + Payload(d)))
  {
  }

  /** A final fragment on a non-empty `bytearray`: the payload is appended, then the dispatch is refused. */
  lemma FinalOnByteArrayIsRejected(buffer: Buffer, d: Datagram)
    requires IsLast(d) && buffer.bytes != [] && buffer.kind == ByteArray
    ensures Step(buffer, d) == Transition(Buffer(ByteArray, buffer.bytes + Payload(d)), Rejected)
  {
  }

  lemma FinalAlwaysEmptiesBuffer(buffer: Buffer, d: Datagram)
    requires IsLast(d) && (buffer.kind == Immutable || buffer.bytes == [])
    ensures Step(buffer, d).buffer.bytes == [] && Step(buffer, d).reaction.Dispatched?
  {
  }

  lemma RestartKeepsWholeDatagram(buffer: Buffer, d: Datagram)
    requires !IsLast(d) && d.header.fragment == 0
    ensures buffer.bytes == [] ==> Step(buffer, d) == Transition(Buffer(Immutable, d.data), Buffered)
    ensures buffer.bytes != [] ==> Step(buffer, d) == Transition(buffer, InternalError)
  {
  }

  lemma ContinuationAppendsWholeDatagram(buffer: Buffer, d: Datagram)
    requires !IsLast(d) && d.header.fragment > 0
    ensures Step(buffer, d) == Transition(Buffer(buffer.kind, buffer.bytes + d.data), Buffered)
  {
  }

  lemma NonFinalNeverDispatches(buffer: Buffer, d: Datagram)
    requires !IsLast(d)
    ensures !Step(buffer, d).reaction.Dispatched? && !Step(buffer, d).reaction.Rejected?
  {
  }

  // ---- a whole message ----------------------------------------------------

  /** Continuation fragments (fragment > 0, not final) followed by one final fragment; middle fragments may be missing. */
  predicate Continuation(ds: seq<Datagram>) {
    && |ds| > 0
    && IsLast(ds[|ds| - 1])
    && forall i :: 0 <= i < |ds| - 1 ==> !IsLast(ds[i]) && ds[i].header.fragment > 0
  }

  /** Fragments 0..n of one message, in order. */
  predicate InOrderFragments(ds: seq<Datagram>, n: nat) {
    && |ds| == n + 1
    && forall i :: 0 <= i < |ds| ==> ds[i].header.fragment == i && ds[i].header.fragmentMax == n
  }

  /** A datagram that is only buffered contributes nothing to the run but its new buffer. */
  lemma FeedBuffered(step: (Buffer, Datagram) -> Transition, buffer: Buffer, ds: seq<Datagram>, b: Buffer)
    requires |ds| > 0 && step(buffer, ds[0]) == Transition(b, Buffered)
    ensures Feed(step, buffer, ds) == Feed(step, b, ds[1..])
  {
  }

  /** A single datagram that dispatches m. */
  lemma FeedDispatched(step: (Buffer, Datagram) -> Transition, buffer: Buffer, ds: seq<Datagram>, b: Buffer, m: seq<byte>)
    requires |ds| == 1 && step(buffer, ds[0]) == Transition(b, Dispatched(m))
    ensures Feed(step, buffer, ds) == Run(b, [m], 0, 0)
  {
    assert ds[1..] == [];
  }

  /** A single datagram whose dispatch is refused. */
  lemma FeedRejected(step: (Buffer, Datagram) -> Transition, buffer: Buffer, ds: seq<Datagram>, b: Buffer)
    requires |ds| == 1 && step(buffer, ds[0]) == Transition(b, Rejected)
    ensures Feed(step, buffer, ds) == Run(b, [], 0, 1)
  {
    assert ds[1..] == [];
  }

  lemma ContinuationTail(ds: seq<Datagram>)
    requires |ds| > 1
    requires IsLast(ds[|ds| - 1])
    requires forall i :: 0 <= i < |ds| - 1 ==> !IsLast(ds[i]) && ds[i].header.fragment > 0
    ensures Continuation(ds[1..])
  {
    var rest := ds[1..];
    forall i | 0 <= i < |rest| - 1 ensures !IsLast(rest[i]) && rest[i].header.fragment > 0 {
      assert rest[i] == ds[i + 1];
    }
  }

  /** The whole datagrams before the last one: the first, then those of the rest. */
  lemma JoinedPrefix(ds: seq<Datagram>)
    requires |ds| > 1
    ensures Joined(ds[..|ds| - 1]) == ds[0].data + Joined(ds[1..][..|ds| - 2])
  {
    assert ds[..|ds| - 1] == [ds[0]] + ds[1..][..|ds| - 2];
  }

  /**
   * On a `bytes` buffer, continuation fragments end in exactly one dispatch
   * of buffer ++ whole datagrams ++ final payload, leaving the buffer empty.
   */
  lemma {:induction false} ContinuationDispatchesOnce(buffer: Buffer, ds: seq<Datagram>)
    requires Continuation(ds) && buffer.kind == Immutable
    ensures var r := Feed(Step, buffer, ds);
      && r.buffer.bytes == []
      && r.dispatched == [buffer.bytes + Joined(ds[..|ds| - 1]) + Payload(ds[|ds| - 1])]
      && r.errors == 0 && r.rejected == 0
    decreases |ds|
  {
    if |ds| == 1 {
      assert ds[..0] == [];
      var m := buffer.bytes + Payload(ds[0]);
      assert buffer.bytes + Joined(ds[..0]) + Payload(ds[0]) == m;
      if buffer.bytes == [] {
        assert m == Payload(ds[0]);
        FeedDispatched(Step, buffer, ds, buffer, m);
      } else {
        FeedDispatched(Step, buffer, ds, EMPTY, m);
      }
    } else {
      var rest := ds[1..];
      ContinuationTail(ds);
      var b := Buffer(Immutable, buffer.bytes + ds[0].data);
      FeedBuffered(Step, buffer, ds, b);
      ContinuationDispatchesOnce(b, rest);
      JoinedPrefix(ds);
      assert rest[|rest| - 1] == ds[|ds| - 1];
      assert b.bytes + Joined(rest[..|rest| - 1]) == buffer.bytes + Joined(ds[..|ds| - 1]);
    }
  }

  /** Fragments 0..n (n > 0) in order, from `bytearray()`: one dispatch of data_0 ++ ... ++ data_{n-1} ++ payload_n. */
  lemma InOrderFragmentsDispatchOnce(ds: seq<Datagram>, n: nat)
    requires n > 0 && InOrderFragments(ds, n)
    ensures var r := Feed(Step, EMPTY, ds);
      && r.buffer.bytes == []
      && r.dispatched == [Joined(ds[..n]) + Payload(ds[n])]
      && r.errors == 0 && r.rejected == 0
  {
    var rest := ds[1..];
    var b := Buffer(Immutable, ds[0].data);
    assert Step(EMPTY, ds[0]) == Transition(b, Buffered);
    FeedBuffered(Step, EMPTY, ds, b);
    assert Continuation(rest) by {
      forall i | 0 <= i < |rest| - 1 ensures !IsLast(rest[i]) && rest[i].header.fragment > 0 {
        assert rest[i] == ds[i + 1];
      }
    }
    ContinuationDispatchesOnce(b, rest);
    JoinedPrefix(ds);
  }

  // ---- a message begun by a continuation fragment ------------------------

  /**
   * On a `bytearray` buffer, continuation fragments are appended and the
   * final dispatch is refused: nothing is decoded and everything stays buffered.
   */
  lemma {:induction false} ContinuationOnByteArrayIsRejected(buffer: Buffer, ds: seq<Datagram>)
    requires Continuation(ds) && buffer.kind == ByteArray
    requires buffer.bytes + Joined(ds[..|ds| - 1]) != []
    ensures Feed(Step, buffer, ds)
      == Run(Buffer(ByteArray, buffer.bytes + Joined(ds[..|ds| - 1]) + Payload(ds[|ds| - 1])), [], 0, 1)
    decreases |ds|
  {
    if |ds| == 1 {
      assert ds[..0] == [];
      assert buffer.bytes + Joined(ds[..0]) == buffer.bytes;
      FeedRejected(Step, buffer, ds, Buffer(ByteArray, buffer.bytes + Payload(ds[0])));
    } else {
      var rest := ds[1..];
      ContinuationTail(ds);
      var b := Buffer(ByteArray, buffer.bytes + ds[0].data);
      FeedBuffered(Step, buffer, ds, b);
      JoinedPrefix(ds);
      assert rest[|rest| - 1] == ds[|ds| - 1];
      assert b.bytes + Joined(rest[..|rest| - 1]) == buffer.bytes + Joined(ds[..|ds| - 1]);
      ContinuationOnByteArrayIsRejected(b, rest);
    }
  }

  /** One datagram on a non-empty `bytearray` buffer decodes nothing and leaves it a non-empty `bytearray`. */
  lemma StuckStep(buffer: Buffer, d: Datagram)
    requires buffer.kind == ByteArray && buffer.bytes != []
    ensures Step(buffer, d).buffer.kind == ByteArray && Step(buffer, d).buffer.bytes != []
    ensures !Step(buffer, d).reaction.Dispatched?
  {
  }

  /** Once the buffer is a non-empty `bytearray`, no later datagram is ever decoded. */
  lemma {:induction false} RejectedBufferNeverDispatches(buffer: Buffer, ds: seq<Datagram>)
    requires buffer.kind == ByteArray && buffer.bytes != []
    ensures Feed(Step, buffer, ds).dispatched == []
    ensures Feed(Step, buffer, ds).buffer.kind == ByteArray && Feed(Step, buffer, ds).buffer.bytes != []
    decreases |ds|
  {
    if ds != [] {
      StuckStep(buffer, ds[0]);
      RejectedBufferNeverDispatches(Step(buffer, ds[0]).buffer, ds[1..]);
    }
  }

  /** A two-fragment message whose fragment 0 was lost: the final dispatch is refused and the bytes stay buffered. */
  lemma MessageBegunMidwayIsRejected()
    ensures var d1 := Datagram(FragmentHeader(1, 2, 1), [9, 5]);
            var d2 := Datagram(FragmentHeader(2, 2, 1), [9, 6]);
            Feed(Step, EMPTY, [d1, d2]) == Run(Buffer(ByteArray, [9, 5, 6]), [], 0, 1)
  {
    var d1 := Datagram(FragmentHeader(1, 2, 1), [9, 5]);
    var d2 := Datagram(FragmentHeader(2, 2, 1), [9, 6]);
    var ds := [d1, d2];
    assert ds[..1] == [d1] && ds[1..] == [d2];
    assert Joined([d1]) == [9, 5] + Joined([]);
    assert Payload(d2) == [6];
    ContinuationOnByteArrayIsRejected(EMPTY, ds);
  }

  // ---- finding: header bytes of non-final fragments reach the decoder ----

  /** Two fragments with a one-byte header: the decoder is handed the first fragment's header byte. */
  lemma HeaderBytesReachDecoder()
    ensures var d0 := Datagram(FragmentHeader(0, 1, 1), [7, 1]);
            var d1 := Datagram(FragmentHeader(1, 1, 1), [8, 2]);
            Feed(Step, EMPTY, [d0, d1]).dispatched == [[7, 1, 2]]
            && Payload(d0) + Payload(d1) == [1, 2]
  {
    var d0 := Datagram(FragmentHeader(0, 1, 1), [7, 1]);
    var d1 := Datagram(FragmentHeader(1, 1, 1), [8, 2]);
    var b := Buffer(Immutable, [7, 1]);
    var m: seq<byte> := [7, 1, 2];
    assert [d1][1..] == [] && [d0, d1][1..] == [d1];
    assert Payload(d1) == [2] && b.bytes + [2] == m;
    assert Step(EMPTY, d0) == Transition(b, Buffered);
    assert Step(b, d1) == Transition(EMPTY, Dispatched(m));
    assert Feed(Step, b, [d1]) == Run(EMPTY, [m], 0, 0);
  }

  // ---- the intended reassembly -------------------------------------------

  /** Whatever is buffered, of either type, continuation fragments dispatch buffer ++ all their payloads exactly once. */
  lemma {:induction false} IntendedContinuationDispatchesOnce(buffer: Buffer, ds: seq<Datagram>)
    requires Continuation(ds)
    ensures var r := Feed(IntendedStep, buffer, ds);
      && r.buffer.bytes == []
      && r.dispatched == [buffer.bytes + JoinedPayloads(ds)]
      && r.errors == 0 && r.rejected == 0
    decreases |ds|
  {
    if |ds| == 1 {
      var m := buffer.bytes + Payload(ds[0]);
      assert JoinedPayloads(ds) == Payload(ds[0]) + JoinedPayloads(ds[1..]);
      assert ds[1..] == [];
      assert buffer.bytes + JoinedPayloads(ds) == m;
      if buffer.bytes == [] {
        assert m == Payload(ds[0]);
        FeedDispatched(IntendedStep, buffer, ds, buffer, m);
      } else {
        FeedDispatched(IntendedStep, buffer, ds, EMPTY, m);
      }
    } else {
      var rest := ds[1..];
      ContinuationTail(ds);
      var b := Append(buffer, Payload(ds[0]));
      assert !IsLast(ds[0]) && ds[0].header.fragment > 0;
      FeedBuffered(IntendedStep, buffer, ds, b);
      IntendedContinuationDispatchesOnce(b, rest);
      assert JoinedPayloads(ds) == Payload(ds[0]) + JoinedPayloads(rest);
      assert b.bytes + JoinedPayloads(rest) == buffer.bytes + JoinedPayloads(ds);
    }
  }

  /** With the intended transition, fragments 0..n in order decode as exactly the concatenated payloads. */
  lemma IntendedReassembly(ds: seq<Datagram>, n: nat)
    requires n > 0 && InOrderFragments(ds, n)
    ensures var r := Feed(IntendedStep, EMPTY, ds);
      && r.buffer.bytes == []
      && r.dispatched == [JoinedPayloads(ds)]
      && r.errors == 0 && r.rejected == 0
  {
    var rest := ds[1..];
    var b := Buffer(Immutable, Payload(ds[0]));
    FeedBuffered(IntendedStep, EMPTY, ds, b);
    assert Continuation(rest) by {
      forall i | 0 <= i < |rest| - 1 ensures !IsLast(rest[i]) && rest[i].header.fragment > 0 {
        assert rest[i] == ds[i + 1];
      }
    }
    IntendedContinuationDispatchesOnce(b, rest);
  }

  // ---- the two protocol classes ------------------------------------------

  class Snapshot {
    var decodeBuffer: Buffer

    constructor ()
      ensures decodeBuffer == EMPTY
    {
      decodeBuffer := EMPTY;
    }

    method DatagramReceived(d: Datagram) returns (reaction: Reaction)
      modifies this
      ensures Transition(decodeBuffer, reaction) == Step(old(decodeBuffer), d)
    {
      var payload := Drop(d.data, d.header.size);
      var last := d.header.fragment == d.header.fragmentMax;
      if last {
        if |decodeBuffer.bytes| > 0 {
          decodeBuffer := Append(decodeBuffer, payload);
          if decodeBuffer.kind == ByteArray {
            return Rejected;
          }
          reaction := Dispatched(decodeBuffer.bytes);
          decodeBuffer := EMPTY;
        } else {
          reaction := Dispatched(payload);
        }
      } else {
        if d.header.fragment == 0 {
          if |decodeBuffer.bytes| != 0 {
            return InternalError;
          }
          decodeBuffer := Buffer(Immutable, d.data);
        } else {
          decodeBuffer := Append(decodeBuffer, d.data);
        }
        reaction := Buffered;
      }
    }
  }

  class Incremental {
    var decodeBuffer: Buffer

    constructor ()
      ensures decodeBuffer == EMPTY
    {
      decodeBuffer := EMPTY;
    }

    method DatagramReceived(d: Datagram) returns (reaction: Reaction)
      modifies this
      ensures Transition(decodeBuffer, reaction) == Step(old(decodeBuffer), d)
    {
      var payload := Drop(d.data, d.header.size);
      var last := d.header.fragment == d.header.fragmentMax;
      if last {
        if |decodeBuffer.bytes| > 0 {
          decodeBuffer := Append(decodeBuffer, payload);
          if decodeBuffer.kind == ByteArray {
            return Rejected;
          }
          reaction := Dispatched(decodeBuffer.bytes);
          decodeBuffer := EMPTY;
        } else {
          reaction := Dispatched(payload);
        }
      } else {
        if d.header.fragment == 0 {
          if |decodeBuffer.bytes| != 0 {
            return InternalError;
          }
          decodeBuffer := Buffer(Immutable, d.data);
        } else {
          decodeBuffer := Append(decodeBuffer, d.data);
        }
        reaction := Buffered;
      }
    }
  }
}
