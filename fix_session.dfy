/**
 * The asyncio FIX client session of samples/fix_session.py.  Incoming bytes
 * are appended to `decode_buffer` and handed to the foreign FIX decoder until
 * it reports that it needs more data or the buffer is empty; decoded messages
 * reach `_callback`, which answers a Logon with a SecurityListRequest and a
 * TestRequest with a Heartbeat.  Outgoing messages are stamped by the
 * encoder and written to the transport.
 *
 * The decoder is a parameter: given the buffered bytes it reports how many
 * it consumed and which message, if any, it delivered to the callback, or
 * that it raised.  The transport is the `written` log; the wall clock is the
 * `now` parameter of one send, or a `clock` giving the time of each write.
 */
module FixSession {
  import opened Bytes
  import F = FixTypes
  import CodecFix
  import CodecFixHeader
  import E = CodecFixEncoder

  const SENDER_COMP_ID := "test"
  const TARGET_COMP_ID := "proxy"
  const USERNAME := "trader"
  const PASSWORD := "secret"
  const HEART_BT_INT_SECONDS := 30
  const SECURITY_REQ_ID := "req1"

  datatype Option<T> = None | Some(value: T)

  /** A message delivered to `_callback`: the header wrapper and the message wrapper. */
  datatype Inbound = Inbound(header: CodecFixHeader.Header, message: CodecFix.Encodeable)

  /** One `decoder.dispatch` call: the number of bytes consumed and the message delivered, or an exception. */
  datatype DecodeResult =
    | Decoded(consumed: nat, delivered: Option<Inbound>)
    | Raised

  /** The outcome of `data_received`'s loop on a buffer: what is left, what was delivered, whether it raised. */
  datatype Framing = Framing(rest: seq<byte>, delivered: seq<Inbound>, raised: bool)

  function DeliveredBy(r: DecodeResult): seq<Inbound> {
    if r.Decoded? && r.delivered.Some? then [r.delivered.value] else []
  }

  /** The decoding loop as a function of the buffer it starts from. */
  function Frame(decode: seq<byte> -> DecodeResult, buffer: seq<byte>): Framing
    decreases |buffer|
  {
    match decode(buffer)
    case Raised => Framing(buffer, [], true)
    case Decoded(consumed, _) =>
      var delivered := DeliveredBy(decode(buffer));
      if consumed == 0 then Framing(buffer, delivered, false)
      else
        var rest := Drop(buffer, consumed);
        if rest == [] then Framing([], delivered, false)
        else
          var more := Frame(decode, rest);
          Framing(more.rest, delivered + more.delivered, more.raised)
  }

  /** One turn of the loop: what a single decoder call decides. */
  lemma FrameStep(decode: seq<byte> -> DecodeResult, buffer: seq<byte>)
    ensures decode(buffer).Raised? ==> Frame(decode, buffer) == Framing(buffer, [], true)
    ensures decode(buffer).Decoded? && decode(buffer).consumed == 0 ==>
      Frame(decode, buffer) == Framing(buffer, DeliveredBy(decode(buffer)), false)
    ensures decode(buffer).Decoded? && decode(buffer).consumed != 0 && Drop(buffer, decode(buffer).consumed) == [] ==>
      Frame(decode, buffer) == Framing([], DeliveredBy(decode(buffer)), false)
    ensures decode(buffer).Decoded? && decode(buffer).consumed != 0 && Drop(buffer, decode(buffer).consumed) != [] ==>
      var more := Frame(decode, Drop(buffer, decode(buffer).consumed));
      Frame(decode, buffer) == Framing(more.rest, DeliveredBy(decode(buffer)) + more.delivered, more.raised)
  {
  }

  /**
   * The loop resumed: if `whole` is the outcome of the loop after the messages
   * `delivered`, with `buffer` still to decode, one decoder call either ends
   * it or leaves the same situation with less buffered.
   */
  lemma Resume(decode: seq<byte> -> DecodeResult, buffer: seq<byte>, whole: Framing, delivered: seq<Inbound>)
    requires whole == Framing(Frame(decode, buffer).rest, delivered + Frame(decode, buffer).delivered, Frame(decode, buffer).raised)
    ensures decode(buffer).Raised? ==> whole == Framing(buffer, delivered, true)
    ensures decode(buffer).Decoded? && decode(buffer).consumed == 0 ==>
      whole == Framing(buffer, delivered + DeliveredBy(decode(buffer)), false)
    ensures decode(buffer).Decoded? && decode(buffer).consumed != 0 && Drop(buffer, decode(buffer).consumed) == [] ==>
      whole == Framing([], delivered + DeliveredBy(decode(buffer)), false)
    ensures decode(buffer).Decoded? && decode(buffer).consumed != 0 && Drop(buffer, decode(buffer).consumed) != [] ==>
      var more := Frame(decode, Drop(buffer, decode(buffer).consumed));
      whole == Framing(more.rest, delivered + DeliveredBy(decode(buffer)) + more.delivered, more.raised)
  {
    FrameStep(decode, buffer);
    if decode(buffer).Raised? {
      assert delivered + [] == delivered;
    } else if decode(buffer).consumed != 0 && Drop(buffer, decode(buffer).consumed) != [] {
      var more := Frame(decode, Drop(buffer, decode(buffer).consumed));
      assert delivered + (DeliveredBy(decode(buffer)) + more.delivered) == delivered + DeliveredBy(decode(buffer)) + more.delivered;
    }
  }

  /** Whatever the decoder does, the loop leaves a suffix of the bytes it started from. */
  lemma {:induction false} FrameLeavesSuffix(decode: seq<byte> -> DecodeResult, buffer: seq<byte>)
    ensures |Frame(decode, buffer).rest| <= |buffer|
    ensures Frame(decode, buffer).rest == buffer[|buffer| - |Frame(decode, buffer).rest|..]
    decreases |buffer|
  {
    match decode(buffer)
    case Raised =>
    case Decoded(consumed, _) =>
      if consumed != 0 {
        var rest := Drop(buffer, consumed);
        if rest != [] {
          FrameLeavesSuffix(decode, rest);
          assert buffer == buffer[..consumed] + rest;
          var k := |rest| - |Frame(decode, rest).rest|;
          assert rest[k..] == buffer[consumed + k..];
        }
      }
  }

  /** Unless it needed more data or raised, the loop consumes everything. */
  lemma {:induction false} FrameStopsOnlyWhenStuck(decode: seq<byte> -> DecodeResult, buffer: seq<byte>)
    ensures var f := Frame(decode, buffer);
      f.rest == [] || f.raised || decode(f.rest).Raised? || decode(f.rest) .consumed == 0
    decreases |buffer|
  {
    match decode(buffer)
    case Raised =>
    case Decoded(consumed, _) =>
      if consumed != 0 {
        var rest := Drop(buffer, consumed);
        if rest != [] {
          FrameStopsOnlyWhenStuck(decode, rest);
        }
      }
  }

  /** The reply `_callback` sends for a delivered message, if any. */
  function Reply(m: CodecFix.Encodeable): (r: Option<CodecFix.Encodeable>)
    ensures r.Some? <==> m.Logon? || m.TestRequest?
  {
    if m.Logon? then Some(CodecFix.SecurityListRequest(SECURITY_REQ_ID, F.ALL_SECURITIES, "", "", "", F.SNAPSHOT))
    else if m.TestRequest? then Some(CodecFix.Heartbeat(m.testReqId))
    else None
  }

  /** The message bodies sent in answer to one delivered message. */
  function ReplyValues(inbound: Inbound): seq<F.Message> {
    if inbound.message.Logon? then [F.SecurityListRequest(SECURITY_REQ_ID, F.ALL_SECURITIES, "", "", "", F.SNAPSHOT)]
    else if inbound.message.TestRequest? then [F.Heartbeat(inbound.message.testReqId)]
    else []
  }

  /** The bodies are exactly the converted replies `_callback` builds. */
  lemma ReplyValuesAreConvertedReplies(inbound: Inbound)
    ensures ReplyValues(inbound) == match Reply(inbound.message)
      case Some(reply) => [CodecFix.ToValue(reply)]
      case None => []
  {
  }

  /** The message bodies sent in answer to a sequence of delivered messages, in order. */
  function Replies(delivered: seq<Inbound>): seq<F.Message> {
    if delivered == [] then [] else ReplyValues(delivered[0]) + Replies(delivered[1..])
  }

  lemma RepliesAppend(a: seq<Inbound>, b: seq<Inbound>)
    ensures Replies(a + b) == Replies(a) + Replies(b)
  {
    if a == [] {
      assert a + b == b;
    } else {
      assert (a + b)[0] == a[0];
      assert (a + b)[1..] == a[1..] + b;
      RepliesAppend(a[1..], b);
    }
  }

  lemma RepliesSnoc(delivered: seq<Inbound>, inbound: Inbound)
    ensures Replies(delivered + [inbound]) == Replies(delivered) + ReplyValues(inbound)
  {
    RepliesAppend(delivered, [inbound]);
    assert Replies([inbound]) == ReplyValues(inbound) + Replies([]);
  }

  /** A TestRequest is answered by exactly one Heartbeat echoing its TestReqID (tag 112). */
  lemma TestRequestAnsweredByHeartbeat(header: CodecFixHeader.Header, testReqId: string)
    ensures Replies([Inbound(header, CodecFix.TestRequest(testReqId))]) == [F.Heartbeat(testReqId)]
  {
  }

  /** A Logon is answered by exactly one SecurityListRequest for all securities, as a snapshot. */
  lemma LogonAnsweredBySecurityListRequest(header: CodecFixHeader.Header, logon: CodecFix.Encodeable)
    requires logon.Logon?
    ensures Replies([Inbound(header, logon)])
      == [F.SecurityListRequest(SECURITY_REQ_ID, F.ALL_SECURITIES, "", "", "", F.SNAPSHOT)]
  {
  }

  /** Every other message is only logged. */
  lemma OtherMessagesUnanswered(header: CodecFixHeader.Header, m: CodecFix.Encodeable)
    requires !m.Logon? && !m.TestRequest?
    ensures Replies([Inbound(header, m)]) == []
  {
  }

  /** The bodies of the written messages. */
  function Bodies(written: seq<E.Encoded>): seq<F.Message> {
    if written == [] then [] else [written[0].body] + Bodies(written[1..])
  }

  lemma BodiesAppend(a: seq<E.Encoded>, b: seq<E.Encoded>)
    ensures Bodies(a + b) == Bodies(a) + Bodies(b)
  {
    if a == [] {
      assert a + b == b;
    } else {
      assert (a + b)[0] == a[0];
      assert (a + b)[1..] == a[1..] + b;
      BodiesAppend(a[1..], b);
    }
  }

  /** The Logon `connection_made` sends: HeartBtInt 30 s, no encryption, the configured credentials. */
  function LogonMessage(): CodecFix.Encodeable {
    CodecFix.Logon(F.NONE, HEART_BT_INT_SECONDS, false, 0, USERNAME, PASSWORD)
  }

  class FixSession {
    const encoder: E.Encoder
    var decodeBuffer: seq<byte>
    /** Everything written to the transport, in order. */
    var written: seq<E.Encoded>

    ghost predicate Valid()
      reads this, encoder
    {
      encoder.Valid() && encoder.sent == written
    }

    constructor (senderCompId: string, targetCompId: string)
      ensures Valid() && fresh(encoder)
      ensures encoder.senderCompId == senderCompId && encoder.targetCompId == targetCompId
      ensures encoder.msgSeqNum == 0
      ensures decodeBuffer == [] && written == []
    {
      encoder := new E.Encoder(senderCompId, targetCompId);
      decodeBuffer := [];
      written := [];
    }

    /** `_send`: encode with the current time and write to the transport. */
    method Send(obj: CodecFix.Encodeable, now: F.TimePoint)
      requires Valid()
      modifies this, encoder
      ensures Valid()
      ensures decodeBuffer == old(decodeBuffer)
      ensures encoder.msgSeqNum == E.Increment(old(encoder.msgSeqNum))
      ensures written == old(written) + [E.Encoded(
        E.Stamp(CodecFix.ToValue(obj), encoder.senderCompId, encoder.targetCompId, encoder.msgSeqNum, now.sinceEpoch),
        CodecFix.ToValue(obj))]
    {
      var message := encoder.EncodeEncodeable(obj, now);
      written := written + [message];
    }

    /** `connection_made`: the first thing sent is the Logon. */
    method ConnectionMade(now: F.TimePoint)
      requires Valid()
      modifies this, encoder
      ensures Valid()
      ensures decodeBuffer == old(decodeBuffer)
      ensures |written| == |old(written)| + 1 && written[..|old(written)|] == old(written)
      ensures written[|old(written)|].body
        == F.Logon(F.NONE, HEART_BT_INT_SECONDS as F.uint16, false, 0, USERNAME, PASSWORD)
      ensures written[|old(written)|].header.msgSeqNum == E.Increment(old(encoder.msgSeqNum))
    {
      Send(LogonMessage(), now);
    }

    /** `_callback`: sends the reply, if the message has one. */
    method Callback(inbound: Inbound, now: F.TimePoint)
      requires Valid()
      modifies this, encoder
      ensures Valid()
      ensures decodeBuffer == old(decodeBuffer)
      ensures Bodies(written) == Bodies(old(written)) + ReplyValues(inbound)
    {
      BodiesAppend(written, []);
      ReplyValuesAreConvertedReplies(inbound);
      match Reply(inbound.message)
      case Some(reply) =>
        Send(reply, now);
        BodiesAppend(old(written), written[|old(written)|..]);
        assert written == old(written) + written[|old(written)|..];
      case None =>
    }

    /** Hands the message a decoder call delivered, if any, to `_callback`. */
    method Deliver(result: DecodeResult, clock: nat -> F.TimePoint, ghost sent: seq<F.Message>, ghost delivered: seq<Inbound>)
      requires Valid()
      requires Bodies(written) == sent + Replies(delivered)
      modifies this, encoder
      ensures Valid()
      ensures decodeBuffer == old(decodeBuffer)
      ensures Bodies(written) == sent + Replies(delivered + DeliveredBy(result))
    {
      if result.Decoded? && result.delivered.Some? {
        Callback(result.delivered.value, clock(|written|));
        RepliesSnoc(delivered, result.delivered.value);
      } else {
        assert delivered + DeliveredBy(result) == delivered;
      }
    }

    /**
     * One turn of `data_received`'s loop: one decoder call on the buffer, the
     * callback for what it delivered, and the stripping of what it consumed.
     * `stop` is set where the loop breaks or raises.  `whole` is the outcome of
     * the entire loop and `delivered` what earlier turns delivered.
     */
    method DecodeOnce(decode: seq<byte> -> DecodeResult, clock: nat -> F.TimePoint, ghost whole: Framing,
                      ghost sent: seq<F.Message>, ghost delivered: seq<Inbound>)
      returns (stop: bool, raised: bool, ghost delivered': seq<Inbound>)
      requires Valid()
      requires Bodies(written) == sent + Replies(delivered)
      requires whole == Framing(Frame(decode, decodeBuffer).rest, delivered + Frame(decode, decodeBuffer).delivered,
                                Frame(decode, decodeBuffer).raised)
      modifies this, encoder
      ensures Valid()
      ensures Bodies(written) == sent + Replies(delivered')
      ensures !stop ==> |decodeBuffer| < |old(decodeBuffer)|
      ensures !stop ==> whole == Framing(Frame(decode, decodeBuffer).rest, delivered' + Frame(decode, decodeBuffer).delivered,
                                         Frame(decode, decodeBuffer).raised)
      ensures stop ==> whole == Framing(decodeBuffer, delivered', raised)
    {
      var result := decode(decodeBuffer);
      Resume(decode, decodeBuffer, whole, delivered);
      if result.Raised? {
        return true, true, delivered;
      }
      Deliver(result, clock, sent, delivered);
      delivered' := delivered + DeliveredBy(result);
      if result.consumed == 0 {
        return true, false, delivered';
      }
      decodeBuffer := Drop(decodeBuffer, result.consumed);
      stop := |decodeBuffer| == 0;
      raised := false;
    }

    /**
     * `data_received`: log the chunk as text, append it, then decode and strip
     * messages until stuck or empty.  `decodes` is whether `data.decode()`
     * succeeds on the chunk; when it raises, the exception leaves the method
     * before anything is buffered or sent.  `clock(k)` is what `datetime.now()`
     * returns when the (k+1)-th message is written.
     */
    method DataReceived(data: seq<byte>, decodes: seq<byte> -> bool, decode: seq<byte> -> DecodeResult,
                        clock: nat -> F.TimePoint)
      returns (raised: bool)
      requires Valid()
      modifies this, encoder
      ensures Valid()
      ensures !decodes(data) ==> raised && decodeBuffer == old(decodeBuffer) && written == old(written)
      ensures decodes(data) ==> decodeBuffer == Frame(decode, old(decodeBuffer) + data).rest
      ensures decodes(data) ==> raised == Frame(decode, old(decodeBuffer) + data).raised
      ensures decodes(data) ==>
        Bodies(written) == Bodies(old(written)) + Replies(Frame(decode, old(decodeBuffer) + data).delivered)
      ensures decodes(data) ==> var received := old(decodeBuffer) + data;
        |decodeBuffer| <= |received| && decodeBuffer == received[|received| - |decodeBuffer|..]
    {
      if !decodes(data) {
        return true;
      }
      ghost var sent := Bodies(written);
      FrameLeavesSuffix(decode, decodeBuffer + data);
      decodeBuffer := decodeBuffer + data;
      ghost var whole := Frame(decode, decodeBuffer);
      ghost var delivered: seq<Inbound> := [];
      var stop := false;
      raised := false;
      while !stop
        invariant Valid()
        invariant Bodies(written) == sent + Replies(delivered)
        invariant !stop ==> whole == Framing(Frame(decode, decodeBuffer).rest, delivered + Frame(decode, decodeBuffer).delivered,
                                             Frame(decode, decodeBuffer).raised)
        invariant stop ==> whole == Framing(decodeBuffer, delivered, raised)
        decreases !stop, |decodeBuffer|
      {
        stop, raised, delivered := DecodeOnce(decode, clock, whole, sent, delivered);
      }
    }
  }
}
