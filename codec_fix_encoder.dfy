/**
 * The FIX `Encoder` of the Python bindings (src/roq/python/codec/fix/encoder.hpp;
 * src/roq/python/fix/details.hpp holds a copy of the same class).  It stamps
 * each outgoing message with a standard header: version FIX_44, the message
 * type, the comp IDs given at construction and the next MsgSeqNum from a
 * 64-bit counter that starts at 0 and is pre-incremented.  Serialisation is
 * done by a foreign encoder and is not modelled: the result of an encode is
 * the header and body handed to it.
 */
module CodecFixEncoder {
  import F = FixTypes
  import CodecFix

  const UINT64_MODULUS := 0x1_0000_0000_0000_0000

  /** What is handed to the foreign encoder. */
  datatype Encoded = Encoded(header: F.Header, body: F.Message)

  /** `++msg_seq_num_` on a uint64_t: one more, wrapping to 0 after the largest value. */
  function Increment(n: F.uint64): (r: F.uint64)
    ensures r as int == (n as int + 1) % UINT64_MODULUS
  {
    if n == F.UINT64_MAX then 0 else n + 1
  }

  /** The MsgSeqNum the n-th message (counting from 1) of an encoder is stamped with. */
  function NthSeqNum(n: nat): (r: F.uint64)
    ensures r as int == n % UINT64_MODULUS
  {
    (n % UINT64_MODULUS) as F.uint64
  }

  /** The header of a message with the given body, comp IDs, number and sending time. */
  function Stamp(value: F.Message, senderCompId: string, targetCompId: string, msgSeqNum: F.uint64,
                 sendingTime: int): F.Header
  {
    F.Header(F.FIX_44, value.MsgTypeOf(), senderCompId, targetCompId, msgSeqNum, sendingTime)
  }

  /** A message as the n-th (counting from 1) of an encoder with the given comp IDs stamps it. */
  predicate StampedAs(e: Encoded, n: nat, senderCompId: string, targetCompId: string) {
    e.header == Stamp(e.body, senderCompId, targetCompId, NthSeqNum(n), e.header.sendingTime)
  }

  /** The messages an encoder has produced are numbered 1, 2, 3, ... modulo 2^64, with the fixed comp IDs. */
  predicate Numbered(sent: seq<Encoded>, senderCompId: string, targetCompId: string) {
    sent == []
    || (Numbered(sent[..|sent| - 1], senderCompId, targetCompId)
        && StampedAs(sent[|sent| - 1], |sent|, senderCompId, targetCompId))
  }

  /** Every message of a numbered log carries version FIX_44, its own type, the comp IDs and its position. */
  lemma {:induction false} NumberedAt(sent: seq<Encoded>, senderCompId: string, targetCompId: string, i: nat)
    requires Numbered(sent, senderCompId, targetCompId)
    requires i < |sent|
    ensures sent[i].header.version == F.FIX_44
    ensures sent[i].header.msgType == sent[i].body.MsgTypeOf()
    ensures sent[i].header.senderCompId == senderCompId && sent[i].header.targetCompId == targetCompId
    ensures sent[i].header.msgSeqNum == NthSeqNum(i + 1)
    decreases |sent|
  {
    if i < |sent| - 1 {
      var prefix := sent[..|sent| - 1];
      NumberedAt(prefix, senderCompId, targetCompId, i);
      assert prefix[i] == sent[i];
    }
  }

  /** Until the counter wraps, the numbers are strictly increasing and so never reused. */
  lemma NumbersIncrease(sent: seq<Encoded>, senderCompId: string, targetCompId: string)
    requires Numbered(sent, senderCompId, targetCompId)
    requires |sent| < UINT64_MODULUS
    ensures forall i, j :: 0 <= i < j < |sent| ==> sent[i].header.msgSeqNum < sent[j].header.msgSeqNum
  {
    forall i, j | 0 <= i < j < |sent|
      ensures sent[i].header.msgSeqNum < sent[j].header.msgSeqNum
    {
      NumberedAt(sent, senderCompId, targetCompId, i);
      NumberedAt(sent, senderCompId, targetCompId, j);
    }
  }

  /** The 2^64-th message wraps the counter back to 0. */
  lemma CounterWraps()
    ensures Increment(F.UINT64_MAX) == 0
    ensures NthSeqNum(UINT64_MODULUS) == 0
  {
  }

  class Encoder {
    const senderCompId: string
    const targetCompId: string
    var msgSeqNum: F.uint64
    /** Every message encoded so far, in order. */
    ghost var sent: seq<Encoded>

    ghost predicate Valid()
      reads this
    {
      msgSeqNum == NthSeqNum(|sent|) && Numbered(sent, senderCompId, targetCompId)
    }

    constructor (senderCompId: string, targetCompId: string)
      ensures Valid()
      ensures this.senderCompId == senderCompId && this.targetCompId == targetCompId
      ensures msgSeqNum == 0 && sent == []
    {
      this.senderCompId := senderCompId;
      this.targetCompId := targetCompId;
      msgSeqNum := 0;
      sent := [];
    }

    /** `encode(T const &, nanoseconds)`: stamps the next header and hands header and value on. */
    method Encode(value: F.Message, sendingTime: int) returns (e: Encoded)
      requires Valid()
      modifies this
      ensures Valid()
      ensures msgSeqNum == Increment(old(msgSeqNum))
      ensures e == Encoded(Stamp(value, senderCompId, targetCompId, msgSeqNum, sendingTime), value)
      ensures sent == old(sent) + [e]
    {
      msgSeqNum := Increment(msgSeqNum);
      var header := F.Header(F.FIX_44, value.MsgTypeOf(), senderCompId, targetCompId, msgSeqNum, sendingTime);
      e := Encoded(header, value);
      assert (sent + [e])[..|sent|] == sent;
      sent := sent + [e];
    }

    /** `encode(Encodeable const &, time_point)`: the wrapper's converted value, stamped with the time since the epoch. */
    method EncodeEncodeable(encodeable: CodecFix.Encodeable, sendingTime: F.TimePoint) returns (e: Encoded)
      requires Valid()
      modifies this
      ensures Valid()
      ensures msgSeqNum == Increment(old(msgSeqNum))
      ensures e.body == CodecFix.ToValue(encodeable)
      ensures e.header == Stamp(e.body, senderCompId, targetCompId, msgSeqNum, sendingTime.sinceEpoch)
      ensures sent == old(sent) + [e]
    {
      e := Encode(CodecFix.ToValue(encodeable), sendingTime.sinceEpoch);
    }
  }
}
