/**
 * The `Header` wrapper handed to Python FIX callbacks
 * (src/roq/python/codec/fix/header.hpp).  It keeps every header field except
 * the version, and converting back always writes FIX_44.
 */
module CodecFixHeader {
  import F = FixTypes

  datatype Header = Header(
    msgType: F.MsgType,
    senderCompId: string,
    targetCompId: string,
    msgSeqNum: F.uint64,
    sendingTime: int)

  /** `operator value_type`: the fields back, with version FIX_44. */
  function ToValue(w: Header): (h: F.Header)
    ensures h.version == F.FIX_44
    ensures h.msgType == w.msgType && h.msgSeqNum == w.msgSeqNum && h.sendingTime == w.sendingTime
    ensures h.senderCompId == w.senderCompId && h.targetCompId == w.targetCompId
  {
    F.Header(F.FIX_44, w.msgType, w.senderCompId, w.targetCompId, w.msgSeqNum, w.sendingTime)
  }

  /** `explicit Header(value_type const &)`: forgets only the version, so converting back changes nothing else. */
  function FromValue(h: F.Header): (w: Header)
    ensures ToValue(w) == h.(version := F.FIX_44)
  {
    Header(h.msgType, h.senderCompId, h.targetCompId, h.msgSeqNum, h.sendingTime)
  }

  /** The header round trip is the identity exactly when the original header was FIX_44. */
  lemma RoundTrip(h: F.Header)
    ensures ToValue(FromValue(h)) == h <==> h.version == F.FIX_44
  {
  }

  /** Wrapper -> value -> wrapper is the identity. */
  lemma WrapperRoundTrip(w: Header)
    ensures FromValue(ToValue(w)) == w
  {
  }
}
