/**
 * The FIX message wrappers of the `roq.codec.fix` Python module
 * (src/roq/python/codec/fix/details.hpp).  Each wrapper keeps its own copy of
 * the fields; the explicit value constructor (`FromValue`) copies a codec
 * value into a wrapper and `operator value_type` (`ToValue`) copies it back.
 * The conversions are exact except where the C++ narrows or drops data:
 * HeartBtInt is cast to uint16, group entries lose their decimals, and the
 * NoPartyIDs / NoTradingSessions / NoSides groups are not kept at all.
 */
module CodecFix {
  import F = FixTypes

  const NANOS_PER_MILLI := 1_000_000
  const UINT16_MODULUS := 0x1_0000

  // ---------------------------------------------------------------- DateTime

  /** `DateTime` to milliseconds: duration_cast of the time since the epoch, which truncates toward zero. */
  function ToMilliseconds(tp: F.TimePoint): (ms: int)
    ensures 0 <= tp.sinceEpoch ==>
      0 <= ms && ms * NANOS_PER_MILLI <= tp.sinceEpoch < (ms + 1) * NANOS_PER_MILLI
    ensures tp.sinceEpoch <= 0 ==>
      ms <= 0 && (ms - 1) * NANOS_PER_MILLI < tp.sinceEpoch <= ms * NANOS_PER_MILLI
  {
    if 0 <= tp.sinceEpoch then tp.sinceEpoch / NANOS_PER_MILLI
    else -((-tp.sinceEpoch) / NANOS_PER_MILLI)
  }

  /** A whole number of milliseconds survives the conversion exactly. */
  lemma WholeMillisecondsExact(ms: int)
    ensures ToMilliseconds(F.TimePoint(ms * NANOS_PER_MILLI)) == ms
  {
  }

  /** Truncation toward zero: one nanosecond before the epoch is 0 ms, not -1 ms. */
  lemma TruncatesTowardZero()
    ensures ToMilliseconds(F.TimePoint(-1)) == 0
  {
  }

  /** `DateTime` to year_month_day: always the value-initialised date, which is not a calendar date. */
  function ToDate(tp: F.TimePoint): (d: F.YearMonthDay)
    ensures d == F.DEFAULT_DATE
    ensures !d.Ok()
  {
    F.YearMonthDay(0, 0, 0)
  }

  // --------------------------------------------------------------- SecListGrp

  /** The wrapper's NoRelatedSym entry: numbers are plain doubles, without decimals. */
  datatype SecListGrp = SecListGrp(
    symbol: string,
    contractMultiplier: real,
    securityExchange: string,
    minTradeVol: real,
    tradingSessionId: string)

  /** `explicit SecListGrp(value_type const &)`: keeps only the numeric part of each Number. */
  function SecListGrpFromValue(value: F.SecListGrp): (g: SecListGrp)
    ensures g.symbol == value.symbol && g.securityExchange == value.securityExchange
    ensures g.tradingSessionId == value.tradingSessionId
    ensures g.contractMultiplier == value.contractMultiplier.value && g.minTradeVol == value.minTradeVol.value
  {
    SecListGrp(value.symbol, value.contractMultiplier.value, value.securityExchange,
               value.minTradeVol.value, value.tradingSessionId)
  }

  /** `SecListGrp::operator value_type`: numbers get `Decimals{}`; the inverse of SecListGrpFromValue. */
  function SecListGrpToValue(g: SecListGrp): (value: F.SecListGrp)
    ensures value.contractMultiplier.decimals == F.UNDEFINED_DECIMALS
    ensures value.minTradeVol.decimals == F.UNDEFINED_DECIMALS
    ensures SecListGrpFromValue(value) == g
  {
    F.SecListGrp(g.symbol, F.Number(g.contractMultiplier, F.UNDEFINED_DECIMALS), g.securityExchange,
                 F.Number(g.minTradeVol, F.UNDEFINED_DECIMALS), g.tradingSessionId)
  }

  /** True when an entry carries no decimals, i.e. when it survives value -> wrapper -> value. */
  predicate WithoutDecimals(value: F.SecListGrp) {
    value.contractMultiplier.decimals == F.UNDEFINED_DECIMALS
    && value.minTradeVol.decimals == F.UNDEFINED_DECIMALS
  }

  /** An entry converts back to itself exactly when it carries no decimals. */
  lemma SecListGrpRoundTrip(value: F.SecListGrp)
    ensures SecListGrpToValue(SecListGrpFromValue(value)) == value <==> WithoutDecimals(value)
  {
  }

  /** What `create` computes from a list of codec entries. */
  function Wrapped(values: seq<F.SecListGrp>): (r: seq<SecListGrp>)
    ensures |r| == |values|
    ensures forall i :: 0 <= i < |values| ==> r[i] == SecListGrpFromValue(values[i])
  {
    if values == [] then [] else [SecListGrpFromValue(values[0])] + Wrapped(values[1..])
  }

  /** What `create_2` computes from a list of wrapper entries. */
  function Unwrapped(groups: seq<SecListGrp>): (r: seq<F.SecListGrp>)
    ensures |r| == |groups|
    ensures forall i :: 0 <= i < |groups| ==> r[i] == SecListGrpToValue(groups[i])
  {
    if groups == [] then [] else [SecListGrpToValue(groups[0])] + Unwrapped(groups[1..])
  }

  /** `SecurityList::create`: one wrapper entry per codec entry, in order. */
  method Create(values: seq<F.SecListGrp>) returns (result: seq<SecListGrp>)
    ensures result == Wrapped(values)
  {
    result := [];
    for i := 0 to |values|
      invariant |result| == i
      invariant forall k :: 0 <= k < i ==> result[k] == SecListGrpFromValue(values[k])
    {
      var item := SecListGrpFromValue(values[i]);
      result := result + [item];
    }
  }

  /** `SecurityList::create_2`: one codec entry per wrapper entry, in order. */
  method Create2(groups: seq<SecListGrp>) returns (result: seq<F.SecListGrp>)
    ensures result == Unwrapped(groups)
  {
    result := [];
    for i := 0 to |groups|
      invariant |result| == i
      invariant forall k :: 0 <= k < i ==> result[k] == SecListGrpToValue(groups[k])
    {
      var item := SecListGrpToValue(groups[i]);
      result := result + [item];
    }
  }

  /**
   * `create` followed by `create_2` keeps the number and order of the entries,
   * copies the strings and numbers, and drops the decimals; it is the identity
   * exactly when no entry carries decimals.
   */
  lemma CreateThenCreate2(values: seq<F.SecListGrp>)
    ensures |Unwrapped(Wrapped(values))| == |values|
    ensures forall i :: 0 <= i < |values| ==>
      var r := Unwrapped(Wrapped(values))[i];
      r.symbol == values[i].symbol && r.securityExchange == values[i].securityExchange
      && r.tradingSessionId == values[i].tradingSessionId
      && r.contractMultiplier.value == values[i].contractMultiplier.value
      && r.minTradeVol.value == values[i].minTradeVol.value
      && WithoutDecimals(r)
    ensures Unwrapped(Wrapped(values)) == values <==> forall i :: 0 <= i < |values| ==> WithoutDecimals(values[i])
  {
    var r := Unwrapped(Wrapped(values));
    if forall i :: 0 <= i < |values| ==> WithoutDecimals(values[i]) {
      forall i | 0 <= i < |values|
        ensures r[i] == values[i]
      {
        SecListGrpRoundTrip(values[i]);
      }
    }
  }

  /** A wrapper list converted to codec entries and back is unchanged. */
  lemma Create2ThenCreate(groups: seq<SecListGrp>)
    ensures Wrapped(Unwrapped(groups)) == groups
  {
  }

  // --------------------------------------------------------------- Encodeable

  /**
   * The wrapper objects, one constructor per wrapper class, holding the
   * wrapper's private fields.  Constructing a wrapper from Python arguments
   * is the constructor itself, except for the time-point overloads below.
   */
  datatype Encodeable =
    | Heartbeat(testReqId: string)
    | TestRequest(testReqId: string)
    | ResendRequest(beginSeqNo: F.uint64, endSeqNo: F.uint64)
    | Reject(
        refSeqNum: F.uint64,
        text: string,
        refTagId: F.uint32,
        refMsgType: F.MsgType,
        sessionRejectReason: F.SessionRejectReason)
    | Logout(text: string)
    | Logon(
        encryptMethod: F.EncryptMethod,
        heartBtInt: int,
        resetSeqNumFlag: bool,
        nextExpectedMsgSeqNum: F.uint64,
        username: string,
        password: string)
    | SecurityListRequest(
        securityReqId: string,
        securityListRequestType: F.SecurityListRequestType,
        symbol: string,
        securityExchange: string,
        tradingSessionId: string,
        subscriptionRequestType: F.SubscriptionRequestType)
    | SecurityList(
        securityReqId: string,
        securityResponseId: string,
        securityRequestResult: F.SecurityRequestResult,
        noRelatedSym: seq<SecListGrp>,
        noRelatedSym2: seq<F.SecListGrp>)
    | OrderStatusRequest(
        orderId: string,
        clOrdId: string,
        ordStatusReqId: string,
        account: string,
        symbol: string,
        securityExchange: string,
        side: F.Side)
    | OrderMassStatusRequest(
        massStatusReqId: string,
        massStatusReqType: F.MassStatusReqType,
        account: string,
        tradingSessionId: string,
        symbol: string,
        securityExchange: string,
        side: F.Side)
    | NewOrderSingle(
        clOrdId: string,
        secondaryClOrdId: string,
        account: string,
        handlInst: F.HandlInst,
        execInst: string,
        symbol: string,
        securityExchange: string,
        side: F.Side,
        transactTime: int,
        orderQty: F.Number,
        ordType: F.OrdType,
        price: F.Number,
        stopPx: F.Number,
        timeInForce: F.TimeInForce,
        text: string,
        positionEffect: F.PositionEffect,
        maxShow: F.Number)
    | OrderMassCancelRequest(
        clOrdId: string,
        massCancelRequestType: F.MassCancelRequestType,
        tradingSessionId: string,
        symbol: string,
        securityExchange: string,
        side: F.Side,
        transactTime: int)
    | TradeCaptureReport(
        tradeReportId: string,
        tradeRequestId: string,
        execType: F.ExecType,
        totNumTradeReports: F.uint32,
        lastRptRequested: bool,
        unsolicitedIndicator: bool,
        trdMatchId: string,
        execId: string,
        previouslyReported: bool,
        symbol: string,
        securityExchange: string,
        lastQty: F.Number,
        lastPx: F.Number,
        tradeDate: F.YearMonthDay,
        transactTime: int)
    | RequestForPositions(
        posReqId: string,
        posReqType: F.PosReqType,
        subscriptionRequestType: F.SubscriptionRequestType,
        account: string,
        accountType: F.AccountType,
        currency: string,
        symbol: string,
        securityExchange: string,
        clearingBusinessDate: F.YearMonthDay,
        transactTime: int)
  {
    /** MSG_TYPE of the wrapper's value_type. */
    function MsgType(): F.MsgType {
      match this
      case Heartbeat(_) => F.HEARTBEAT
      case TestRequest(_) => F.TEST_REQUEST
      case ResendRequest(_, _) => F.RESEND_REQUEST
      case Reject(_, _, _, _, _) => F.REJECT
      case Logout(_) => F.LOGOUT
      case Logon(_, _, _, _, _, _) => F.LOGON
      case SecurityListRequest(_, _, _, _, _, _) => F.SECURITY_LIST_REQUEST
      case SecurityList(_, _, _, _, _) => F.SECURITY_LIST
      case OrderStatusRequest(_, _, _, _, _, _, _) => F.ORDER_STATUS_REQUEST
      case OrderMassStatusRequest(_, _, _, _, _, _, _) => F.ORDER_MASS_STATUS_REQUEST
      case NewOrderSingle(_, _, _, _, _, _, _, _, _, _, _, _, _, _, _, _, _) => F.NEW_ORDER_SINGLE
      case OrderMassCancelRequest(_, _, _, _, _, _, _) => F.ORDER_MASS_CANCEL_REQUEST
      case TradeCaptureReport(_, _, _, _, _, _, _, _, _, _, _, _, _, _, _) => F.TRADE_CAPTURE_REPORT
      case RequestForPositions(_, _, _, _, _, _, _, _, _, _) => F.REQUEST_FOR_POSITIONS
    }
  }

  /** The Python SecurityList constructor: `create` copies the list, `create_2` converts it. */
  function NewSecurityList(
    securityReqId: string,
    securityResponseId: string,
    securityRequestResult: F.SecurityRequestResult,
    noRelatedSym: seq<SecListGrp>): (w: Encodeable)
    ensures w.SecurityList? && w.noRelatedSym == noRelatedSym
    ensures |w.noRelatedSym2| == |noRelatedSym|
    ensures forall i :: 0 <= i < |noRelatedSym| ==> SecListGrpFromValue(w.noRelatedSym2[i]) == noRelatedSym[i]
  {
    SecurityList(securityReqId, securityResponseId, securityRequestResult, noRelatedSym, Unwrapped(noRelatedSym))
  }

  /** The NewOrderSingle constructor taking a time point and doubles. */
  function NewOrderSingleAt(
    clOrdId: string, secondaryClOrdId: string, account: string, handlInst: F.HandlInst, execInst: string,
    symbol: string, securityExchange: string, side: F.Side, transactTime: F.TimePoint, orderQty: real,
    ordType: F.OrdType, price: real, stopPx: real, timeInForce: F.TimeInForce, text: string,
    positionEffect: F.PositionEffect, maxShow: real): Encodeable
  {
    NewOrderSingle(clOrdId, secondaryClOrdId, account, handlInst, execInst, symbol, securityExchange, side,
                   ToMilliseconds(transactTime), F.Number(orderQty, F.UNDEFINED_DECIMALS), ordType,
                   F.Number(price, F.UNDEFINED_DECIMALS), F.Number(stopPx, F.UNDEFINED_DECIMALS), timeInForce,
                   text, positionEffect, F.Number(maxShow, F.UNDEFINED_DECIMALS))
  }

  /** The OrderMassCancelRequest constructor taking a time point. */
  function OrderMassCancelRequestAt(
    clOrdId: string, massCancelRequestType: F.MassCancelRequestType, tradingSessionId: string,
    symbol: string, securityExchange: string, side: F.Side, transactTime: F.TimePoint): Encodeable
  {
    OrderMassCancelRequest(clOrdId, massCancelRequestType, tradingSessionId, symbol, securityExchange, side,
                           ToMilliseconds(transactTime))
  }

  /** The RequestForPositions constructor taking time points. */
  function RequestForPositionsAt(
    posReqId: string, posReqType: F.PosReqType, subscriptionRequestType: F.SubscriptionRequestType,
    account: string, accountType: F.AccountType, currency: string, symbol: string, securityExchange: string,
    clearingBusinessDate: F.TimePoint, transactTime: F.TimePoint): Encodeable
  {
    RequestForPositions(posReqId, posReqType, subscriptionRequestType, account, accountType, currency, symbol,
                        securityExchange, ToDate(clearingBusinessDate), ToMilliseconds(transactTime))
  }

  /** The explicit constructors from a codec value. */
  function FromValue(value: F.Message): Encodeable {
    match value
    case Heartbeat(testReqId) => Heartbeat(testReqId)
    case TestRequest(testReqId) => TestRequest(testReqId)
    case ResendRequest(beginSeqNo, endSeqNo) => ResendRequest(beginSeqNo, endSeqNo)
    case Reject(refSeqNum, text, refTagId, refMsgType, reason) =>
      Reject(refSeqNum, text, refTagId, refMsgType, reason)
    case Logout(text) => Logout(text)
    case Logon(encryptMethod, heartBtInt, resetSeqNumFlag, nextExpected, username, password) =>
      Logon(encryptMethod, heartBtInt as int, resetSeqNumFlag, nextExpected, username, password)
    case SecurityListRequest(securityReqId, listType, symbol, securityExchange, tradingSessionId, subscription) =>
      SecurityListRequest(securityReqId, listType, symbol, securityExchange, tradingSessionId, subscription)
    case SecurityList(securityReqId, securityResponseId, result, noRelatedSym) =>
      var groups := Wrapped(noRelatedSym);
      SecurityList(securityReqId, securityResponseId, result, groups, Unwrapped(groups))
    case OrderStatusRequest(orderId, clOrdId, _, ordStatusReqId, account, symbol, securityExchange, side) =>
      OrderStatusRequest(orderId, clOrdId, ordStatusReqId, account, symbol, securityExchange, side)
    case OrderMassStatusRequest(reqId, reqType, _, account, tradingSessionId, symbol, securityExchange, side) =>
      OrderMassStatusRequest(reqId, reqType, account, tradingSessionId, symbol, securityExchange, side)
    case NewOrderSingle(clOrdId, secondaryClOrdId, _, account, handlInst, execInst, _, symbol, securityExchange,
                        side, transactTime, orderQty, ordType, price, stopPx, timeInForce, text, positionEffect,
                        maxShow) =>
      NewOrderSingle(clOrdId, secondaryClOrdId, account, handlInst, execInst, symbol, securityExchange, side,
                     transactTime, orderQty, ordType, price, stopPx, timeInForce, text, positionEffect, maxShow)
    case OrderMassCancelRequest(clOrdId, cancelType, tradingSessionId, symbol, securityExchange, side,
                                transactTime, _) =>
      OrderMassCancelRequest(clOrdId, cancelType, tradingSessionId, symbol, securityExchange, side, transactTime)
    case TradeCaptureReport(tradeReportId, tradeRequestId, execType, totNum, lastRptRequested, unsolicited,
                            trdMatchId, execId, previouslyReported, symbol, securityExchange, lastQty, lastPx,
                            tradeDate, transactTime, _) =>
      TradeCaptureReport(tradeReportId, tradeRequestId, execType, totNum, lastRptRequested, unsolicited,
                         trdMatchId, execId, previouslyReported, symbol, securityExchange, lastQty, lastPx,
                         tradeDate, transactTime)
    case RequestForPositions(posReqId, posReqType, subscription, _, account, accountType, currency, symbol,
                             securityExchange, clearingBusinessDate, _, transactTime) =>
      RequestForPositions(posReqId, posReqType, subscription, account, accountType, currency, symbol,
                          securityExchange, clearingBusinessDate, transactTime)
  }

  /** `operator value_type`: HeartBtInt is narrowed to uint16 and every repeating group other than NoRelatedSym is empty. */
  function ToValue(w: Encodeable): F.Message {
    match w
    case Heartbeat(testReqId) => F.Heartbeat(testReqId)
    case TestRequest(testReqId) => F.TestRequest(testReqId)
    case ResendRequest(beginSeqNo, endSeqNo) => F.ResendRequest(beginSeqNo, endSeqNo)
    case Reject(refSeqNum, text, refTagId, refMsgType, reason) =>
      F.Reject(refSeqNum, text, refTagId, refMsgType, reason)
    case Logout(text) => F.Logout(text)
    case Logon(encryptMethod, heartBtInt, resetSeqNumFlag, nextExpected, username, password) =>
      F.Logon(encryptMethod, (heartBtInt % UINT16_MODULUS) as F.uint16, resetSeqNumFlag, nextExpected,
              username, password)
    case SecurityListRequest(securityReqId, listType, symbol, securityExchange, tradingSessionId, subscription) =>
      F.SecurityListRequest(securityReqId, listType, symbol, securityExchange, tradingSessionId, subscription)
    case SecurityList(securityReqId, securityResponseId, result, _, noRelatedSym2) =>
      F.SecurityList(securityReqId, securityResponseId, result, noRelatedSym2)
    case OrderStatusRequest(orderId, clOrdId, ordStatusReqId, account, symbol, securityExchange, side) =>
      F.OrderStatusRequest(orderId, clOrdId, [], ordStatusReqId, account, symbol, securityExchange, side)
    case OrderMassStatusRequest(reqId, reqType, account, tradingSessionId, symbol, securityExchange, side) =>
      F.OrderMassStatusRequest(reqId, reqType, [], account, tradingSessionId, symbol, securityExchange, side)
    case NewOrderSingle(clOrdId, secondaryClOrdId, account, handlInst, execInst, symbol, securityExchange, side,
                        transactTime, orderQty, ordType, price, stopPx, timeInForce, text, positionEffect,
                        maxShow) =>
      F.NewOrderSingle(clOrdId, secondaryClOrdId, [], account, handlInst, execInst, [], symbol, securityExchange,
                       side, transactTime, orderQty, ordType, price, stopPx, timeInForce, text, positionEffect,
                       maxShow)
    case OrderMassCancelRequest(clOrdId, cancelType, tradingSessionId, symbol, securityExchange, side,
                                transactTime) =>
      F.OrderMassCancelRequest(clOrdId, cancelType, tradingSessionId, symbol, securityExchange, side,
                               transactTime, [])
    case TradeCaptureReport(tradeReportId, tradeRequestId, execType, totNum, lastRptRequested, unsolicited,
                            trdMatchId, execId, previouslyReported, symbol, securityExchange, lastQty, lastPx,
                            tradeDate, transactTime) =>
      F.TradeCaptureReport(tradeReportId, tradeRequestId, execType, totNum, lastRptRequested, unsolicited,
                           trdMatchId, execId, previouslyReported, symbol, securityExchange, lastQty, lastPx,
                           tradeDate, transactTime, [])
    case RequestForPositions(posReqId, posReqType, subscription, account, accountType, currency, symbol,
                             securityExchange, clearingBusinessDate, transactTime) =>
      F.RequestForPositions(posReqId, posReqType, subscription, [], account, accountType, currency, symbol,
                            securityExchange, clearingBusinessDate, [], transactTime)
  }

  /** What a codec value keeps through value -> wrapper -> value: no group entries, no decimals in NoRelatedSym. */
  predicate Representable(value: F.Message) {
    value.GroupEntries() == 0
    && (value.SecurityList? ==> forall i :: 0 <= i < |value.noRelatedSym| ==> WithoutDecimals(value.noRelatedSym[i]))
  }

  /** `operator value_type` keeps the message type. */
  lemma ToValueKeepsMsgType(w: Encodeable)
    ensures ToValue(w).MsgTypeOf() == w.MsgType()
  {
    match w
    case Heartbeat(_) =>
    case TestRequest(_) =>
    case ResendRequest(_, _) =>
    case Reject(_, _, _, _, _) =>
    case Logout(_) =>
    case Logon(_, _, _, _, _, _) =>
    case SecurityListRequest(_, _, _, _, _, _) =>
    case SecurityList(_, _, _, _, _) =>
    case OrderStatusRequest(_, _, _, _, _, _, _) =>
    case OrderMassStatusRequest(_, _, _, _, _, _, _) =>
    case NewOrderSingle(_, _, _, _, _, _, _, _, _, _, _, _, _, _, _, _, _) =>
    case OrderMassCancelRequest(_, _, _, _, _, _, _) =>
    case TradeCaptureReport(_, _, _, _, _, _, _, _, _, _, _, _, _, _, _) =>
    case RequestForPositions(_, _, _, _, _, _, _, _, _, _) =>
  }

  /** The constructors from a codec value keep the message type. */
  lemma FromValueKeepsMsgType(value: F.Message)
    ensures FromValue(value).MsgType() == value.MsgTypeOf()
  {
    match value
    case Heartbeat(_) =>
    case TestRequest(_) =>
    case ResendRequest(_, _) =>
    case Reject(_, _, _, _, _) =>
    case Logout(_) =>
    case Logon(_, _, _, _, _, _) =>
    case SecurityListRequest(_, _, _, _, _, _) =>
    case SecurityList(_, _, _, _) =>
      assert FromValue(value).SecurityList?;
    case _ =>
      ApplicationFromValueKeepsMsgType(value);
  }

  /** The order and position messages keep their message type. */
  lemma ApplicationFromValueKeepsMsgType(value: F.Message)
    requires value.OrderStatusRequest? || value.OrderMassStatusRequest? || value.NewOrderSingle?
      || value.OrderMassCancelRequest? || value.TradeCaptureReport? || value.RequestForPositions?
    ensures FromValue(value).MsgType() == value.MsgTypeOf()
  {
    match value
    case OrderStatusRequest(_, _, _, _, _, _, _, _) =>
    case OrderMassStatusRequest(_, _, _, _, _, _, _, _) =>
    case NewOrderSingle(_, _, _, _, _, _, _, _, _, _, _, _, _, _, _, _, _, _, _) =>
    case OrderMassCancelRequest(_, _, _, _, _, _, _, _) =>
    case TradeCaptureReport(_, _, _, _, _, _, _, _, _, _, _, _, _, _, _, _) =>
    case RequestForPositions(_, _, _, _, _, _, _, _, _, _, _, _) =>
  }

  /** Every repeating group other than NoRelatedSym is emitted empty. */
  lemma GroupsEmittedEmpty(w: Encodeable)
    ensures ToValue(w).GroupEntries() == 0
  {
  }

  /** A codec value converts back to itself exactly when the wrapper can hold all of it. */
  lemma ValueRoundTrip(value: F.Message)
    ensures ToValue(FromValue(value)) == value <==> Representable(value)
  {
    if value.SecurityList? {
      SecurityListRoundTrip(value);
    } else {
      GroupFreeRoundTrip(value);
    }
  }

  lemma SecurityListRoundTrip(value: F.Message)
    requires value.SecurityList?
    ensures ToValue(FromValue(value)) == value <==> Representable(value)
  {
    CreateThenCreate2(value.noRelatedSym);
  }

  lemma GroupFreeRoundTrip(value: F.Message)
    requires !value.SecurityList?
    ensures ToValue(FromValue(value)) == value <==> value.GroupEntries() == 0
  {
    match value
    case OrderStatusRequest(_, _, _, _, _, _, _, _) =>
    case OrderMassStatusRequest(_, _, _, _, _, _, _, _) =>
    case NewOrderSingle(_, _, _, _, _, _, _, _, _, _, _, _, _, _, _, _, _, _, _) =>
    case OrderMassCancelRequest(_, _, _, _, _, _, _, _) =>
    case TradeCaptureReport(_, _, _, _, _, _, _, _, _, _, _, _, _, _, _, _) =>
    case RequestForPositions(_, _, _, _, _, _, _, _, _, _, _, _) =>
    case _ =>
  }

  /** Logon, ResendRequest and Reject carry no groups: their value round trip is the identity. */
  lemma SessionMessageRoundTrip(value: F.Message)
    requires value.Logon? || value.ResendRequest? || value.Reject?
    ensures ToValue(FromValue(value)) == value
  {
    ValueRoundTrip(value);
  }

  /** HeartBtInt is the seconds count cast to uint16: kept exactly when it fits, otherwise reduced mod 65536. */
  lemma HeartBtIntNarrowing(w: Encodeable)
    requires w.Logon?
    ensures ToValue(w).heartBtInt as int == w.heartBtInt % UINT16_MODULUS
    ensures ToValue(w).heartBtInt as int == w.heartBtInt <==> 0 <= w.heartBtInt < UINT16_MODULUS
  {
  }

  /** A wrapper whose fields a codec value can express in full. */
  predicate Expressible(w: Encodeable) {
    && (w.Logon? ==> 0 <= w.heartBtInt < UINT16_MODULUS)
    && (w.SecurityList? ==> w.noRelatedSym2 == Unwrapped(w.noRelatedSym))
  }

  /** A wrapper converted to a codec value and back is unchanged, when the value can express it. */
  lemma WrapperRoundTrip(w: Encodeable)
    requires Expressible(w)
    ensures FromValue(ToValue(w)) == w
  {
    match w
    case Heartbeat(_) =>
    case TestRequest(_) =>
    case ResendRequest(_, _) =>
    case Reject(_, _, _, _, _) =>
    case Logout(_) =>
    case Logon(_, _, _, _, _, _) =>
    case SecurityListRequest(_, _, _, _, _, _) =>
    case SecurityList(_, _, _, noRelatedSym, _) => SecurityListWrapperRoundTrip(w);
    case OrderStatusRequest(_, _, _, _, _, _, _) =>
    case OrderMassStatusRequest(_, _, _, _, _, _, _) =>
    case NewOrderSingle(_, _, _, _, _, _, _, _, _, _, _, _, _, _, _, _, _) =>
    case OrderMassCancelRequest(_, _, _, _, _, _, _) =>
    case TradeCaptureReport(_, _, _, _, _, _, _, _, _, _, _, _, _, _, _) =>
    case RequestForPositions(_, _, _, _, _, _, _, _, _, _) =>
  }

  lemma SecurityListWrapperRoundTrip(w: Encodeable)
    requires w.SecurityList? && Expressible(w)
    ensures FromValue(ToValue(w)) == w
  {
    Create2ThenCreate(w.noRelatedSym);
  }

  /** The time-point constructors truncate to milliseconds and store the default date. */
  lemma TimePointConstructors(
    clOrdId: string, account: string, symbol: string, securityExchange: string, side: F.Side,
    clearingBusinessDate: F.TimePoint, transactTime: F.TimePoint, qty: real)
    ensures ToValue(NewOrderSingleAt(clOrdId, "", account, 0, "", symbol, securityExchange, side, transactTime,
                                     qty, 0, qty, qty, 0, "", 0, qty)).transactTime == ToMilliseconds(transactTime)
    ensures ToValue(NewOrderSingleAt(clOrdId, "", account, 0, "", symbol, securityExchange, side, transactTime,
                                     qty, 0, qty, qty, 0, "", 0, qty)).orderQty == F.Number(qty, F.UNDEFINED_DECIMALS)
    ensures ToValue(OrderMassCancelRequestAt(clOrdId, 0, "", symbol, securityExchange, side, transactTime))
              .transactTime == ToMilliseconds(transactTime)
    ensures var v := ToValue(RequestForPositionsAt(clOrdId, 0, F.SNAPSHOT, account, 0, "", symbol,
                                                   securityExchange, clearingBusinessDate, transactTime));
      v.clearingBusinessDate == F.DEFAULT_DATE && !v.clearingBusinessDate.Ok()
      && v.transactTime == ToMilliseconds(transactTime)
  {
  }
}
