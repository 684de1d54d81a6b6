/**
 * The value types of the FIX library the bindings wrap (roq::fix and
 * roq::codec::fix): the standard header and the messages whose wrappers are
 * modelled.  These types are foreign; they appear here only as records.
 * Times are nanoseconds (sending time) or milliseconds (transact time) since
 * the epoch.
 */
module FixTypes {
  newtype uint16 = x: int | 0 <= x < 0x1_0000
  newtype uint32 = x: int | 0 <= x < 0x1_0000_0000
  newtype uint64 = x: int | 0 <= x < 0x1_0000_0000_0000_0000

  const UINT64_MAX: uint64 := 0xFFFF_FFFF_FFFF_FFFF

  /** BeginString (tag 8). */
  datatype Version = UNDEFINED_VERSION | FIX_40 | FIX_41 | FIX_42 | FIX_43 | FIX_44 | FIX_50

  /** MsgType (tag 35) of the messages in this model. */
  datatype MsgType =
    | HEARTBEAT | TEST_REQUEST | RESEND_REQUEST | REJECT | LOGOUT | LOGON
    | SECURITY_LIST_REQUEST | SECURITY_LIST
    | ORDER_STATUS_REQUEST | ORDER_MASS_STATUS_REQUEST | NEW_ORDER_SINGLE | ORDER_MASS_CANCEL_REQUEST
    | TRADE_CAPTURE_REPORT | REQUEST_FOR_POSITIONS
  {
    /** The tag-35 value FIX 4.4 assigns to the message type. */
    function Code(): string {
      match this
      case HEARTBEAT => "0"
      case TEST_REQUEST => "1"
      case RESEND_REQUEST => "2"
      case REJECT => "3"
      case LOGOUT => "5"
      case LOGON => "A"
      case SECURITY_LIST_REQUEST => "x"
      case SECURITY_LIST => "y"
      case ORDER_STATUS_REQUEST => "H"
      case ORDER_MASS_STATUS_REQUEST => "AF"
      case NEW_ORDER_SINGLE => "D"
      case ORDER_MASS_CANCEL_REQUEST => "q"
      case TRADE_CAPTURE_REPORT => "AE"
      case REQUEST_FOR_POSITIONS => "AN"
    }
  }

  /** std::chrono::system_clock::time_point: nanoseconds since the epoch. */
  datatype TimePoint = TimePoint(sinceEpoch: int)

  /** The standard header (tags 8, 35, 49, 56, 34, 52). */
  datatype Header = Header(
    version: Version,
    msgType: MsgType,
    senderCompId: string,
    targetCompId: string,
    msgSeqNum: uint64,
    sendingTime: int)

  datatype EncryptMethod = NONE | OTHER_ENCRYPTION
  datatype SecurityListRequestType = UNDEFINED_LIST_TYPE | SYMBOL | SECURITY_TYPE | ALL_SECURITIES
  datatype SubscriptionRequestType = UNDEFINED_SUBSCRIPTION | SNAPSHOT | SNAPSHOT_UPDATES | UNSUBSCRIBE

  /**
   * Enumerations the wrappers only copy from field to field are represented
   * by their ordinal: nothing in the model depends on their values.
   */
  type SessionRejectReason = nat
  type SecurityRequestResult = nat
  type Side = nat
  type MassStatusReqType = nat
  type HandlInst = nat
  type OrdType = nat
  type TimeInForce = nat
  type PositionEffect = nat
  type MassCancelRequestType = nat
  type ExecType = nat
  type PosReqType = nat
  type AccountType = nat

  /** Number of decimals carried with a number; `Decimals{}` is UNDEFINED_DECIMALS. */
  datatype Decimals = UNDEFINED_DECIMALS | DECIMALS(places: nat)

  /** roq::utils::Number; the floating-point value is represented by a real. */
  datatype Number = Number(value: real, decimals: Decimals)

  /** std::chrono::year_month_day; the value-initialised `{}` is year 0, month 0, day 0. */
  datatype YearMonthDay = YearMonthDay(year: int, month: nat, day: nat) {
    /** year_month_day::ok(): a real calendar date. */
    predicate Ok() {
      1 <= month <= 12 && 1 <= day <= 31
    }
  }

  const DEFAULT_DATE := YearMonthDay(0, 0, 0)

  /** Elements of the repeating groups NoPartyIDs, NoTradingSessions and NoSides. */
  datatype Party = Party(partyId: string, partyIdSource: nat, partyRole: nat)
  datatype TradingSession = TradingSession(tradingSessionId: string)
  datatype TrdCapRptSide = TrdCapRptSide(side: Side, orderId: string, account: string)

  /** One entry of the NoRelatedSym group of a SecurityList. */
  datatype SecListGrp = SecListGrp(
    symbol: string,
    contractMultiplier: Number,
    securityExchange: string,
    minTradeVol: Number,
    tradingSessionId: string)

  /** The message bodies (roq::codec::fix values). */
  datatype Message =
    | Heartbeat(testReqId: string)
    | TestRequest(testReqId: string)
    | ResendRequest(beginSeqNo: uint64, endSeqNo: uint64)
    | Reject(
        refSeqNum: uint64,
        text: string,
        refTagId: uint32,
        refMsgType: MsgType,
        sessionRejectReason: SessionRejectReason)
    | Logout(text: string)
    | Logon(
        encryptMethod: EncryptMethod,
        heartBtInt: uint16,
        resetSeqNumFlag: bool,
        nextExpectedMsgSeqNum: uint64,
        username: string,
        password: string)
    | SecurityListRequest(
        securityReqId: string,
        securityListRequestType: SecurityListRequestType,
        symbol: string,
        securityExchange: string,
        tradingSessionId: string,
        subscriptionRequestType: SubscriptionRequestType)
    | SecurityList(
        securityReqId: string,
        securityResponseId: string,
        securityRequestResult: SecurityRequestResult,
        noRelatedSym: seq<SecListGrp>)
    | OrderStatusRequest(
        orderId: string,
        clOrdId: string,
        noPartyIds: seq<Party>,
        ordStatusReqId: string,
        account: string,
        symbol: string,
        securityExchange: string,
        side: Side)
    | OrderMassStatusRequest(
        massStatusReqId: string,
        massStatusReqType: MassStatusReqType,
        noPartyIds: seq<Party>,
        account: string,
        tradingSessionId: string,
        symbol: string,
        securityExchange: string,
        side: Side)
    | NewOrderSingle(
        clOrdId: string,
        secondaryClOrdId: string,
        noPartyIds: seq<Party>,
        account: string,
        handlInst: HandlInst,
        execInst: string,
        noTradingSessions: seq<TradingSession>,
        symbol: string,
        securityExchange: string,
        side: Side,
        transactTime: int,
        orderQty: Number,
        ordType: OrdType,
        price: Number,
        stopPx: Number,
        timeInForce: TimeInForce,
        text: string,
        positionEffect: PositionEffect,
        maxShow: Number)
    | OrderMassCancelRequest(
        clOrdId: string,
        massCancelRequestType: MassCancelRequestType,
        tradingSessionId: string,
        symbol: string,
        securityExchange: string,
        side: Side,
        transactTime: int,
        noPartyIds: seq<Party>)
    | TradeCaptureReport(
        tradeReportId: string,
        tradeRequestId: string,
        execType: ExecType,
        totNumTradeReports: uint32,
        lastRptRequested: bool,
        unsolicitedIndicator: bool,
        trdMatchId: string,
        execId: string,
        previouslyReported: bool,
        symbol: string,
        securityExchange: string,
        lastQty: Number,
        lastPx: Number,
        tradeDate: YearMonthDay,
        transactTime: int,
        noSides: seq<TrdCapRptSide>)
    | RequestForPositions(
        posReqId: string,
        posReqType: PosReqType,
        subscriptionRequestType: SubscriptionRequestType,
        noPartyIds: seq<Party>,
        account: string,
        accountType: AccountType,
        currency: string,
        symbol: string,
        securityExchange: string,
        clearingBusinessDate: YearMonthDay,
        noTradingSessions: seq<TradingSession>,
        transactTime: int)
  {
    /** T::MSG_TYPE of the message's type. */
    function MsgTypeOf(): MsgType {
      match this
      case Heartbeat(_) => HEARTBEAT
      case TestRequest(_) => TEST_REQUEST
      case ResendRequest(_, _) => RESEND_REQUEST
      case Reject(_, _, _, _, _) => REJECT
      case Logout(_) => LOGOUT
      case Logon(_, _, _, _, _, _) => LOGON
      case SecurityListRequest(_, _, _, _, _, _) => SECURITY_LIST_REQUEST
      case SecurityList(_, _, _, _) => SECURITY_LIST
      case OrderStatusRequest(_, _, _, _, _, _, _, _) => ORDER_STATUS_REQUEST
      case OrderMassStatusRequest(_, _, _, _, _, _, _, _) => ORDER_MASS_STATUS_REQUEST
      case NewOrderSingle(_, _, _, _, _, _, _, _, _, _, _, _, _, _, _, _, _, _, _) => NEW_ORDER_SINGLE
      case OrderMassCancelRequest(_, _, _, _, _, _, _, _) => ORDER_MASS_CANCEL_REQUEST
      case TradeCaptureReport(_, _, _, _, _, _, _, _, _, _, _, _, _, _, _, _) => TRADE_CAPTURE_REPORT
      case RequestForPositions(_, _, _, _, _, _, _, _, _, _, _, _) => REQUEST_FOR_POSITIONS
    }

    /** The total number of entries in the message's NoPartyIDs, NoTradingSessions and NoSides groups. */
    function GroupEntries(): nat {
      match this
      case OrderStatusRequest(_, _, _, _, _, _, _, _) => |noPartyIds|
      case OrderMassStatusRequest(_, _, _, _, _, _, _, _) => |noPartyIds|
      case NewOrderSingle(_, _, _, _, _, _, _, _, _, _, _, _, _, _, _, _, _, _, _) => |noPartyIds| + |noTradingSessions|
      case OrderMassCancelRequest(_, _, _, _, _, _, _, _) => |noPartyIds|
      case TradeCaptureReport(_, _, _, _, _, _, _, _, _, _, _, _, _, _, _, _) => |noSides|
      case RequestForPositions(_, _, _, _, _, _, _, _, _, _, _, _) => |noPartyIds| + |noTradingSessions|
      case _ => 0
    }
  }
}
