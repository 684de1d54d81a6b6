/**
 * Routing of market-by-price updates into an MBP sequencer, shared word for
 * word by src/roq/python/market/mbp/details.cpp and
 * src/roq/python/utils/mbp/details.cpp: `use_snapshot` decides whether a
 * snapshot is wanted, `sequence_helper` picks the sequencer entry point and
 * its sequence numbers from the update type, and `create` builds the copies
 * the sequencer's callbacks publish.
 *
 * The sequencer itself is foreign: whether it is `ready()` is a parameter,
 * and the call it receives is returned as a `SequencerCall` value.  The
 * channel test `roq::codec::udp::is_incremental` is foreign too and is passed
 * in as a function on the header.
 */
module MbpRouting {
  /** `roq::UpdateType`. */
  datatype UpdateType = UNDEFINED | SNAPSHOT | INCREMENTAL | STALE

  /**
   * A price level of a book side.  Its price and quantity are doubles that
   * this code only copies, so a level stands for itself.
   */
  type Level = nat

  /** `roq::MarketByPriceUpdate`, as exposed to Python. */
  datatype MarketByPriceUpdate = MarketByPriceUpdate(
    exchange: string,
    symbol: string,
    bids: seq<Level>,
    asks: seq<Level>,
    updateType: UpdateType,
    exchangeTimeUtc: int,
    exchangeSequence: int,
    sendingTimeUtc: int,
    priceDecimals: nat,
    quantityDecimals: nat,
    maxDepth: nat,
    checksum: nat)

  /**
   * The parts of the multicast datagram header `roq::codec::udp::Header` the
   * routing reads: the sequence numbers, and the rest, which only the foreign
   * `is_incremental` inspects to tell the incremental channel from the snapshot one.
   */
  datatype SequenceHeader = SequenceHeader(sequenceNumber: nat, lastSequenceNumber: nat, channel: nat)

  /** What `sequence_helper` does with one update. */
  datatype SequencerCall =
      /** `assert(false)`: an UNDEFINED update type. */
    | AssertionFailed
      /** No sequencer call. */
    | Skipped
      /** The snapshot entry point: levels, the snapshot's sequence number and the "use it anyway" flag. */
    | ApplySnapshot(bids: seq<Level>, asks: seq<Level>, sequence: nat, force: bool)
      /** The incremental entry point: levels and the three sequence numbers. */
    | ApplyIncremental(bids: seq<Level>, asks: seq<Level>, sequence: nat, firstSequence: nat, lastSequence: nat)

  /** `use_snapshot`: before the sequencer is ready any snapshot will do; afterwards only one from the incremental channel. */
  predicate UseSnapshot(header: SequenceHeader, ready: bool, isIncremental: SequenceHeader -> bool) {
    if ready then isIncremental(header) else true
  }

  /** `sequence_helper`: the sequencer call an update leads to. */
  function Route(update: MarketByPriceUpdate, header: SequenceHeader, ready: bool, isIncremental: SequenceHeader -> bool)
    : (call: SequencerCall)
    ensures call.AssertionFailed? <==> update.updateType == UNDEFINED
    ensures call.ApplySnapshot? <==> update.updateType == SNAPSHOT && (!ready || isIncremental(header))
    ensures call.ApplyIncremental? <==> update.updateType == INCREMENTAL
    ensures call.Skipped? <==> update.updateType == STALE || (update.updateType == SNAPSHOT && ready && !isIncremental(header))
    ensures call.ApplySnapshot? ==>
      call == ApplySnapshot(update.bids, update.asks, header.lastSequenceNumber, true)
    ensures call.ApplyIncremental? ==>
      call == ApplyIncremental(update.bids, update.asks, header.sequenceNumber, header.sequenceNumber, header.lastSequenceNumber)
  {
    match update.updateType
    case UNDEFINED => AssertionFailed
    case SNAPSHOT =>
      if UseSnapshot(header, ready, isIncremental) then
        ApplySnapshot(update.bids, update.asks, header.lastSequenceNumber, true)
      else
        Skipped
    case INCREMENTAL =>
      ApplyIncremental(update.bids, update.asks, header.sequenceNumber, header.sequenceNumber, header.lastSequenceNumber)
    case STALE => Skipped
  }

  /** While the sequencer is not ready, a snapshot reaches it from whichever channel it came. */
  lemma SnapshotsAcceptedUntilReady(update: MarketByPriceUpdate, header: SequenceHeader, isIncremental: SequenceHeader -> bool)
    requires update.updateType == SNAPSHOT
    ensures Route(update, header, false, isIncremental)
      == ApplySnapshot(update.bids, update.asks, header.lastSequenceNumber, true)
  {
  }

  /** Whether the sequencer is ready and which channel the datagram came on matter only for snapshots. */
  lemma OnlySnapshotsDependOnReadiness(update: MarketByPriceUpdate, header: SequenceHeader,
                                       ready: bool, ready': bool, isIncremental: SequenceHeader -> bool, isIncremental': SequenceHeader -> bool)
    requires update.updateType != SNAPSHOT
    ensures Route(update, header, ready, isIncremental) == Route(update, header, ready', isIncremental')
  {
  }

  /** `create`: a copy of the update with only the levels and the update type replaced. */
  function Publish(update: MarketByPriceUpdate, bids: seq<Level>, asks: seq<Level>, updateType: UpdateType)
    : (published: MarketByPriceUpdate)
    ensures published.bids == bids && published.asks == asks && published.updateType == updateType
    ensures published.(bids := update.bids, asks := update.asks, updateType := update.updateType) == update
  {
    update.(bids := bids, asks := asks, updateType := updateType)
  }

  /** Publishing the update's own levels and type gives the update back. */
  lemma PublishOwnLevels(update: MarketByPriceUpdate)
    ensures Publish(update, update.bids, update.asks, update.updateType) == update
  {
  }
}
