/**
 * The `roq.market.mbp.Sequencer` binding of
 * src/roq/python/market/mbp/details.cpp: how the callbacks it hands the
 * foreign sequencer turn what the sequencer reports into published updates
 * and snapshot requests, and how the sequencer is built.
 */
module MarketMbp {
  import opened MbpRouting

  /** A callback invocation by `roq::market::mbp::Sequencer`. */
  datatype Event =
      /** `publish_update(bids, asks)`. */
    | PublishUpdate(bids: seq<Level>, asks: seq<Level>)
      /** `publish_snapshot(bids, asks, sequence, retries, delay)`. */
    | PublishSnapshot(bids: seq<Level>, asks: seq<Level>, sequence: nat, retries: nat, delay: int)
      /** `request_snapshot(retries)`. */
    | RequestSnapshot(retries: nat)

  /** What reaches Python: an update handed to `callback`, or a call of `reset`. */
  datatype Reaction = Dispatch(update: MarketByPriceUpdate) | Reset(retries: nat)

  /** The callback lambdas of `sequence_helper`, for the update being sequenced. */
  function React(update: MarketByPriceUpdate, event: Event): (r: Reaction)
    ensures r.Reset? <==> event.RequestSnapshot?
    ensures event.RequestSnapshot? ==> r.retries == event.retries
    ensures event.PublishUpdate? ==> r.Dispatch? && r.update.updateType == INCREMENTAL
    ensures event.PublishSnapshot? ==> r.Dispatch? && r.update.updateType == SNAPSHOT
    ensures r.Dispatch? ==> r.update.bids == event.bids && r.update.asks == event.asks
    ensures r.Dispatch? ==> r.update.(bids := update.bids, asks := update.asks, updateType := update.updateType) == update
  {
    match event
    case PublishUpdate(bids, asks) => Dispatch(Publish(update, bids, asks, INCREMENTAL))
    case PublishSnapshot(bids, asks, _, _, _) => Dispatch(Publish(update, bids, asks, SNAPSHOT))
    case RequestSnapshot(retries) => Reset(retries)
  }

  /** A published snapshot does not depend on the sequence number, retry count or delay the sequencer reports. */
  lemma SnapshotIgnoresBookkeeping(update: MarketByPriceUpdate, bids: seq<Level>, asks: seq<Level>,
                                   sequence: nat, retries: nat, delay: int,
                                   sequence': nat, retries': nat, delay': int)
    ensures React(update, PublishSnapshot(bids, asks, sequence, retries, delay))
      == React(update, PublishSnapshot(bids, asks, sequence', retries', delay'))
  {
  }

  /** `roq::market::mbp::Sequencer::Options`. */
  datatype Options = Options(timeoutMilliseconds: int, maxUpdates: nat)

  /** The value-initialised `max_updates` the binding leaves in place. */
  const DEFAULT_MAX_UPDATES: nat := 0

  /** `create_sequencer` behind the Python constructor, whose `timeout` defaults to 0 ms. */
  function CreateSequencer(timeoutMilliseconds: int := 0): (options: Options)
    ensures options.timeoutMilliseconds == timeoutMilliseconds
    ensures options.maxUpdates == DEFAULT_MAX_UPDATES
  {
    Options(timeoutMilliseconds, DEFAULT_MAX_UPDATES)
  }

  /** A sequencer built from Python without arguments times out after 0 ms. */
  lemma DefaultSequencer()
    ensures CreateSequencer() == Options(0, DEFAULT_MAX_UPDATES)
  {
  }
}
