/**
 * The `roq.utils.mbp.Sequencer` binding of
 * src/roq/python/utils/mbp/details.cpp.  Its routing is that of
 * `MbpRouting`; only its `publish_snapshot` callback differs from the market
 * one, taking the levels and a sequence number it ignores.
 */
module UtilsMbp {
  import opened MbpRouting
  import MarketMbp

  /** A callback invocation by `roq::utils::mbp::Sequencer`. */
  datatype Event =
      /** `publish_update(bids, asks)`. */
    | PublishUpdate(bids: seq<Level>, asks: seq<Level>)
      /** `publish_snapshot(bids, asks, sequence)`. */
    | PublishSnapshot(bids: seq<Level>, asks: seq<Level>, sequence: nat)
      /** `request_snapshot(retries)`. */
    | RequestSnapshot(retries: nat)

  /** The callback lambdas of this `sequence_helper`. */
  function React(update: MarketByPriceUpdate, event: Event): (r: MarketMbp.Reaction)
    ensures r.Reset? <==> event.RequestSnapshot?
    ensures event.RequestSnapshot? ==> r.retries == event.retries
    ensures event.PublishUpdate? ==> r.Dispatch? && r.update.updateType == INCREMENTAL
    ensures event.PublishSnapshot? ==> r.Dispatch? && r.update.updateType == SNAPSHOT
    ensures r.Dispatch? ==> r.update.bids == event.bids && r.update.asks == event.asks
    ensures r.Dispatch? ==> r.update.(bids := update.bids, asks := update.asks, updateType := update.updateType) == update
  {
    match event
    case PublishUpdate(bids, asks) => MarketMbp.Dispatch(Publish(update, bids, asks, INCREMENTAL))
    case PublishSnapshot(bids, asks, _) => MarketMbp.Dispatch(Publish(update, bids, asks, SNAPSHOT))
    case RequestSnapshot(retries) => MarketMbp.Reset(retries)
  }

  /** The market callback invocation that carries the same levels and retry count. */
  function AsMarketEvent(event: Event, retries: nat, delay: int): MarketMbp.Event {
    match event
    case PublishUpdate(bids, asks) => MarketMbp.PublishUpdate(bids, asks)
    case PublishSnapshot(bids, asks, sequence) => MarketMbp.PublishSnapshot(bids, asks, sequence, retries, delay)
    case RequestSnapshot(retries) => MarketMbp.RequestSnapshot(retries)
  }

  /** Both bindings react alike: whatever the market sequencer adds to a snapshot is ignored. */
  lemma AgreesWithMarket(update: MarketByPriceUpdate, event: Event, retries: nat, delay: int)
    ensures React(update, event) == MarketMbp.React(update, AsMarketEvent(event, retries, delay))
  {
  }
}
