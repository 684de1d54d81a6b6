/**
 * The per-instrument order-book registry of the market-by-price callbacks in
 * samples/client_strategy.py (`MBP_CACHE`), samples/event_log_reader.py and
 * samples/client.py (`mbp_cache`), which share the same few lines: look the
 * book up under (exchange, symbol), create and store it if absent, apply the
 * update to it and extract its top two layers.
 *
 * The book `roq.cache.MarketByPrice` is foreign.  It is modelled by the
 * updates it has been given, in order; what `extract` returns is named by
 * those updates and the depth asked for.
 */
module MbpCache {
  import opened MbpRouting

  type Key = (string, string)

  /** The registry key of an update. */
  function KeyOf(update: MarketByPriceUpdate): Key {
    (update.exchange, update.symbol)
  }

  /** The layers the foreign book returns from `extract(depth)` once built from `updates`. */
  datatype Layers = Layers(updates: seq<MarketByPriceUpdate>, depth: nat)

  /** The number of layers the callbacks extract. */
  const DEPTH: nat := 2

  /** `roq.cache.MarketByPrice`: the book of one instrument. */
  class Book {
    const exchange: string
    const symbol: string
    /** The updates applied so far, in order. */
    var applied: seq<MarketByPriceUpdate>

    constructor (exchange: string, symbol: string)
      ensures this.exchange == exchange && this.symbol == symbol
      ensures applied == []
    {
      this.exchange := exchange;
      this.symbol := symbol;
      applied := [];
    }

    method Apply(update: MarketByPriceUpdate)
      modifies this
      ensures applied == old(applied) + [update]
    {
      applied := applied + [update];
    }

    method Extract(depth: nat) returns (layers: Layers)
      ensures layers == Layers(applied, depth)
    {
      layers := Layers(applied, depth);
    }
  }

  /** The updates a registry has applied under `key`: none when it holds no book there. */
  function History(contents: map<Key, seq<MarketByPriceUpdate>>, key: Key): seq<MarketByPriceUpdate> {
    if key in contents then contents[key] else []
  }

  /** One callback on the registry's contents: the update joins the history under its own key. */
  function Handled(contents: map<Key, seq<MarketByPriceUpdate>>, update: MarketByPriceUpdate)
    : map<Key, seq<MarketByPriceUpdate>>
  {
    contents[KeyOf(update) := History(contents, KeyOf(update)) + [update]]
  }

  /** A callback adds its update's key and extends that history alone. */
  lemma HandledChangesOnlyItsKey(contents: map<Key, seq<MarketByPriceUpdate>>, update: MarketByPriceUpdate)
    ensures Handled(contents, update).Keys == contents.Keys + {KeyOf(update)}
    ensures Handled(contents, update)[KeyOf(update)] == History(contents, KeyOf(update)) + [update]
    ensures forall key :: key in contents && key != KeyOf(update) ==> Handled(contents, update)[key] == contents[key]
  {
  }

  /** The history under any key after one callback. */
  lemma HandledHistory(contents: map<Key, seq<MarketByPriceUpdate>>, update: MarketByPriceUpdate, key: Key)
    ensures History(Handled(contents, update), key)
      == History(contents, key) + (if KeyOf(update) == key then [update] else [])
  {
  }

  /** A sequence of callbacks, in arrival order. */
  function HandledAll(contents: map<Key, seq<MarketByPriceUpdate>>, updates: seq<MarketByPriceUpdate>)
    : map<Key, seq<MarketByPriceUpdate>>
    decreases |updates|
  {
    if updates == [] then contents else HandledAll(Handled(contents, updates[0]), updates[1..])
  }

  /** The updates for one instrument, in order. */
  function ForKey(updates: seq<MarketByPriceUpdate>, key: Key): seq<MarketByPriceUpdate> {
    if updates == [] then []
    else (if KeyOf(updates[0]) == key then [updates[0]] else []) + ForKey(updates[1..], key)
  }

  /** The instruments the updates are for. */
  function KeysOf(updates: seq<MarketByPriceUpdate>): set<Key> {
    if updates == [] then {} else {KeyOf(updates[0])} + KeysOf(updates[1..])
  }

  /** A book exists exactly for the instruments already stored or seen. */
  lemma {:induction false} HandledAllKeys(contents: map<Key, seq<MarketByPriceUpdate>>, updates: seq<MarketByPriceUpdate>)
    ensures HandledAll(contents, updates).Keys == contents.Keys + KeysOf(updates)
    decreases |updates|
  {
    if updates != [] {
      HandledAllKeys(Handled(contents, updates[0]), updates[1..]);
    }
  }

  /** Each book receives exactly the updates for its instrument, each once and in arrival order. */
  lemma {:induction false} HandledAllSplitsByKey(contents: map<Key, seq<MarketByPriceUpdate>>,
                                                 updates: seq<MarketByPriceUpdate>, key: Key)
    ensures History(HandledAll(contents, updates), key) == History(contents, key) + ForKey(updates, key)
    decreases |updates|
  {
    if updates == [] {
      assert History(contents, key) + [] == History(contents, key);
    } else {
      var next := Handled(contents, updates[0]);
      assert HandledAll(contents, updates) == HandledAll(next, updates[1..]);
      HandledAllSplitsByKey(next, updates[1..], key);
      HandledHistory(contents, updates[0], key);
      var own := if KeyOf(updates[0]) == key then [updates[0]] else [];
      var before, after := History(contents, key), ForKey(updates[1..], key);
      assert ForKey(updates, key) == own + after;
      assert before + own + after == before + (own + after);
    }
  }

  /** Fed from an empty registry, a book's history is the updates for its instrument. */
  lemma FromEmpty(updates: seq<MarketByPriceUpdate>, key: Key)
    ensures key in HandledAll(map[], updates) <==> key in KeysOf(updates)
    ensures key in HandledAll(map[], updates) ==> HandledAll(map[], updates)[key] == ForKey(updates, key)
  {
    HandledAllKeys(map[], updates);
    HandledAllSplitsByKey(map[], updates, key);
    assert History(map[], key) + ForKey(updates, key) == ForKey(updates, key);
  }

  /** The module-level dict of books and the callback that maintains it. */
  class Cache {
    var books: map<Key, Book>
    /** The updates each stored book has been given. */
    ghost var contents: map<Key, seq<MarketByPriceUpdate>>

    ghost predicate Valid()
      reads this, books.Values
    {
      && books.Keys == contents.Keys
      && (forall key :: key in books ==> books[key].applied == contents[key])
      && (forall key :: key in books ==> books[key].exchange == key.0 && books[key].symbol == key.1)
      && (forall key, key' :: key in books && key' in books && key != key' ==> books[key] != books[key'])
    }

    constructor ()
      ensures Valid() && books == map[]
    {
      books := map[];
      contents := map[];
    }

    /** `get(key)`, and on a miss a new book for the key's exchange and symbol, stored under it. */
    method FindOrCreate(key: Key) returns (mbp: Book)
      requires Valid()
      modifies this
      ensures Valid()
      ensures books == old(books)[key := mbp]
      ensures key in old(books) ==> mbp == old(books)[key]
      ensures key !in old(books) ==> fresh(mbp)
      ensures contents == old(contents)[key := History(old(contents), key)]
    {
      if key in books {
        mbp := books[key];
        assert contents == contents[key := History(contents, key)];
      } else {
        mbp := new Book(key.0, key.1);
        books := books[key := mbp];
        contents := contents[key := []];
      }
    }

    /** `mbp.apply(update)` on the book stored under `key`. */
    method ApplyTo(key: Key, mbp: Book, update: MarketByPriceUpdate)
      requires Valid() && key in books && books[key] == mbp
      modifies this, mbp
      ensures Valid()
      ensures books == old(books)
      ensures contents == old(contents)[key := old(contents[key]) + [update]]
    {
      mbp.Apply(update);
      contents := contents[key := contents[key] + [update]];
    }

    /** The market-by-price callback: find or create the book, apply the update, extract two layers. */
    method OnMarketByPriceUpdate(update: MarketByPriceUpdate) returns (layers: Layers)
      requires Valid()
      modifies this, books.Values
      ensures Valid()
      ensures contents == Handled(old(contents), update)
      ensures KeyOf(update) in books && books == old(books)[KeyOf(update) := books[KeyOf(update)]]
      ensures KeyOf(update) in old(books) ==> books[KeyOf(update)] == old(books)[KeyOf(update)]
      ensures KeyOf(update) !in old(books) ==> fresh(books[KeyOf(update)])
      ensures layers == Layers(contents[KeyOf(update)], DEPTH)
    {
      var key := KeyOf(update);
      var mbp := FindOrCreate(key);
      ghost var found := contents;
      ApplyTo(key, mbp, update);
      assert contents == old(contents)[key := History(old(contents), key) + [update]] by {
        assert found[key] == History(old(contents), key);
      }
      layers := mbp.Extract(DEPTH);
    }
  }
}
