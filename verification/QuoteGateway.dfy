/** The gateway's quote side: an alias-indexed cache, an event ring and the WebSocket
    clients, updated in place as quotes arrive. */
module QuoteGateway {
  import opened Text
  import opened QuoteHistory

  class MarketDataGateway {
    var quoteCache: map<string, Quote>
    var eventHistory: seq<Quote>
    var sequenceCounter: nat
    var wsClients: map<string, set<string>>

    /** Everything that reached the cache; the first three fields are functions of it. */
    ghost var history: seq<Arrival>

    ghost predicate Valid()
      reads this
    {
      && (forall a :: Lookup(quoteCache, a) == Latest(history, a))
      && eventHistory == Newest(Ticks(history), RING)
      && sequenceCounter == |Ticks(history)|
      && Numbered(Ticks(history))
    }

    constructor ()
      ensures Valid() && history == [] && wsClients == map[]
    {
      quoteCache, eventHistory, sequenceCounter, wsClients := map[], [], 0, map[];
      history := [];
    }

    /** An adapter delivers a quote. */
    method OnQuote(symbol: string, price: real, aliases: set<string>) returns (quote: Quote)
      requires Valid()
      modifies this`quoteCache, this`eventHistory, this`sequenceCounter, this`history
      ensures Valid()
      ensures quote == Quote(symbol, price, old(sequenceCounter) + 1)
      ensures history == old(history) + [Tick(quote, aliases)]
      ensures sequenceCounter == old(sequenceCounter) + 1
      ensures eventHistory == (if |old(eventHistory)| < 2000 then old(eventHistory) else old(eventHistory)[1..]) + [quote]
      ensures forall a :: Lookup(quoteCache, a) == if a in aliases then Some(quote) else Lookup(old(quoteCache), a)
    {
      sequenceCounter := sequenceCounter + 1;
      quote := Quote(symbol, price, sequenceCounter);
      Append(quote);
      FileUnder(quote, aliases);
      history := history + [Tick(quote, aliases)];
      assert history[..|history| - 1] == old(history);
      forall a
        ensures Lookup(quoteCache, a) == Latest(history, a)
      {
        LatestSnoc(old(history), Tick(quote, aliases), a);
        assert Lookup(old(quoteCache), a) == Latest(old(history), a);
      }
    }

    /** The Dhan bridge: ticks without a positive price are dropped. */
    method OnDhanTick(symbol: string, lastPrice: real, aliases: set<string>)
      requires Valid()
      modifies this`quoteCache, this`eventHistory, this`sequenceCounter, this`history
      ensures Valid()
      ensures history == if lastPrice > 0.0
                         then old(history) + [Tick(Quote(symbol, lastPrice, old(sequenceCounter) + 1), aliases)]
                         else old(history)
    {
      if lastPrice <= 0.0 {
        return;
      }
      var quote := OnQuote(symbol, lastPrice, aliases);
    }

    /** A snapshot quote fills one missing key. */
    method BackfillKey(key: string, quote: Quote)
      requires Valid()
      modifies this`quoteCache, this`history
      ensures Valid()
      ensures history == old(history) + [Backfill(key, quote)]
      ensures quoteCache == old(quoteCache)[key := quote]
    {
      quoteCache := quoteCache[key := quote];
      history := history + [Backfill(key, quote)];
      assert history[..|history| - 1] == old(history);
      forall a
        ensures Lookup(quoteCache, a) == Latest(history, a)
      {
        LatestSnoc(old(history), Backfill(key, quote), a);
        assert Lookup(old(quoteCache), a) == Latest(old(history), a);
      }
    }

    /** The bounded event ring drops its oldest entry when full. */
    method Append(quote: Quote)
      requires |eventHistory| <= RING
      modifies this`eventHistory
      ensures eventHistory == Newest(old(eventHistory) + [quote], RING)
      ensures eventHistory == (if |old(eventHistory)| < 2000 then old(eventHistory) else old(eventHistory)[1..]) + [quote]
    {
      eventHistory := eventHistory + [quote];
      if |eventHistory| > RING {
        eventHistory := eventHistory[1..];
      }
    }

    method FileUnder(quote: Quote, aliases: set<string>)
      modifies this`quoteCache
      ensures forall a :: Lookup(quoteCache, a) == if a in aliases then Some(quote) else Lookup(old(quoteCache), a)
    {
      var rest := aliases;
      while rest != {}
        invariant rest <= aliases
        invariant forall a :: Lookup(quoteCache, a) ==
                    if a in aliases && a !in rest then Some(quote) else Lookup(old(quoteCache), a)
        decreases rest
      {
        var a :| a in rest;
        quoteCache := quoteCache[a := quote];
        rest := rest - {a};
      }
    }

    /** Sends a quote to every client that wants it, once each, and drops exactly the
        recipients whose send failed; `broken` are the clients whose sockets fail. */
    method BroadcastQuote(quote: Quote, aliases: set<string>, broken: set<string>) returns (sent: seq<string>)
      modifies this`wsClients
      ensures forall i, j :: 0 <= i < j < |sent| ==> sent[i] != sent[j]
      ensures forall c :: c in sent <==>
                && c in old(wsClients) && c !in broken
                && ("*" in old(wsClients)[c] || exists a :: a in aliases && a in old(wsClients)[c])
      ensures forall c :: Lookup(wsClients, c) ==
                if c in old(wsClients) && c in broken
                   && ("*" in old(wsClients)[c] || exists a :: a in aliases && a in old(wsClients)[c])
                then None
                else Lookup(old(wsClients), c)
    {
      assert forall s :: Wants(s, aliases) <==> "*" in s || exists a :: a in aliases && a in s by {
        forall s: set<string>
          ensures Wants(s, aliases) <==> "*" in s || exists a :: a in aliases && a in s
        {
          WantsMeaning(s, aliases);
        }
      }
      sent := [];
      var dead: set<string> := {};
      var rest := wsClients.Keys;
      while rest != {}
        invariant rest <= wsClients.Keys
        invariant forall i, j :: 0 <= i < j < |sent| ==> sent[i] != sent[j]
        invariant forall c :: c in sent <==> c in wsClients && c !in rest && Wants(wsClients[c], aliases) && c !in broken
        invariant forall c :: c in dead <==> c in wsClients && c !in rest && Wants(wsClients[c], aliases) && c in broken
        decreases rest
      {
        var c :| c in rest;
        rest := rest - {c};
        if Wants(wsClients[c], aliases) {
          if c in broken {
            dead := dead + {c};
          } else {
            sent := sent + [c];
          }
        }
      }
      wsClients := wsClients - dead;
    }
  }
}
