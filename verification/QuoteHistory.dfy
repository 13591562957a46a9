/** The tick history behind the gateway's quote cache, event ring and fan-out. */
module QuoteHistory {
  import opened Text

  datatype Quote = Quote(symbol: string, price: real, sequence: nat)

  /** What reached the cache: a tick, filed under all aliases of its symbol, or a snapshot
      quote filed under a single key. */
  datatype Arrival = Tick(quote: Quote, aliases: set<string>) | Backfill(key: string, quote: Quote)

  const RING: nat := 2000

  predicate Concerns(a: Arrival, alias: string) {
    match a
    case Tick(_, aliases) => alias in aliases
    case Backfill(key, _) => key == alias
  }

  /** The latest arrival that concerns an alias, and its quote. */
  function LatestArrival(h: seq<Arrival>, alias: string): Option<Arrival> {
    if h == [] then None
    else if Concerns(h[|h| - 1], alias) then Some(h[|h| - 1])
    else LatestArrival(h[..|h| - 1], alias)
  }

  function Latest(h: seq<Arrival>, alias: string): Option<Quote> {
    var a := LatestArrival(h, alias);
    if a.Some? then Some(a.value.quote) else None
  }

  /** The quotes of all ticks, in order. */
  function Ticks(h: seq<Arrival>): seq<Quote> {
    if h == [] then []
    else Ticks(h[..|h| - 1]) + (if h[|h| - 1].Tick? then [h[|h| - 1].quote] else [])
  }

  /** Ticks are numbered from one. */
  ghost predicate Numbered(events: seq<Quote>) {
    forall i :: 0 <= i < |events| ==> events[i].sequence == i + 1
  }

  /** The ring carries consecutive sequence numbers that end at the counter. */
  lemma RingIsConsecutive(events: seq<Quote>)
    requires Numbered(events)
    ensures var ring := Newest(events, RING);
            |ring| == (if |events| < 2000 then |events| else 2000)
            && forall i :: 0 <= i < |ring| ==> ring[i].sequence == |events| - |ring| + i + 1
  {
  }

  /** Position `i` concerns the alias and no later one does. */
  ghost predicate LastConcern(h: seq<Arrival>, alias: string, i: nat) {
    i < |h| && Concerns(h[i], alias) && forall j :: i < j < |h| ==> !Concerns(h[j], alias)
  }

  /** "Latest" in terms of positions: what is at the last position that concerns the alias,
      and none exactly when no position does. */
  lemma {:induction false} LatestMeaning(h: seq<Arrival>, alias: string)
    ensures forall i: nat :: LastConcern(h, alias, i) ==> LatestArrival(h, alias) == Some(h[i])
    ensures LatestArrival(h, alias).Some? ==> exists i: nat :: LastConcern(h, alias, i)
    ensures LatestArrival(h, alias).None? ==> forall i :: 0 <= i < |h| ==> !Concerns(h[i], alias)
  {
    if h != [] {
      var init, n := h[..|h| - 1], |h| - 1;
      assert forall i :: 0 <= i < n ==> init[i] == h[i];
      LatestMeaning(init, alias);
      if Concerns(h[n], alias) {
        assert LastConcern(h, alias, n);
      } else {
        assert forall i: nat :: LastConcern(h, alias, i) <==> LastConcern(init, alias, i);
      }
    }
  }

  // ----- Fan-out -----

  predicate Wants(subscriptions: set<string>, aliases: set<string>) {
    "*" in subscriptions || subscriptions * aliases != {}
  }

  lemma WantsMeaning(subscriptions: set<string>, aliases: set<string>)
    ensures Wants(subscriptions, aliases) <==> "*" in subscriptions || exists a :: a in aliases && a in subscriptions
  {
    if a :| a in aliases && a in subscriptions {
      assert a in subscriptions * aliases;
    }
    if subscriptions * aliases != {} {
      var a :| a in subscriptions * aliases;
    }
  }

  /** The ticks that a client with fixed subscriptions is sent, in order. */
  function Received(h: seq<Arrival>, subscriptions: set<string>): seq<Arrival> {
    if h == [] then []
    else
      var last := h[|h| - 1];
      Received(h[..|h| - 1], subscriptions)
      + if last.Tick? && Wants(subscriptions, last.aliases) then [last] else []
  }

  function LastOf(r: seq<Arrival>): Option<Arrival> {
    if r == [] then None else Some(r[|r| - 1])
  }

  lemma LatestSnoc(h: seq<Arrival>, a: Arrival, alias: string)
    ensures LatestArrival(h + [a], alias) == if Concerns(a, alias) then Some(a) else LatestArrival(h, alias)
  {
    assert (h + [a])[..|h + [a]| - 1] == h;
  }

  /** A client that follows a symbol knows from what it is sent the tick that the cache
      answers for the symbol, whenever the latest arrival about it is a tick; so it does when
      there is none. Only a snapshot quote, filed without being sent, sets the two apart. */
  lemma {:induction false} PushAgreesWithCache(h: seq<Arrival>, subscriptions: set<string>, symbol: string)
    requires symbol in subscriptions || "*" in subscriptions
    ensures var a, r := LatestArrival(h, symbol), LatestArrival(Received(h, subscriptions), symbol);
            && (r.Some? ==> r.value.Tick?)
            && (if a.Some? && a.value.Backfill? then Latest(h, symbol) == Some(a.value.quote) else r == a)
  {
    if h != [] {
      var init, last := h[..|h| - 1], h[|h| - 1];
      PushAgreesWithCache(init, subscriptions, symbol);
      LatestSnoc(Received(init, subscriptions), last, symbol);
      assert Received(init, subscriptions) + [] == Received(init, subscriptions);
      assert last.Tick? && symbol in last.aliases && symbol in subscriptions ==> symbol in subscriptions * last.aliases;
    }
  }

  /** For a client that follows one symbol, that tick is simply the last one sent. */
  lemma {:induction false} SingleFollower(h: seq<Arrival>, symbol: string)
    requires symbol != "*"
    ensures LatestArrival(Received(h, {symbol}), symbol) == LastOf(Received(h, {symbol}))
  {
    if h != [] {
      hide Received, LatestArrival, Wants;
      var init, last := h[..|h| - 1], h[|h| - 1];
      var sent := Received(init, {symbol});
      SingleFollower(init, symbol);
      LatestSnoc(sent, last, symbol);
      FollowerStep(h, symbol);
    }
  }

  lemma FollowerStep(h: seq<Arrival>, symbol: string)
    requires h != [] && symbol != "*"
    ensures var init, last := h[..|h| - 1], h[|h| - 1];
            Received(h, {symbol}) == if last.Tick? && symbol in last.aliases then Received(init, {symbol}) + [last] else Received(init, {symbol})
  {
    var init, last := h[..|h| - 1], h[|h| - 1];
    if last.Tick? {
      WantsMeaning({symbol}, last.aliases);
    }
    assert Received(init, {symbol}) + [] == Received(init, {symbol});
  }

  /** A snapshot that arrives after a tick hides it from the cache but not from the clients. */
  lemma SnapshotHidesTick(symbol: string, q: Quote, snapshot: Quote)
    requires symbol != "*" && q != snapshot
    ensures var h := [Tick(q, {symbol}), Backfill(symbol, snapshot)];
            Latest(h, symbol) == Some(snapshot) && LastOf(Received(h, {symbol})) == Some(Tick(q, {symbol}))
  {
    var h := [Tick(q, {symbol}), Backfill(symbol, snapshot)];
    assert h[..1] == [Tick(q, {symbol})] && h[..1][..0] == [];
    assert {symbol} * {symbol} == {symbol};
    assert Received(h[..1][..0], {symbol}) == [];
    assert Received(h[..1], {symbol}) == [] + [Tick(q, {symbol})];
    assert Received(h, {symbol}) == Received(h[..1], {symbol}) + [];
  }
}
