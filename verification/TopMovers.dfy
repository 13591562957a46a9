/** Gainers, losers and volume leaders of the quote cache. */
module TopMovers {
  import opened Text

  datatype Quote = Quote(symbol: string, lastPrice: Option<real>, changePct: Option<real>,
                         changeFallback: Option<real>, volume: Option<real>)

  /** The first of two optional numbers that is present and not zero, else zero. */
  function Change(q: Quote): real {
    if q.changePct.Some? && q.changePct.value != 0.0 then q.changePct.value
    else if q.changeFallback.Some? then q.changeFallback.value
    else 0.0
  }

  function Drop(q: Quote): real {
    -Change(q)
  }

  function Volume(q: Quote): real {
    if q.volume.Some? then q.volume.value else 0.0
  }

  predicate Listed(key: string, q: Quote) {
    ':' !in key && q.lastPrice.Some? && q.lastPrice.value > 0.0
  }

  // ----- Filtering and deduplication -----

  function Listings(cache: seq<(string, Quote)>): seq<Quote> {
    if cache == [] then []
    else
      var last := cache[|cache| - 1];
      Listings(cache[..|cache| - 1]) + if Listed(last.0, last.1) then [last.1] else []
  }

  /** The listed quotes are those cached under a key without a colon at a positive price. */
  lemma {:induction false} ListingsMeaning(cache: seq<(string, Quote)>, q: Quote)
    ensures q in Listings(cache) <==>
              exists i :: 0 <= i < |cache| && cache[i].1 == q && ':' !in cache[i].0 && q.lastPrice.Some? && q.lastPrice.value > 0.0
  {
    if cache != [] {
      var init, last := cache[..|cache| - 1], cache[|cache| - 1];
      ListingsMeaning(init, q);
      assert forall i :: 0 <= i < |init| ==> init[i] == cache[i];
    }
  }

  function SymbolsOf(xs: seq<Quote>): set<string> {
    set q | q in xs :: q.symbol
  }

  /** The first quote of each symbol. */
  function Deduped(xs: seq<Quote>): seq<Quote> {
    if xs == [] then []
    else
      var init, last := xs[..|xs| - 1], xs[|xs| - 1];
      if last.symbol in SymbolsOf(init) then Deduped(init) else Deduped(init) + [last]
  }

  ghost predicate DistinctSymbols(xs: seq<Quote>) {
    forall i, j :: 0 <= i < j < |xs| ==> xs[i].symbol != xs[j].symbol
  }

  /** Some position holds `q`, and no earlier one holds its symbol. */
  ghost predicate IsFirst(xs: seq<Quote>, q: Quote) {
    exists i :: 0 <= i < |xs| && xs[i] == q && q.symbol !in SymbolsOf(xs[..i])
  }

  lemma SymbolsSnoc(xs: seq<Quote>, q: Quote)
    ensures SymbolsOf(xs + [q]) == SymbolsOf(xs) + {q.symbol}
  {
    assert forall p :: p in xs + [q] <==> p in xs || p == q;
    assert q in xs + [q];
  }

  /** Deduplication keeps every symbol exactly once. */
  lemma {:induction false} DedupedSymbols(xs: seq<Quote>)
    ensures DistinctSymbols(Deduped(xs)) && SymbolsOf(Deduped(xs)) == SymbolsOf(xs)
  {
    if xs != [] {
      var init, last := xs[..|xs| - 1], xs[|xs| - 1];
      assert xs == init + [last];
      DedupedSymbols(init);
      SymbolsSnoc(init, last);
      SymbolsSnoc(Deduped(init), last);
      assert forall i :: 0 <= i < |Deduped(init)| ==> Deduped(init)[i] in Deduped(init);
    }
  }

  /** ... represented by its first quote. */
  lemma {:induction false} DedupedAreFirsts(xs: seq<Quote>, q: Quote)
    ensures q in Deduped(xs) <==> IsFirst(xs, q)
  {
    if xs != [] {
      hide SymbolsOf, IsFirst;
      var init, last := xs[..|xs| - 1], xs[|xs| - 1];
      assert xs == init + [last];
      DedupedAreFirsts(init, q);
      IsFirstSnoc(init, last, q);
    }
  }

  lemma IsFirstSnoc(init: seq<Quote>, last: Quote, q: Quote)
    ensures IsFirst(init + [last], q) <==> IsFirst(init, q) || (q == last && last.symbol !in SymbolsOf(init))
  {
    hide SymbolsOf;
    var xs := init + [last];
    assert forall i :: 0 <= i <= |init| ==> xs[..i] == init[..i];
    assert init[..|init|] == init && xs[|init|] == last;
    if IsFirst(init, q) {
      var i :| 0 <= i < |init| && init[i] == q && q.symbol !in SymbolsOf(init[..i]);
      assert xs[i] == q;
    }
  }

  // ----- Ranking -----

  function Insert(q: Quote, ranked: seq<Quote>, score: Quote -> real): seq<Quote> {
    if ranked == [] || score(q) >= score(ranked[0]) then [q] + ranked
    else [ranked[0]] + Insert(q, ranked[1..], score)
  }

  /** A stable sort by descending score. */
  function Ranked(xs: seq<Quote>, score: Quote -> real): seq<Quote> {
    if xs == [] then [] else Insert(xs[0], Ranked(xs[1..], score), score)
  }

  /** How many of `n` elements a slice up to `limit` keeps; a negative limit counts from the end. */
  function Kept(n: nat, limit: int): nat {
    if limit >= n then n else if limit >= 0 then limit else if n + limit > 0 then n + limit else 0
  }

  /** `xs[:limit]` */
  function Top(xs: seq<Quote>, limit: int): seq<Quote> {
    xs[..Kept(|xs|, limit)]
  }

  ghost predicate ListedBefore(xs: seq<Quote>, a: Quote, b: Quote) {
    exists i, j :: 0 <= i < j < |xs| && xs[i] == a && xs[j] == b
  }

  /** `a` outranks `b`: a higher score or, on a tie, listed earlier. */
  ghost predicate Outranks(xs: seq<Quote>, score: Quote -> real, a: Quote, b: Quote) {
    score(a) > score(b) || (score(a) == score(b) && ListedBefore(xs, a, b))
  }

  ghost predicate InOrder(xs: seq<Quote>, score: Quote -> real, ranked: seq<Quote>) {
    forall i, j :: 0 <= i < j < |ranked| ==> Outranks(xs, score, ranked[i], ranked[j])
  }

  lemma {:induction false} InsertMembers(q: Quote, ranked: seq<Quote>, score: Quote -> real)
    ensures multiset(Insert(q, ranked, score)) == multiset{q} + multiset(ranked)
    ensures forall s :: s in Insert(q, ranked, score) <==> s == q || s in ranked
  {
    if ranked != [] {
      assert ranked == [ranked[0]] + ranked[1..];
      InsertMembers(q, ranked[1..], score);
    }
  }

  lemma InOrderCons(xs: seq<Quote>, score: Quote -> real, r: Quote, rest: seq<Quote>)
    requires InOrder(xs, score, rest) && forall s :: s in rest ==> Outranks(xs, score, r, s)
    ensures InOrder(xs, score, [r] + rest)
  {
    hide Outranks;
  }

  lemma InOrderTail(xs: seq<Quote>, score: Quote -> real, ranked: seq<Quote>)
    requires InOrder(xs, score, ranked) && ranked != []
    ensures InOrder(xs, score, ranked[1..])
    ensures forall s :: s in ranked[1..] ==> Outranks(xs, score, ranked[0], s)
  {
    hide Outranks;
  }

  lemma {:induction false} InsertInOrder(xs: seq<Quote>, score: Quote -> real, q: Quote, ranked: seq<Quote>)
    requires InOrder(xs, score, ranked)
    requires forall r :: r in ranked ==> ListedBefore(xs, q, r)
    ensures InOrder(xs, score, Insert(q, ranked, score))
  {
    hide ListedBefore, InOrder;
    if ranked == [] {
      InOrderOne(xs, score, q);
    } else {
      var r, tail := ranked[0], ranked[1..];
      assert ranked == [r] + tail;
      InOrderTail(xs, score, ranked);
      if score(q) < score(r) {
        InsertInOrder(xs, score, q, tail);
        InsertMembers(q, tail, score);
        InOrderCons(xs, score, r, Insert(q, tail, score));
      } else {
        InOrderCons(xs, score, q, ranked);
      }
    }
  }

  lemma InOrderOne(xs: seq<Quote>, score: Quote -> real, q: Quote)
    ensures InOrder(xs, score, [q] + [])
  {
  }

  /** The sort is a permutation, strictly ordered by score and listing position. */
  lemma {:induction false} RankedInOrder(xs: seq<Quote>, score: Quote -> real)
    ensures InOrder(xs, score, Ranked(xs, score)) && multiset(Ranked(xs, score)) == multiset(xs)
  {
    if xs != [] {
      var q, tail := xs[0], xs[1..];
      assert xs == [q] + tail;
      RankedInOrder(tail, score);
      var ranked := Ranked(tail, score);
      forall i, j | 0 <= i < j < |ranked|
        ensures Outranks(xs, score, ranked[i], ranked[j])
      {
        LaterListed(q, tail, ranked[i], ranked[j]);
        assert Outranks(tail, score, ranked[i], ranked[j]);
      }
      forall r | r in ranked
        ensures ListedBefore(xs, q, r)
      {
        assert r in multiset(tail);
        var k :| 0 <= k < |tail| && tail[k] == r;
        assert xs[0] == q && xs[k + 1] == r;
      }
      InsertInOrder(xs, score, q, ranked);
      InsertMembers(q, ranked, score);
    }
  }

  lemma LaterListed(q: Quote, tail: seq<Quote>, a: Quote, b: Quote)
    ensures ListedBefore(tail, a, b) ==> ListedBefore([q] + tail, a, b)
  {
    if i, j :| 0 <= i < j < |tail| && tail[i] == a && tail[j] == b {
      var xs := [q] + tail;
      assert xs[i + 1] == a && xs[j + 1] == b;
    }
  }

  // ----- What a list promises -----

  /** `out` is the true top of `pool`: its quotes come from the pool with distinct symbols,
      in order, as many as the limit allows, and every quote left out is outranked by every
      quote included. */
  ghost predicate IsTop(pool: seq<Quote>, score: Quote -> real, limit: int, out: seq<Quote>) {
    && |out| == (if limit >= |pool| then |pool| else if limit >= 0 then limit else if -limit >= |pool| then 0 else |pool| + limit)
    && (forall q :: q in out ==> q in pool)
    && DistinctSymbols(out)
    && InOrder(pool, score, out)
    && forall a, b :: a in out && b in pool && b !in out ==> Outranks(pool, score, a, b)
  }

  lemma DistinctByMultiset(xs: seq<Quote>, ys: seq<Quote>)
    requires DistinctSymbols(xs) && multiset(xs) == multiset(ys)
    ensures DistinctSymbols(ys)
  {
    forall i, j | 0 <= i < j < |ys| && ys[i].symbol == ys[j].symbol
      ensures false
    {
      assert ys[i] in multiset(xs) && ys[j] in multiset(xs);
      var k :| 0 <= k < |xs| && xs[k] == ys[i];
      var l :| 0 <= l < |xs| && xs[l] == ys[j];
      TwiceInMultiset(ys, i, j);
      OnceInMultiset(xs, k);
    }
  }

  lemma TwiceInMultiset(ys: seq<Quote>, i: nat, j: nat)
    requires i < j < |ys|
    ensures ys[i] == ys[j] ==> multiset(ys)[ys[i]] >= 2
  {
    assert ys == ys[..i] + [ys[i]] + ys[i + 1..j] + [ys[j]] + ys[j + 1..];
  }

  lemma OnceInMultiset(xs: seq<Quote>, k: nat)
    requires DistinctSymbols(xs) && k < |xs|
    ensures multiset(xs)[xs[k]] == 1
  {
    assert xs == xs[..k] + [xs[k]] + xs[k + 1..];
    assert xs[k] !in xs[..k] && xs[k] !in xs[k + 1..];
  }

  lemma RankedTop(pool: seq<Quote>, score: Quote -> real, limit: int)
    requires DistinctSymbols(pool)
    ensures IsTop(pool, score, limit, Top(Ranked(pool, score), limit))
  {
    hide Outranks, Ranked, InOrder;
    var ranked := Ranked(pool, score);
    RankedInOrder(pool, score);
    DistinctByMultiset(pool, ranked);
    assert |multiset(pool)| == |multiset(ranked)|;
    assert forall q :: q in ranked <==> q in multiset(ranked);
    assert forall q :: q in pool <==> q in multiset(pool);
    CutInOrder(pool, score, ranked, Kept(|ranked|, limit));
  }

  lemma CutInOrder(pool: seq<Quote>, score: Quote -> real, ranked: seq<Quote>, k: nat)
    requires InOrder(pool, score, ranked) && DistinctSymbols(ranked) && k <= |ranked|
    ensures var out := ranked[..k];
            && InOrder(pool, score, out) && DistinctSymbols(out) && (forall q :: q in out ==> q in ranked)
            && forall a, b :: a in out && b in ranked && b !in out ==> Outranks(pool, score, a, b)
  {
    hide Outranks;
    var out := ranked[..k];
    assert forall x :: 0 <= x < k ==> ranked[x] == out[x] && out[x] in out;
    forall a, b | a in out && b in ranked && b !in out
      ensures Outranks(pool, score, a, b)
    {
      var i :| 0 <= i < |out| && out[i] == a;
      var j :| 0 <= j < |ranked| && ranked[j] == b;
      assert ranked[i] == a;
    }
  }

  // ----- The computation -----

  function Select(xs: seq<Quote>, keep: Quote -> bool): seq<Quote> {
    if xs == [] then []
    else Select(xs[..|xs| - 1], keep) + if keep(xs[|xs| - 1]) then [xs[|xs| - 1]] else []
  }

  lemma {:induction false} Selected(xs: seq<Quote>, keep: Quote -> bool)
    ensures forall q :: q in Select(xs, keep) <==> q in xs && keep(q)
    ensures DistinctSymbols(xs) ==> DistinctSymbols(Select(xs, keep))
  {
    if xs != [] {
      var init, last := xs[..|xs| - 1], xs[|xs| - 1];
      Selected(init, keep);
      assert xs == init + [last];
      assert forall i :: 0 <= i < |Select(init, keep)| ==> Select(init, keep)[i] in Select(init, keep);
    }
  }

  predicate Gains(q: Quote) {
    Change(q) >= 0.0
  }

  predicate Loses(q: Quote) {
    Change(q) < 0.0
  }

  /** The change that counts is the percentage, unless it is missing or zero and there is
      another figure. */
  ghost predicate Moved(q: Quote, x: real) {
    if q.changePct.Some? && q.changePct.value != 0.0 then x == q.changePct.value
    else if q.changeFallback.Some? then x == q.changeFallback.value
    else x == 0.0
  }

  ghost predicate Traded(q: Quote, x: real) {
    if q.volume.Some? then x == q.volume.value else x == 0.0
  }

  /** Gainers do not fall and come in descending order of change, losers fall and come in
      ascending order, leaders in descending order of volume; all are cached under a key
      without a colon at a positive price. */
  ghost predicate PlainlyRight(cache: seq<(string, Quote)>, gainers: seq<Quote>, losers: seq<Quote>, leaders: seq<Quote>) {
    && (forall q, x :: q in gainers && Moved(q, x) ==> x >= 0.0)
    && (forall q, x :: q in losers && Moved(q, x) ==> x < 0.0)
    && (forall i, j, x, y :: 0 <= i < j < |gainers| && Moved(gainers[i], x) && Moved(gainers[j], y) ==> x >= y)
    && (forall i, j, x, y :: 0 <= i < j < |losers| && Moved(losers[i], x) && Moved(losers[j], y) ==> x <= y)
    && (forall i, j, x, y :: 0 <= i < j < |leaders| && Traded(leaders[i], x) && Traded(leaders[j], y) ==> x >= y)
    && forall q :: q in gainers || q in losers || q in leaders ==> FromCache(cache, q)
  }

  ghost predicate FromCache(cache: seq<(string, Quote)>, q: Quote) {
    exists i :: 0 <= i < |cache| && cache[i].1 == q && ':' !in cache[i].0 && q.lastPrice.Some? && q.lastPrice.value > 0.0
  }

  /** With room for everything, nothing is left out: every listed symbol leads somewhere, and
      every leader is a gainer or a loser by its change. */
  ghost predicate NothingMissing(cache: seq<(string, Quote)>, gainers: seq<Quote>, losers: seq<Quote>, leaders: seq<Quote>) {
    && (forall q :: FromCache(cache, q) ==> exists l :: l in leaders && l.symbol == q.symbol)
    && (forall q, x :: q in leaders && Moved(q, x) ==> (q in gainers <==> x >= 0.0) && (q in losers <==> x < 0.0))
  }

  lemma {:induction false} ListingsFit(cache: seq<(string, Quote)>)
    ensures |Deduped(Listings(cache))| <= |Listings(cache)| <= |cache|
  {
    DedupedFit(Listings(cache));
    if cache != [] {
      ListingsFit(cache[..|cache| - 1]);
    }
  }

  lemma {:induction false} DedupedFit(xs: seq<Quote>)
    ensures |Deduped(xs)| <= |xs|
  {
    if xs != [] {
      DedupedFit(xs[..|xs| - 1]);
    }
  }

  lemma {:induction false} SelectFits(xs: seq<Quote>, keep: Quote -> bool)
    ensures |Select(xs, keep)| <= |xs|
  {
    if xs != [] {
      SelectFits(xs[..|xs| - 1], keep);
    }
  }

  function Members(xs: seq<Quote>): set<Quote> {
    set q | q in xs
  }

  lemma {:induction false} MembersCounted(xs: seq<Quote>)
    ensures |Members(xs)| <= |xs| && (DistinctSymbols(xs) ==> |Members(xs)| == |xs|)
  {
    if xs != [] {
      var init, last := xs[..|xs| - 1], xs[|xs| - 1];
      assert xs == init + [last];
      assert Members(xs) == Members(init) + {last};
      MembersCounted(init);
    }
  }

  /** A top list with room for the whole pool holds the whole pool. */
  lemma TopComplete(pool: seq<Quote>, score: Quote -> real, limit: int, out: seq<Quote>)
    requires IsTop(pool, score, limit, out) && limit >= |pool|
    ensures forall q :: q in out <==> q in pool
  {
    hide InOrder, Outranks;
    MembersCounted(out);
    MembersCounted(pool);
    assert Members(out) <= Members(pool);
    Subset(Members(out), Members(pool));
    assert forall q :: q in pool <==> q in Members(pool);
    assert forall q :: q in out <==> q in Members(out);
  }

  lemma Subset(a: set<Quote>, b: set<Quote>)
    requires a <= b && |a| >= |b|
    ensures a == b
  {
    if x :| x in b && x !in a {
      assert a <= b - {x};
      SmallerSubset(a, b - {x});
    }
  }

  lemma {:induction false} SmallerSubset(a: set<Quote>, b: set<Quote>)
    requires a <= b
    ensures |a| <= |b|
  {
    if a != {} {
      var x :| x in a;
      SmallerSubset(a - {x}, b - {x});
    }
  }

  lemma {:induction false} TopsComplete(cache: seq<(string, Quote)>, limit: int, gainers: seq<Quote>, losers: seq<Quote>, leaders: seq<Quote>)
    requires limit >= |cache|
    requires var pool := Deduped(Listings(cache));
             && IsTop(Select(pool, Gains), Change, limit, gainers)
             && IsTop(Select(pool, Loses), Drop, limit, losers)
             && IsTop(pool, Volume, limit, leaders)
    ensures NothingMissing(cache, gainers, losers, leaders)
  {
    hide IsTop, Deduped, Listings, Listed, Change, Drop, Volume, Moved, Traded;
    var pool := Deduped(Listings(cache));
    ListingsFit(cache);
    SelectFits(pool, Gains);
    SelectFits(pool, Loses);
    TopComplete(Select(pool, Gains), Change, limit, gainers);
    TopComplete(Select(pool, Loses), Drop, limit, losers);
    TopComplete(pool, Volume, limit, leaders);
    ScoresPlain();
    Selected(pool, Gains);
    Selected(pool, Loses);
    DedupedSymbols(Listings(cache));
    forall q | FromCache(cache, q)
      ensures exists l :: l in leaders && l.symbol == q.symbol
    {
      ListingsMeaning(cache, q);
      assert q.symbol in SymbolsOf(Listings(cache));
      var l :| l in pool && l.symbol == q.symbol;
    }
  }

  lemma TopPlain(pool: seq<Quote>, score: Quote -> real, limit: int, out: seq<Quote>)
    requires IsTop(pool, score, limit, out)
    ensures forall i, j :: 0 <= i < j < |out| ==> score(out[i]) >= score(out[j])
    ensures forall q :: q in out ==> q in pool
  {
    forall i, j | 0 <= i < j < |out|
      ensures score(out[i]) >= score(out[j])
    {
      assert Outranks(pool, score, out[i], out[j]);
    }
  }

  lemma ScoresPlain()
    ensures forall q, x :: Moved(q, x) <==> Change(q) == x
    ensures forall q :: Drop(q) == -Change(q)
    ensures forall q, x :: Traded(q, x) <==> Volume(q) == x
  {
  }

  lemma {:induction false} TopsPlain(cache: seq<(string, Quote)>, limit: int, gainers: seq<Quote>, losers: seq<Quote>, leaders: seq<Quote>)
    requires var pool := Deduped(Listings(cache));
             && IsTop(Select(pool, Gains), Change, limit, gainers)
             && IsTop(Select(pool, Loses), Drop, limit, losers)
             && IsTop(pool, Volume, limit, leaders)
    ensures PlainlyRight(cache, gainers, losers, leaders)
  {
    hide IsTop, Deduped, Listings, Listed, Change, Drop, Volume, Moved, Traded;
    var pool := Deduped(Listings(cache));
    TopPlain(Select(pool, Gains), Change, limit, gainers);
    TopPlain(Select(pool, Loses), Drop, limit, losers);
    TopPlain(pool, Volume, limit, leaders);
    ScoresPlain();
    Selected(pool, Gains);
    Selected(pool, Loses);
    forall q | q in pool
      ensures FromCache(cache, q)
    {
      DedupedAreFirsts(Listings(cache), q);
      ListingsMeaning(cache, q);
    }
  }

  /** The three lists are the true tops of the rising, the falling and all deduplicated quotes. */
  method ComputeTopMovers(cache: seq<(string, Quote)>, limit: int)
    returns (gainers: seq<Quote>, losers: seq<Quote>, leaders: seq<Quote>)
    ensures var pool := Deduped(Listings(cache));
            && DistinctSymbols(pool)
            && IsTop(Select(pool, Gains), Change, limit, gainers)
            && IsTop(Select(pool, Loses), Drop, limit, losers)
            && IsTop(pool, Volume, limit, leaders)
    ensures PlainlyRight(cache, gainers, losers, leaders)
    ensures limit >= |cache| ==> NothingMissing(cache, gainers, losers, leaders)
  {
    hide PlainlyRight, NothingMissing, IsTop, Top, Ranked, DistinctSymbols, Listed, Change, Drop, Volume, Gains, Loses;
    var quotes: seq<Quote> := [];
    for i := 0 to |cache|
      invariant quotes == Listings(cache[..i])
    {
      assert cache[..i + 1][..i] == cache[..i];
      if Listed(cache[i].0, cache[i].1) {
        quotes := quotes + [cache[i].1];
      }
    }
    assert cache[..|cache|] == cache;

    var seen: set<string> := {};
    var deduped: seq<Quote> := [];
    for i := 0 to |quotes|
      invariant seen == SymbolsOf(quotes[..i])
      invariant deduped == Deduped(quotes[..i])
    {
      assert quotes[..i + 1][..i] == quotes[..i] && quotes[..i + 1] == quotes[..i] + [quotes[i]];
      SymbolsSnoc(quotes[..i], quotes[i]);
      if quotes[i].symbol !in seen {
        seen := seen + {quotes[i].symbol};
        deduped := deduped + [quotes[i]];
      }
    }
    assert quotes[..|quotes|] == quotes;

    DedupedSymbols(quotes);
    Selected(deduped, Gains);
    Selected(deduped, Loses);
    RankedTop(Select(deduped, Gains), Change, limit);
    RankedTop(Select(deduped, Loses), Drop, limit);
    RankedTop(deduped, Volume, limit);
    gainers := Top(Ranked(Select(deduped, Gains), Change), limit);
    losers := Top(Ranked(Select(deduped, Loses), Drop), limit);
    leaders := Top(Ranked(deduped, Volume), limit);
    TopsPlain(cache, limit, gainers, losers, leaders);
    if limit >= |cache| {
      TopsComplete(cache, limit, gainers, losers, leaders);
    }
  }
}
