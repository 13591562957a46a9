/** Provider choice and its history: the best provider of a priority chain, and what a
    run of routing requests leaves behind. */
module FailoverSpec {
  import opened Text

  datatype Status =
    | Live | Connected | Delayed | MarketClosed | Stale | Connecting | Reauthenticating
    | NotConfigured | Disconnected | AuthFailed | ConfigMissing | Error | Blank
    | Other(name: string)

  const UNUSABLE: nat := 5

  function Tier(s: Status): nat {
    match s
    case Live | Connected => 1
    case Delayed | MarketClosed => 2
    case Stale | Connecting | Reauthenticating => 3
    case Other(_) => 4
    case NotConfigured | Disconnected | AuthFailed | ConfigMissing | Error | Blank => UNUSABLE
  }

  // ----- The choice -----

  const PASSES: nat := 4

  /** What asking for the status of the adapter at a chain position finds, pass by pass; none
      for an adapter that does not exist. Statuses may change between passes. */
  type Poll = (nat, nat) -> Option<Status>

  /** A pass over the chain and a position in it. */
  datatype Spot = Spot(pass: nat, position: nat)

  /** Each pass takes its own tier, the last one whatever is usable. */
  predicate Taken(poll: Poll, at: Spot) {
    var s := poll(at.pass, at.position);
    s.Some? && (Tier(s.value) == at.pass || (at.pass == PASSES && Tier(s.value) < UNUSABLE))
  }

  predicate InChain(n: nat, at: Spot) {
    1 <= at.pass <= PASSES && at.position < n
  }

  /** Earlier pass first; within a pass, earlier in the chain. */
  predicate Before(a: Spot, b: Spot) {
    a.pass < b.pass || (a.pass == b.pass && a.position < b.position)
  }

  /** Of all spots at which a chain of length `n` offers an adapter, the first. */
  ghost predicate IsFirst(poll: Poll, n: nat, at: Spot) {
    && InChain(n, at) && Taken(poll, at)
    && forall b :: InChain(n, b) && Taken(poll, b) && b != at ==> Before(at, b)
  }

  function FoundIn(poll: Poll, n: nat, pass: nat): (k: Option<nat>)
    ensures k.Some? ==> k.value < n && Taken(poll, Spot(pass, k.value))
    ensures forall j :: 0 <= j < (if k.Some? then k.value else n) ==> !Taken(poll, Spot(pass, j))
  {
    if n == 0 then None
    else
      var k := FoundIn(poll, n - 1, pass);
      if k.Some? then k else if Taken(poll, Spot(pass, n - 1)) then Some(n - 1) else None
  }

  function ChoiceFrom(poll: Poll, n: nat, pass: nat): (at: Option<Spot>)
    ensures at.Some? ==> at.value.position < n
    decreases PASSES + 1 - pass
  {
    if pass > PASSES then None
    else
      var k := FoundIn(poll, n, pass);
      if k.Some? then Some(Spot(pass, k.value)) else ChoiceFrom(poll, n, pass + 1)
  }

  function Choice(poll: Poll, n: nat): (at: Option<Spot>)
    ensures at.Some? ==> at.value.position < n
  {
    ChoiceFrom(poll, n, 1)
  }

  lemma {:induction false} ChoiceFromIsFirst(poll: Poll, n: nat, pass: nat)
    requires pass >= 1
    ensures var at := ChoiceFrom(poll, n, pass);
            if at.Some? then
              && InChain(n, at.value) && Taken(poll, at.value)
              && forall b :: InChain(n, b) && Taken(poll, b) && b != at.value && b.pass >= pass ==> Before(at.value, b)
            else forall b :: InChain(n, b) && b.pass >= pass ==> !Taken(poll, b)
    decreases PASSES + 1 - pass
  {
    if pass <= PASSES {
      var k := FoundIn(poll, n, pass);
      ChoiceFromIsFirst(poll, n, pass + 1);
      forall b | InChain(n, b) && Taken(poll, b) && b.pass == pass
        ensures k.Some? && k.value <= b.position
      {
        assert b == Spot(pass, b.position);
      }
    }
  }

  /** The choice is the first spot that offers an adapter, and there is none exactly when no
      pass finds anything anywhere. */
  lemma {:induction false} ChoiceIsFirst(poll: Poll, n: nat)
    ensures forall at :: IsFirst(poll, n, at) <==> Choice(poll, n) == Some(at)
    ensures Choice(poll, n).None? <==> forall at :: InChain(n, at) ==> !Taken(poll, at)
  {
    ChoiceFromIsFirst(poll, n, 1);
    forall at
      ensures IsFirst(poll, n, at) <==> Choice(poll, n) == Some(at)
    {
      if IsFirst(poll, n, at) {
        var c := Choice(poll, n).value;
        assert c != at ==> Before(at, c) && Before(c, at);
      }
    }
  }

  // ----- The choice while statuses do not change -----

  /** The existing adapters and their statuses. */
  type Board = map<string, Status>

  ghost predicate Steady(poll: Poll, board: Board, chain: seq<string>) {
    forall pass: nat, j: nat :: j < |chain| ==> poll(pass, j) == Lookup(board, chain[j])
  }

  function Rank(board: Board, id: string): nat {
    if id in board then Tier(board[id]) else UNUSABLE
  }

  /** Healthier tier first; within a tier, earlier in the chain. */
  predicate Better(board: Board, chain: seq<string>, j: nat, k: nat)
    requires j < |chain| && k < |chain|
  {
    Rank(board, chain[j]) < Rank(board, chain[k]) || (Rank(board, chain[j]) == Rank(board, chain[k]) && j < k)
  }

  ghost predicate IsBest(board: Board, chain: seq<string>, k: nat) {
    && k < |chain|
    && Rank(board, chain[k]) < UNUSABLE
    && forall j :: 0 <= j < |chain| && j != k ==> Better(board, chain, k, j)
  }

  lemma TakenByRank(poll: Poll, board: Board, chain: seq<string>, at: Spot)
    requires Steady(poll, board, chain) && InChain(|chain|, at)
    ensures var r := Rank(board, chain[at.position]);
            1 <= r <= UNUSABLE && (Taken(poll, at) <==> r == at.pass || (at.pass == PASSES && r < UNUSABLE))
  {
  }

  lemma BestIsFirst(poll: Poll, board: Board, chain: seq<string>, k: nat)
    requires Steady(poll, board, chain) && IsBest(board, chain, k)
    ensures IsFirst(poll, |chain|, Spot(Rank(board, chain[k]), k))
  {
    hide Steady, Rank, Taken;
    var n, at := |chain|, Spot(Rank(board, chain[k]), k);
    TakenByRank(poll, board, chain, Spot(PASSES, k));
    TakenByRank(poll, board, chain, at);
    forall b | InChain(n, b) && Taken(poll, b) && b != at
      ensures Before(at, b)
    {
      TakenByRank(poll, board, chain, b);
      assert b.position != k ==> Better(board, chain, k, b.position);
    }
  }

  lemma FirstIsBest(poll: Poll, board: Board, chain: seq<string>, at: Spot)
    requires Steady(poll, board, chain) && IsFirst(poll, |chain|, at)
    ensures IsBest(board, chain, at.position)
  {
    hide Steady, Rank, Taken;
    var n, k := |chain|, at.position;
    TakenByRank(poll, board, chain, at);
    TakenByRank(poll, board, chain, Spot(Rank(board, chain[k]), k));
    forall j | 0 <= j < n && j != k
      ensures Better(board, chain, k, j)
    {
      TakenByRank(poll, board, chain, Spot(PASSES, j));
      if Rank(board, chain[j]) < UNUSABLE {
        TakenByRank(poll, board, chain, Spot(Rank(board, chain[j]), j));
      }
    }
  }

  /** While statuses do not change, the choice is the usable provider least in
      (tier, position), and there is none exactly when every adapter is missing or unusable. */
  lemma {:induction false} SteadyChoice(poll: Poll, board: Board, chain: seq<string>)
    requires Steady(poll, board, chain)
    ensures forall k: nat :: IsBest(board, chain, k) <==>
              Choice(poll, |chain|).Some? && Choice(poll, |chain|).value.position == k
    ensures Choice(poll, |chain|).None? <==> forall j :: 0 <= j < |chain| ==> Rank(board, chain[j]) == UNUSABLE
  {
    hide Choice, Rank, Taken, Steady, IsBest, IsFirst;
    var n, at := |chain|, Choice(poll, |chain|);
    ChoiceIsFirst(poll, n);
    forall k: nat
      ensures IsBest(board, chain, k) <==> at.Some? && at.value.position == k
    {
      if IsBest(board, chain, k) {
        BestIsFirst(poll, board, chain, k);
      }
      if at.Some? && at.value.position == k {
        FirstIsBest(poll, board, chain, at.value);
      }
    }
    forall j | 0 <= j < n
      ensures at.None? ==> Rank(board, chain[j]) == UNUSABLE
    {
      TakenByRank(poll, board, chain, Spot(PASSES, j));
    }
    if at.Some? {
      FirstPasses(poll, n, at.value);
      TakenByRank(poll, board, chain, at.value);
    }
  }

  // ----- The choice by the names of statuses -----

  ghost predicate Offers(board: Board, chain: seq<string>, j: nat, fit: Status -> bool) {
    j < |chain| && chain[j] in board && fit(board[chain[j]])
  }

  ghost predicate FirstOffer(board: Board, chain: seq<string>, k: nat, fit: Status -> bool) {
    Offers(board, chain, k, fit) && forall j: nat :: j < k ==> !Offers(board, chain, j, fit)
  }

  ghost predicate NoOffer(board: Board, chain: seq<string>, fit: Status -> bool) {
    forall j: nat :: !Offers(board, chain, j, fit)
  }

  ghost predicate RankedFrom(board: Board, chain: seq<string>, r: nat) {
    forall j :: 0 <= j < |chain| ==> Rank(board, chain[j]) >= r
  }

  lemma FirstOfRank(board: Board, chain: seq<string>, k: nat, r: nat, fit: Status -> bool)
    requires r < UNUSABLE && (forall s :: fit(s) <==> Tier(s) == r) && RankedFrom(board, chain, r)
    ensures FirstOffer(board, chain, k, fit) <==> IsBest(board, chain, k) && Rank(board, chain[k]) == r
    ensures NoOffer(board, chain, fit) <==> RankedFrom(board, chain, r + 1)
  {
    hide Tier;
    assert forall j: nat :: j < |chain| ==> (Offers(board, chain, j, fit) <==> Rank(board, chain[j]) == r);
    if IsBest(board, chain, k) && Rank(board, chain[k]) == r {
      forall j: nat | j < k
        ensures !Offers(board, chain, j, fit)
      {
        assert Better(board, chain, k, j);
      }
    }
  }

  /** The first live or connected adapter of the chain; if there is none, the first delayed
      one or one whose market is closed; if there is none, the first stale, connecting or
      reauthenticating one; if there is none, the first of any other status that is not one
      of the unusable ones. */
  lemma ChoiceByName(poll: Poll, board: Board, chain: seq<string>, k: nat)
    requires Steady(poll, board, chain)
    ensures var healthy, standby, degraded, other :=
              (s: Status) => s == Live || s == Connected,
              (s: Status) => s == Delayed || s == MarketClosed,
              (s: Status) => s == Stale || s == Connecting || s == Reauthenticating,
              (s: Status) => s !in {Live, Connected, Delayed, MarketClosed, Stale, Connecting, Reauthenticating,
                                    NotConfigured, Disconnected, AuthFailed, ConfigMissing, Error, Blank};
            Choice(poll, |chain|).Some? && Choice(poll, |chain|).value.position == k
            <==> || FirstOffer(board, chain, k, healthy)
                 || (NoOffer(board, chain, healthy) && FirstOffer(board, chain, k, standby))
                 || (NoOffer(board, chain, healthy) && NoOffer(board, chain, standby) && FirstOffer(board, chain, k, degraded))
                 || (NoOffer(board, chain, healthy) && NoOffer(board, chain, standby) && NoOffer(board, chain, degraded)
                     && FirstOffer(board, chain, k, other))
  {
    var healthy, standby, degraded, other :=
      (s: Status) => s == Live || s == Connected,
      (s: Status) => s == Delayed || s == MarketClosed,
      (s: Status) => s == Stale || s == Connecting || s == Reauthenticating,
      (s: Status) => s !in {Live, Connected, Delayed, MarketClosed, Stale, Connecting, Reauthenticating,
                            NotConfigured, Disconnected, AuthFailed, ConfigMissing, Error, Blank};
    TierByName();
    assert RankedFrom(board, chain, 1);
    hide Choice, Steady, Tier, Rank, FirstOffer, IsBest, NoOffer, RankedFrom;
    SteadyChoice(poll, board, chain);
    FirstOfRank(board, chain, k, 1, healthy);
    if NoOffer(board, chain, healthy) {
      FirstOfRank(board, chain, k, 2, standby);
      if NoOffer(board, chain, standby) {
        FirstOfRank(board, chain, k, 3, degraded);
        if NoOffer(board, chain, degraded) {
          FirstOfRank(board, chain, k, 4, other);
        }
      }
    }
    if IsBest(board, chain, k) {
      RankOfBest(board, chain, k);
      BestLeaves(board, chain, k);
    }
  }

  lemma BestLeaves(board: Board, chain: seq<string>, k: nat)
    requires IsBest(board, chain, k)
    ensures forall r: nat :: r > Rank(board, chain[k]) ==> !RankedFrom(board, chain, r)
  {
    hide Rank;
  }

  lemma TierByName()
    ensures forall s :: Tier(s) == 1 <==> s == Live || s == Connected
    ensures forall s :: Tier(s) == 2 <==> s == Delayed || s == MarketClosed
    ensures forall s :: Tier(s) == 3 <==> s == Stale || s == Connecting || s == Reauthenticating
    ensures forall s :: Tier(s) == 4 <==> s !in {Live, Connected, Delayed, MarketClosed, Stale, Connecting, Reauthenticating,
                                                 NotConfigured, Disconnected, AuthFailed, ConfigMissing, Error, Blank}
    ensures forall s :: 1 <= Tier(s) <= UNUSABLE
  {
  }

  /** The best provider's rank, by what ranks occur at all. */
  lemma RankOfBest(board: Board, chain: seq<string>, k: nat)
    requires IsBest(board, chain, k)
    ensures RankedFrom(board, chain, Rank(board, chain[k])) && Rank(board, chain[k]) < UNUSABLE
    ensures 1 <= Rank(board, chain[k])
  {
    hide Tier;
    TierByName();
    forall j | 0 <= j < |chain|
      ensures Rank(board, chain[j]) >= Rank(board, chain[k])
    {
      assert j != k ==> Better(board, chain, k, j);
    }
  }

  lemma FirstPasses(poll: Poll, n: nat, at: Spot)
    requires IsFirst(poll, n, at)
    ensures InChain(n, at) && Taken(poll, at)
  {
  }

  // ----- Runs of requests -----

  datatype Request = Request(symbol: string, chain: seq<string>, poll: Poll)

  datatype Transition = Transition(symbol: string, from: string, to: string)

  const RING: nat := 500

  function Selected(r: Request): (p: Option<string>)
    ensures p.Some? ==> p.value in r.chain
  {
    var at := Choice(r.poll, |r.chain|);
    if at.Some? then Some(r.chain[at.value.position]) else None
  }

  /** Each symbol's active provider: the last one selected for it. */
  function ActiveAfter(h: seq<Request>): map<string, string> {
    if h == [] then map[]
    else
      var before, last := ActiveAfter(h[..|h| - 1]), h[|h| - 1];
      match Selected(last)
      case Some(p) => before[last.symbol := p]
      case None => before
  }

  /** The transition that the last request of a history causes, if any. */
  function Switches(h: seq<Request>): seq<Transition>
    requires h != []
  {
    var active, last := ActiveAfter(h[..|h| - 1]), h[|h| - 1];
    match Selected(last)
    case Some(p) =>
      if last.symbol in active && active[last.symbol] != "" && active[last.symbol] != p
      then [Transition(last.symbol, active[last.symbol], p)] else []
    case None => []
  }

  function Failovers(h: seq<Request>): seq<Transition> {
    if h == [] then [] else Failovers(h[..|h| - 1]) + Switches(h)
  }

  function Selections(h: seq<Request>): seq<string> {
    if h == [] then []
    else Selections(h[..|h| - 1]) + (match Selected(h[|h| - 1]) case Some(p) => [p] case None => [])
  }

  function Bump(hits: map<string, nat>, p: string): map<string, nat> {
    hits[p := (if p in hits then hits[p] else 0) + 1]
  }

  function HitsAfter(h: seq<Request>): map<string, nat> {
    if h == [] then map[]
    else
      var before := HitsAfter(h[..|h| - 1]);
      match Selected(h[|h| - 1]) case Some(p) => Bump(before, p) case None => before
  }

  /** What one more request adds to each record. */
  lemma Routed(h: seq<Request>, r: Request, at: Option<Spot>)
    requires at == Choice(r.poll, |r.chain|)
    ensures at.None? ==>
              && ActiveAfter(h + [r]) == ActiveAfter(h) && HitsAfter(h + [r]) == HitsAfter(h)
              && Failovers(h + [r]) == Failovers(h)
    ensures at.Some? ==>
              var p, prev := r.chain[at.value.position], Lookup(ActiveAfter(h), r.symbol);
              && ActiveAfter(h + [r]) == ActiveAfter(h)[r.symbol := p] && HitsAfter(h + [r]) == Bump(HitsAfter(h), p)
              && Failovers(h + [r]) == if prev.Some? && prev.value != "" && prev.value != p
                                       then Failovers(h) + [Transition(r.symbol, prev.value, p)]
                                       else Failovers(h)
  {
    hide Choice;
    assert (h + [r])[..|h + [r]| - 1] == h;
  }

  // ----- Links between transitions -----

  /** The transitions of one symbol. */
  function Of(ts: seq<Transition>, s: string): seq<Transition> {
    if ts == [] then []
    else Of(ts[..|ts| - 1], s) + (if ts[|ts| - 1].symbol == s then [ts[|ts| - 1]] else [])
  }

  lemma {:induction false} OfConcat(a: seq<Transition>, b: seq<Transition>, s: string)
    ensures Of(a + b, s) == Of(a, s) + Of(b, s)
  {
    if b == [] {
      assert a + b == a;
    } else {
      assert (a + b)[..|a + b| - 1] == a + b[..|b| - 1];
      OfConcat(a, b[..|b| - 1], s);
    }
  }

  /** Every transition of a symbol starts where the previous one ended, moves somewhere
      else, and the last one ended at the active provider. */
  ghost predicate Linked(ts: seq<Transition>, active: Option<string>) {
    && (forall i :: 0 <= i < |ts| ==> ts[i].from != ts[i].to)
    && (forall i :: 0 < i < |ts| ==> ts[i].from == ts[i - 1].to)
    && (ts != [] ==> active == Some(ts[|ts| - 1].to))
  }

  ghost predicate Chained(ts: seq<Transition>, active: map<string, string>) {
    forall s :: Linked(Of(ts, s), Lookup(active, s))
  }

  ghost predicate ProperIds(h: seq<Request>) {
    forall i :: 0 <= i < |h| ==> "" !in h[i].chain
  }

  ghost predicate NoBlanks(active: map<string, string>) {
    forall s :: s in active ==> active[s] != ""
  }

  lemma {:induction false} ActiveProper(h: seq<Request>)
    requires ProperIds(h)
    ensures NoBlanks(ActiveAfter(h))
  {
    if h != [] {
      ActiveProper(h[..|h| - 1]);
      assert "" !in h[|h| - 1].chain;
    }
  }

  /** Over every run, each symbol's transitions form a chain that ends at its active provider. */
  lemma {:induction false} FailoversChained(h: seq<Request>)
    requires ProperIds(h)
    ensures Chained(Failovers(h), ActiveAfter(h))
  {
    if h != [] {
      var init := h[..|h| - 1];
      FailoversChained(init);
      ActiveProper(init);
      forall s
        ensures Linked(Of(Failovers(h), s), Lookup(ActiveAfter(h), s))
      {
        assert Linked(Of(Failovers(init), s), Lookup(ActiveAfter(init), s));
        SwitchLinked(h, s);
      }
    }
  }

  lemma SwitchLinked(h: seq<Request>, s: string)
    requires h != [] && NoBlanks(ActiveAfter(h[..|h| - 1]))
    requires Linked(Of(Failovers(h[..|h| - 1]), s), Lookup(ActiveAfter(h[..|h| - 1]), s))
    ensures Linked(Of(Failovers(h), s), Lookup(ActiveAfter(h), s))
  {
    hide Of, Linked, Selected;
    var init := h[..|h| - 1];
    var ts, active := Of(Failovers(init), s), Lookup(ActiveAfter(init), s);
    OfConcat(Failovers(init), Switches(h), s);
    if Switches(h) != [] {
      var t := Switches(h)[0];
      assert Switches(h) == [t];
      OfOne(t, s);
      if t.symbol == s {
        LinkedStep(ts, t);
      }
    } else {
      OfNone(s);
    }
    assert ts + [] == ts;
    LinkedNone(ts);
  }

  lemma OfNone(s: string)
    ensures Of([], s) == []
  {
  }

  lemma LinkedStep(ts: seq<Transition>, t: Transition)
    requires Linked(ts, Some(t.from)) && t.from != t.to
    ensures Linked(ts + [t], Some(t.to))
  {
  }

  lemma LinkedNone(ts: seq<Transition>)
    ensures Linked(ts, None) ==> ts == []
    ensures ts == [] ==> forall a :: Linked(ts, a)
  {
  }

  lemma OfOne(t: Transition, s: string)
    ensures Of([t], s) == if t.symbol == s then [t] else []
  {
    assert [t][..0] == [];
  }

  lemma ChainedSuffix(ts: seq<Transition>, active: map<string, string>, n: nat)
    requires Chained(ts, active)
    ensures Chained(Newest(ts, n), active)
  {
    if |ts| > n {
      var a, b := ts[..|ts| - n], ts[|ts| - n..];
      assert ts == a + b;
      forall s
        ensures Linked(Of(b, s), Lookup(active, s))
      {
        OfConcat(a, b, s);
        assert Linked(Of(a, s) + Of(b, s), Lookup(active, s));
        LinkedSuffix(Of(a, s), Of(b, s), Lookup(active, s));
      }
    }
  }

  lemma LinkedSuffix(a: seq<Transition>, b: seq<Transition>, active: Option<string>)
    requires Linked(a + b, active)
    ensures Linked(b, active)
  {
    forall i | 0 <= i < |b|
      ensures b[i].from != b[i].to
      ensures i > 0 ==> b[i].from == b[i - 1].to
    {
      var c := a + b;
      assert c[|a| + i] == b[i] && (i > 0 ==> c[|a| + i - 1] == b[i - 1]);
      assert c[|a| + i].from != c[|a| + i].to;
    }
  }

  /** ... and so do the transitions still held by the ring. */
  lemma RetainedChained(h: seq<Request>)
    requires ProperIds(h)
    ensures Chained(Newest(Failovers(h), RING), ActiveAfter(h))
  {
    FailoversChained(h);
    ChainedSuffix(Failovers(h), ActiveAfter(h), RING);
  }

  // ----- When a failover is logged -----

  /** The last request of a run that selected a provider for `symbol`, if any. */
  function LastFor(h: seq<Request>, symbol: string): Option<Request> {
    if h == [] then None
    else if h[|h| - 1].symbol == symbol && Selected(h[|h| - 1]).Some? then Some(h[|h| - 1])
    else LastFor(h[..|h| - 1], symbol)
  }

  lemma {:induction false} ActiveIsLastSelected(h: seq<Request>, symbol: string)
    ensures Lookup(ActiveAfter(h), symbol) == match LastFor(h, symbol) case Some(r) => Selected(r) case None => None
  {
    if h != [] {
      ActiveIsLastSelected(h[..|h| - 1], symbol);
    }
  }

  /** A failover moves forward: wherever the chain holds the previous provider, every pass
      of the request that logged it could have taken it there only later than the new one. */
  lemma FailoverImproves(h: seq<Request>, b: Spot)
    requires h != [] && Switches(h) != []
    ensures var r, t := h[|h| - 1], Switches(h)[0];
            var at := Choice(r.poll, |r.chain|);
            && at.Some? && r.chain[at.value.position] == t.to
            && (InChain(|r.chain|, b) && r.chain[b.position] == t.from && Taken(r.poll, b) ==> Before(at.value, b))
    ensures var r, before := h[|h| - 1], LastFor(h[..|h| - 1], h[|h| - 1].symbol);
            before.Some? && (before.value.chain == r.chain ==> Switches(h)[0].from in r.chain)
  {
    hide Taken, Choice;
    var r := h[|h| - 1];
    ChoiceIsFirst(r.poll, |r.chain|);
    ActiveIsLastSelected(h[..|h| - 1], r.symbol);
  }

  /** ... so while statuses do not change it moves to a strictly better provider. */
  lemma SteadyFailoverImproves(h: seq<Request>, board: Board, j: nat)
    requires h != [] && Switches(h) != [] && Steady(h[|h| - 1].poll, board, h[|h| - 1].chain)
    requires j < |h[|h| - 1].chain| && h[|h| - 1].chain[j] == Switches(h)[0].from
    ensures var r := h[|h| - 1];
            exists k: nat :: k < |r.chain| && r.chain[k] == Switches(h)[0].to && Better(board, r.chain, k, j)
  {
    hide Choice, Rank, Better, Steady;
    var r := h[|h| - 1];
    SteadyChoice(r.poll, board, r.chain);
    var k := Choice(r.poll, |r.chain|).value.position;
    assert IsBest(board, r.chain, k);
    assert Better(board, r.chain, k, j);
  }

  /** The two requests find the same statuses. */
  ghost predicate SameFindings(p: Poll, q: Poll, n: nat) {
    forall at :: InChain(n, at) ==> p(at.pass, at.position) == q(at.pass, at.position)
  }

  lemma SameChoice(p: Poll, q: Poll, n: nat)
    requires SameFindings(p, q, n)
    ensures Choice(p, n) == Choice(q, n)
  {
    hide Choice;
    ChoiceIsFirst(p, n);
    ChoiceIsFirst(q, n);
    assert forall at :: InChain(n, at) ==> (Taken(p, at) <==> Taken(q, at));
    assert forall at :: IsFirst(p, n, at) <==> IsFirst(q, n, at);
  }

  /** A request that finds the chain and the statuses of the symbol's last successful
      request unchanged logs nothing. */
  lemma {:induction false} UnchangedStatusesNeverSwitch(h: seq<Request>, r: Request)
    requires LastFor(h, r.symbol).Some?
    requires var last := LastFor(h, r.symbol).value; last.chain == r.chain && SameFindings(last.poll, r.poll, |r.chain|)
    ensures Switches(h + [r]) == []
  {
    hide Choice, SameFindings;
    assert (h + [r])[..|h|] == h;
    ActiveIsLastSelected(h, r.symbol);
    SameChoice(LastFor(h, r.symbol).value.poll, r.poll, |r.chain|);
  }

  // ----- Counters -----

  ghost function Sum(hits: map<string, nat>): nat
    decreases |hits|
  {
    if hits == map[] then 0
    else
      var p :| p in hits;
      hits[p] + Sum(hits - {p})
  }

  /** The sum does not depend on which key is taken first. */
  lemma {:induction false} SumSplit(hits: map<string, nat>, p: string)
    requires p in hits
    ensures Sum(hits) == hits[p] + Sum(hits - {p})
    decreases |hits|
  {
    var q :| q in hits && Sum(hits) == hits[q] + Sum(hits - {q});
    if q != p {
      SumSplit(hits - {q}, p);
      SumSplit(hits - {p}, q);
      assert hits - {q} - {p} == hits - {p} - {q};
    }
  }

  lemma SumBump(hits: map<string, nat>, p: string)
    ensures Sum(Bump(hits, p)) == Sum(hits) + 1
  {
    SumSplit(Bump(hits, p), p);
    assert Bump(hits, p) - {p} == hits - {p};
    if p in hits {
      SumSplit(hits, p);
    } else {
      assert hits - {p} == hits;
    }
  }

  /** Over every run the hit counts add up to the successful selections, each provider's
      count is the number of times it was selected, and selections never exceed requests. */
  lemma {:induction false} HitsAddUp(h: seq<Request>)
    ensures Sum(HitsAfter(h)) == |Selections(h)| <= |h|
    ensures forall p :: (if p in HitsAfter(h) then HitsAfter(h)[p] else 0) == multiset(Selections(h))[p]
  {
    if h != [] {
      var init := h[..|h| - 1];
      HitsAddUp(init);
      if Selected(h[|h| - 1]).Some? {
        SumBump(HitsAfter(init), Selected(h[|h| - 1]).value);
      }
    }
  }

  /** Failovers are counted among the selections. */
  lemma {:induction false} FailoversCount(h: seq<Request>)
    ensures |Failovers(h)| <= |Selections(h)|
  {
    if h != [] {
      FailoversCount(h[..|h| - 1]);
    }
  }
}
