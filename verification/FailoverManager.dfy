/** The failover manager: four passes over the priority chain, with the active providers,
    the transition ring and the counters updated in place. */
module FailoverManager {
  import opened Text
  import opened FailoverSpec

  /** The test that each of the four passes applies to an adapter's status. */
  predicate Accepts(pass: nat, s: Status) {
    match pass
    case 1 => s.Live? || s.Connected?
    case 2 => s.Delayed? || s.MarketClosed?
    case 3 => s.Stale? || s.Connecting? || s.Reauthenticating?
    case _ => !(s.NotConfigured? || s.Disconnected? || s.AuthFailed? || s.ConfigMissing? || s.Error? || s.Blank?)
  }

  class FailoverManager {
    var activeProvider: map<string, string>
    var transitions: seq<Transition>
    var totalRouteRequests: nat
    var totalFailovers: nat
    var providerHits: map<string, nat>

    /** Every request so far; the fields are functions of it. */
    ghost var history: seq<Request>

    ghost predicate Valid()
      reads this
    {
      && activeProvider == ActiveAfter(history)
      && transitions == Newest(Failovers(history), RING)
      && totalRouteRequests == |history|
      && totalFailovers == |Failovers(history)|
      && providerHits == HitsAfter(history)
    }

    constructor ()
      ensures Valid() && history == []
    {
      activeProvider, transitions, providerHits := map[], [], map[];
      totalRouteRequests, totalFailovers := 0, 0;
      history := [];
    }

    /** One pass: the first position whose adapter exists and has an accepted status. */
    method FirstAccepted(chain: seq<string>, poll: Poll, pass: nat) returns (k: nat)
      ensures k <= |chain|
      ensures k < |chain| ==> poll(pass, k).Some? && Accepts(pass, poll(pass, k).value)
      ensures forall j :: 0 <= j < k ==> !(poll(pass, j).Some? && Accepts(pass, poll(pass, j).value))
    {
      for i := 0 to |chain|
        invariant forall j :: 0 <= j < i ==> !(poll(pass, j).Some? && Accepts(pass, poll(pass, j).value))
      {
        var status := poll(pass, i);
        if status.Some? && Accepts(pass, status.value) {
          return i;
        }
      }
      return |chain|;
    }

    /** The four passes, from healthy to merely configured. */
    method SearchChain(chain: seq<string>, poll: Poll) returns (at: Option<Spot>)
      ensures at.Some? ==> IsFirst(poll, |chain|, at.value)
      ensures at.None? ==> forall b :: InChain(|chain|, b) ==> !Taken(poll, b)
    {
      var pass := 1;
      while pass <= PASSES
        invariant 1 <= pass <= PASSES + 1
        invariant forall b :: InChain(|chain|, b) && b.pass < pass ==> !Taken(poll, b)
      {
        var i := FirstAccepted(chain, poll, pass);
        assert forall b :: InChain(|chain|, b) && b.pass == pass ==>
            (Taken(poll, b) <==> poll(pass, b.position).Some? && Accepts(pass, poll(pass, b.position).value));
        if i < |chain| {
          return Some(Spot(pass, i));
        }
        pass := pass + 1;
      }
      return None;
    }

    /** Routes a symbol: the provider returned is the first the passes find, and the request is on record. */
    method GetBestProvider(symbol: string, chain: seq<string>, poll: Poll) returns (provider: Option<string>)
      requires Valid()
      modifies this
      ensures Valid()
      ensures history == old(history) + [Request(symbol, chain, poll)]
      ensures provider.None? ==> forall b :: InChain(|chain|, b) ==> !Taken(poll, b)
      ensures provider.Some? ==> exists at :: IsFirst(poll, |chain|, at) && provider.value == chain[at.position]
    {
      hide IsFirst, Taken, Choice, ActiveAfter, HitsAfter, Failovers, Bump, Newest, Pushed;
      ghost var r := Request(symbol, chain, poll);
      totalRouteRequests := totalRouteRequests + 1;
      PushKeepsNewest(Failovers(history));
      history := history + [r];
      RingBounded(transitions, old(history));
      var at := SearchChain(chain, poll);
      ChoiceIsFirst(poll, |chain|);
      Routed(old(history), r, at);
      if at.None? {
        return None;
      }
      FirstPasses(poll, |chain|, at.value);
      provider := Some(chain[at.value.position]);
      RecordSelection(symbol, chain[at.value.position]);
    }

    method RecordSelection(symbol: string, providerId: string)
      requires |transitions| <= RING
      modifies this`activeProvider, this`transitions, this`totalFailovers, this`providerHits
      ensures activeProvider == old(activeProvider)[symbol := providerId]
      ensures providerHits == Bump(old(providerHits), providerId)
      ensures var prev := Lookup(old(activeProvider), symbol);
              if prev.Some? && prev.value != "" && prev.value != providerId
              then totalFailovers == old(totalFailovers) + 1
                   && transitions == Pushed(old(transitions), Transition(symbol, prev.value, providerId))
              else totalFailovers == old(totalFailovers) && transitions == old(transitions)
    {
      var prev := Lookup(activeProvider, symbol);
      if prev.Some? && prev.value != "" && prev.value != providerId {
        totalFailovers := totalFailovers + 1;
        LogTransition(symbol, prev.value, providerId);
      }
      activeProvider := activeProvider[symbol := providerId];
      providerHits := providerHits[providerId := (if providerId in providerHits then providerHits[providerId] else 0) + 1];
    }

    method LogTransition(symbol: string, fromId: string, toId: string)
      requires |transitions| <= RING
      modifies this`transitions
      ensures transitions == Pushed(old(transitions), Transition(symbol, fromId, toId))
      ensures transitions == (if |old(transitions)| < 500 then old(transitions) else old(transitions)[1..])
                             + [Transition(symbol, fromId, toId)]
    {
      transitions := transitions + [Transition(symbol, fromId, toId)];
      if |transitions| > RING {
        transitions := transitions[1..];
      }
    }

    /** The newest transitions up to the limit; a limit of zero means all of them, and a
        negative one that many fewer, as slicing from the end does. */
    method GetTransitions(limit: int) returns (recent: seq<Transition>)
      requires Valid()
      ensures var held := Newest(Failovers(history), RING);
              recent == if limit > 0 then Newest(Failovers(history), if limit < RING then limit else RING)
                        else Newest(held, if |held| + limit > 0 then |held| + limit else 0)
    {
      var n := |transitions|;
      recent := if limit == 0 || limit >= n then transitions
                else if limit > 0 then transitions[n - limit..]
                else if -limit >= n then []
                else transitions[-limit..];
    }
  }

  lemma RingBounded(ring: seq<Transition>, h: seq<Request>)
    ensures ring == Newest(Failovers(h), RING) ==> |ring| <= RING
  {
  }

  function Pushed(ring: seq<Transition>, t: Transition): seq<Transition> {
    Newest(ring + [t], RING)
  }

  /** A ring that drops its oldest entry when full holds the newest entries of the whole log. */
  lemma PushKeepsNewest(log: seq<Transition>)
    ensures forall t :: Pushed(Newest(log, RING), t) == Newest(log + [t], RING)
  {
  }
}
