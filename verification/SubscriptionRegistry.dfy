/** The registry itself: two nested dictionaries updated in place, callbacks fired as
    they change, and debounce timers. Every method refines one step of SubscriptionSpec. */
module SubscriptionRegistry {
  import opened Text
  import opened SubscriptionSpec
  import opened OperationMeaning

  datatype Entry = Entry(reason: string, source: string, mode: Mode)

  type Entries = map<string, Entry>
  type Subscriptions = map<string, Entries>

  // ----- The abstraction: from nested dictionaries to the flat relation -----

  ghost predicate KeyedEntries(d: Entries) {
    forall k :: k in d ==> ColonFree(d[k].reason) && k == MakeKey(d[k].reason, d[k].source)
  }

  ghost predicate WellKeyed(subs: Subscriptions) {
    forall s :: s in subs ==> KeyedEntries(subs[s])
  }

  ghost predicate Holds(subs: Subscriptions, u: Sub) {
    && u.symbol in subs
    && Key(u) in subs[u.symbol]
    && subs[u.symbol][Key(u)].reason == u.reason
    && subs[u.symbol][Key(u)].source == u.source
  }

  ghost function Subs(subs: Subscriptions): set<Sub> {
    set s, k | s in subs && k in subs[s] :: Sub(s, subs[s][k].reason, subs[s][k].source)
  }

  lemma SubsHold(subs: Subscriptions)
    requires WellKeyed(subs)
    ensures forall u :: u in Subs(subs) <==> Holds(subs, u)
  {
  }

  ghost function Flatten(subs: Subscriptions): Flat
    requires WellKeyed(subs)
  {
    SubsHold(subs);
    map u | u in Subs(subs) :: subs[u.symbol][Key(u)].mode
  }

  function EntryModes(d: Entries): set<Mode> {
    set k | k in d :: d[k].mode
  }

  lemma FlattenModes(subs: Subscriptions, s: string)
    requires WellKeyed(subs)
    ensures ModesOf(Flatten(subs), s) == if s in subs then EntryModes(subs[s]) else {}
  {
    var flat := Flatten(subs);
    SubsHold(subs);
    if s in subs {
      forall k | k in subs[s]
        ensures subs[s][k].mode in ModesOf(flat, s)
      {
        var u := Sub(s, subs[s][k].reason, subs[s][k].source);
        assert Holds(subs, u) && flat[u] == subs[s][k].mode;
      }
    }
  }

  /** The two dictionaries agree: same symbols, no empty entry set, highest modes. */
  ghost predicate Settled(subs: Subscriptions, active: map<string, Mode>) {
    && active.Keys == subs.Keys
    && forall s :: s in subs ==> SettledEntries(subs[s], active[s])
  }

  ghost predicate SettledEntries(d: Entries, m: Mode) {
    d != map[] && KeyedEntries(d) && m == Highest(EntryModes(d))
  }

  lemma SettledKeyed(subs: Subscriptions, active: map<string, Mode>)
    requires Settled(subs, active)
    ensures WellKeyed(subs) && active.Keys == subs.Keys
  {
    hide KeyedEntries, EntryModes, Highest;
    forall s | s in subs
      ensures SettledEntries(subs[s], active[s])
    {
    }
  }

  /** Both dictionaries are functions of the flat relation. */
  lemma {:induction false} ActiveOfFlatten(subs: Subscriptions, active: map<string, Mode>)
    requires Settled(subs, active)
    ensures Symbols(Flatten(subs)) == subs.Keys
    ensures active == Active(Flatten(subs))
  {
    hide Flatten, ModesOf, EntryModes, Highest, MakeKey, ColonFree;
    FlattenSymbols(subs);
    forall s | s in subs
      ensures SettledEntries(subs[s], active[s])
      ensures active[s] == Active(Flatten(subs))[s]
    {
      FlattenModes(subs, s);
    }
  }

  lemma FlattenSymbols(subs: Subscriptions)
    requires WellKeyed(subs) && forall s :: s in subs ==> subs[s] != map[]
    ensures Symbols(Flatten(subs)) == subs.Keys
  {
    hide MakeKey, ColonFree;
    SubsHold(subs);
    forall s | s in subs
      ensures s in Symbols(Flatten(subs))
    {
      var k :| k in subs[s];
      assert Sub(s, subs[s][k].reason, subs[s][k].source) in Flatten(subs);
    }
  }

  function Filed(subs: Subscriptions, symbol: string, e: Entry): Subscriptions {
    var d := if symbol in subs then subs[symbol] else map[];
    subs[symbol := d[MakeKey(e.reason, e.source) := e]]
  }

  lemma FiledHolds(subs: Subscriptions, symbol: string, e: Entry, u: Sub)
    requires WellKeyed(subs) && ColonFree(e.reason) && ColonFree(u.reason)
    ensures Holds(Filed(subs, symbol, e), u) <==> Holds(subs, u) || u == Sub(symbol, e.reason, e.source)
  {
    if u.symbol == symbol && Key(u) == MakeKey(e.reason, e.source) {
      MakeKeyInjective(u.reason, u.source, e.reason, e.source);
    }
  }

  lemma FiledWellKeyed(subs: Subscriptions, symbol: string, e: Entry)
    requires WellKeyed(subs) && ColonFree(e.reason)
    ensures WellKeyed(Filed(subs, symbol, e))
  {
    var after: Subscriptions := Filed(subs, symbol, e);
    forall s | s in after
      ensures KeyedEntries(after[s])
    {
      if s == symbol {
        assert symbol in subs ==> KeyedEntries(subs[symbol]);
      }
    }
  }

  /** What filing an entry does to one triple. */
  lemma FiledAt(subs: Subscriptions, symbol: string, e: Entry, u: Sub)
    requires WellKeyed(subs) && ColonFree(e.reason) && WellKeyed(Filed(subs, symbol, e))
    ensures var left, right := Flatten(Filed(subs, symbol, e)), Flatten(subs)[Sub(symbol, e.reason, e.source) := e.mode];
            (u in left <==> u in right) && (u in left ==> left[u] == right[u])
  {
    hide ColonFree;
    var after := Filed(subs, symbol, e);
    SubsHold(subs);
    SubsHold(after);
    if Holds(after, u) || Holds(subs, u) || u == Sub(symbol, e.reason, e.source) {
      FiledHolds(subs, symbol, e, u);
      if u.symbol == symbol && Key(u) == MakeKey(e.reason, e.source) {
        MakeKeyInjective(u.reason, u.source, e.reason, e.source);
      }
    }
  }

  /** Filing an entry is an insertion into the flat relation. */
  lemma {:induction false} FlattenInsert(subs: Subscriptions, symbol: string, e: Entry)
    requires WellKeyed(subs) && ColonFree(e.reason)
    ensures WellKeyed(Filed(subs, symbol, e))
    ensures Flatten(Filed(subs, symbol, e)) == Flatten(subs)[Sub(symbol, e.reason, e.source) := e.mode]
  {
    hide Flatten, ColonFree;
    FiledWellKeyed(subs, symbol, e);
    var left, right := Flatten(Filed(subs, symbol, e)), Flatten(subs)[Sub(symbol, e.reason, e.source) := e.mode];
    forall u
      ensures u in left <==> u in right
      ensures u in left ==> left[u] == right[u]
    {
      FiledAt(subs, symbol, e, u);
    }
    assert left == right;
  }

  lemma FiledSettled(subs: Subscriptions, active: map<string, Mode>, symbol: string, e: Entry)
    requires Settled(subs, active) && ColonFree(e.reason)
    ensures var after := Filed(subs, symbol, e);
            Settled(after, active[symbol := Highest(EntryModes(after[symbol]))])
  {
    hide MakeKey, ColonFree, Highest, KeyedEntries, EntryModes;
    SettledKeyed(subs, active);
    FiledWellKeyed(subs, symbol, e);
    var after: Subscriptions := Filed(subs, symbol, e);
    var modes := active[symbol := Highest(EntryModes(after[symbol]))];
    assert MakeKey(e.reason, e.source) in after[symbol];
    forall s | s in after
      ensures SettledEntries(after[s], modes[s])
    {
      if s != symbol {
        assert after[s] == subs[s] && SettledEntries(subs[s], active[s]);
      }
    }
  }

  /** The entries left in a symbol's dictionary once those satisfying `gone` are popped. */
  function Rest(d: Entries, gone: Entry -> bool): Entries {
    map k | k in d && !gone(d[k]) :: d[k]
  }

  /** `after` is `before` with entries popped and emptied symbols deleted. */
  ghost predicate Pruned(before: Subscriptions, after: Subscriptions, at: set<string>, gone: Entry -> bool) {
    && after.Keys <= before.Keys
    && forall s :: s in before ==>
         (if s in after then after[s] else map[]) == (if s in at then Rest(before[s], gone) else before[s])
  }

  /** Pruning the dictionaries removes the corresponding set from the flat relation. */
  lemma FlattenPruned(before: Subscriptions, after: Subscriptions, at: set<string>, gone: Entry -> bool, dead: set<Sub>)
    requires WellKeyed(before) && Pruned(before, after, at, gone)
    requires forall u :: u in Flatten(before) ==>
               (u in dead <==> u.symbol in at && gone(Entry(u.reason, u.source, Flatten(before)[u])))
    ensures WellKeyed(after) && Flatten(after) == Without(Flatten(before), dead)
  {
    hide MakeKey, ColonFree;
    SubsHold(before);
    assert before.Keys >= after.Keys;
    forall s | s in after
      ensures KeyedEntries(after[s])
    {
      assert KeyedEntries(before[s]);
    }
    SubsHold(after);
    var left, right := Flatten(after), Without(Flatten(before), dead);
    forall u
      ensures u in left <==> u in right
      ensures u in left ==> left[u] == right[u]
    {
      if Holds(before, u) {
        var e := before[u.symbol][Key(u)];
        assert u in Flatten(before) && e == Entry(u.reason, u.source, Flatten(before)[u]);
        assert Key(u) in Rest(before[u.symbol], gone) <==> !gone(e);
      }
    }
    assert left == right;
  }

  lemma ReplacedSettled(subs: Subscriptions, active: map<string, Mode>, s: string, d: Entries)
    requires Settled(subs, active) && KeyedEntries(d)
    ensures d != map[] ==> Settled(subs[s := d], active[s := Highest(EntryModes(d))])
    ensures Settled(subs - {s}, active - {s})
  {
    hide KeyedEntries, EntryModes, Highest;
  }

  lemma ReplacedPruned(subs: Subscriptions, s: string, d: Entries, gone: Entry -> bool)
    requires s in subs && d == Rest(subs[s], gone)
    ensures Pruned(subs, if d == map[] then subs - {s} else subs[s := d], {s}, gone)
    ensures WellKeyed(subs) ==> KeyedEntries(d)
  {
    hide MakeKey, ColonFree;
  }

  /** An entry is filed under a key exactly when the flat relation holds a triple with that key. */
  lemma ExactEntry(subs: Subscriptions, s: string, key: string)
    requires WellKeyed(subs)
    ensures FiledUnder(Flatten(subs), s, key) != {} <==> s in subs && key in subs[s]
  {
    SubsHold(subs);
    if s in subs && key in subs[s] {
      assert KeyedEntries(subs[s]);
      var u := Sub(s, subs[s][key].reason, subs[s][key].source);
      assert Holds(subs, u);
      assert u in FiledUnder(Flatten(subs), s, key);
    }
  }

  /** The unsubscribe rule on a symbol's own dictionary agrees with the rule on the flat relation. */
  ghost function UnsubscribedEntries(subs: Subscriptions, s: string, reason: string, source: string): (gone: Entry -> bool)
    requires WellKeyed(subs) && s in subs
    ensures forall u :: u in Flatten(subs) ==>
              (u in Unsubscribed(Flatten(subs), s, reason, source) <==>
               u.symbol in {s} && gone(Entry(u.reason, u.source, Flatten(subs)[u])))
    ensures MakeKey(reason, source) in subs[s] ==> Rest(subs[s], gone) == subs[s] - {MakeKey(reason, source)}
    ensures MakeKey(reason, source) !in subs[s] ==>
              forall e :: gone(e) <==> e.reason == reason && (source == "" || e.source == source)
  {
    var key := MakeKey(reason, source);
    ExactEntry(subs, s, key);
    assert KeyedEntries(subs[s]);
    if key in subs[s] then (e: Entry) => MakeKey(e.reason, e.source) == key
    else (e: Entry) => e.reason == reason && (source == "" || e.source == source)
  }

  lemma NothingToUnsubscribe(subs: Subscriptions, s: string, reason: string, source: string)
    requires WellKeyed(subs) && s !in subs
    ensures Without(Flatten(subs), Unsubscribed(Flatten(subs), s, reason, source)) == Flatten(subs)
  {
    SubsHold(subs);
    assert Unsubscribed(Flatten(subs), s, reason, source) == {};
  }

  /** The state of a symbol's dictionary and mode after a sweep has visited it; an
      emptied symbol keeps its stale mode until it is deleted. */
  ghost predicate SweptAt(d: Entries, m: Mode, d': Entries, m': Mode, gone: Entry -> bool) {
    && d' == Rest(d, gone)
    && m' == if d' == map[] then m else Highest(EntryModes(d'))
  }

  ghost predicate Swept(subs: Subscriptions, active: map<string, Mode>,
                        subs': Subscriptions, active': map<string, Mode>, todo: set<string>, gone: Entry -> bool)
  {
    && subs.Keys == active.Keys == subs'.Keys == active'.Keys
    && (forall s :: s in subs && s in todo ==> subs'[s] == subs[s] && active'[s] == active[s])
    && forall s :: s in subs && s !in todo ==> SweptAt(subs[s], active[s], subs'[s], active'[s], gone)
  }

  /** The symbols already visited that kept some entry. */
  function Survivors(subs: Subscriptions, todo: set<string>): set<string> {
    set s | s in subs && s !in todo && subs[s] != map[]
  }

  ghost predicate Emptied(emptied: seq<string>, subs: Subscriptions, todo: set<string>) {
    forall s :: s in emptied <==> s in subs && s !in todo && subs[s] == map[]
  }

  lemma SweepStarts(subs: Subscriptions)
    ensures Survivors(subs, subs.Keys) == {} && Emptied([], subs, subs.Keys)
  {
  }

  lemma SweepVisits(subs: Subscriptions, d: Entries, todo: set<string>, s: string, emptied: seq<string>)
    requires s in todo && s in subs && Emptied(emptied, subs, todo) && Distinct(emptied)
    ensures var rest := todo - {s};
            if d != map[]
            then Survivors(subs[s := d], rest) == Survivors(subs, todo) + {s} && Emptied(emptied, subs[s := d], rest)
            else Survivors(subs[s := d], rest) == Survivors(subs, todo) && Emptied(emptied + [s], subs[s := d], rest)
                 && Distinct(emptied + [s])
    ensures s !in Survivors(subs, todo)
  {
  }

  lemma SweptStep(subs: Subscriptions, active: map<string, Mode>, mid: Subscriptions, modes: map<string, Mode>,
                  d: Entries, todo: set<string>, s: string, gone: Entry -> bool)
    requires Swept(subs, active, mid, modes, todo, gone) && s in todo && s in subs
    requires d == Rest(subs[s], gone)
    ensures Swept(subs, active, mid[s := d],
                  if d == map[] then modes else modes[s := Highest(EntryModes(d))], todo - {s}, gone)
  {
    hide EntryModes, Highest, Rest;
  }

  /** Deleting the emptied symbols after a complete sweep settles the dictionaries again. */
  lemma SweptSettled(subs: Subscriptions, active: map<string, Mode>,
                     subs': Subscriptions, active': map<string, Mode>, emptied: seq<string>, gone: Entry -> bool)
    requires Settled(subs, active) && Swept(subs, active, subs', active', {}, gone)
    requires Emptied(emptied, subs', {})
    ensures Settled(subs' - ToSet(emptied), active' - ToSet(emptied))
  {
    hide KeyedEntries, Highest, EntryModes, Rest, SettledEntries;
    var kept, modes := subs' - ToSet(emptied), active' - ToSet(emptied);
    forall s | s in kept
      ensures SettledEntries(kept[s], modes[s])
    {
      assert SweptAt(subs[s], active[s], subs'[s], active'[s], gone) && SettledEntries(subs[s], active[s]);
      assert subs'[s] != map[];
      SweptEntries(subs[s], active[s], subs'[s], active'[s], gone);
    }
  }

  lemma SweptEntries(d: Entries, m: Mode, d': Entries, m': Mode, gone: Entry -> bool)
    requires SettledEntries(d, m) && SweptAt(d, m, d', m', gone) && d' != map[]
    ensures SettledEntries(d', m')
  {
    hide KeyedEntries, Highest, EntryModes, Rest;
    RestKeyed(d, gone);
  }

  lemma RestKeyed(d: Entries, gone: Entry -> bool)
    ensures KeyedEntries(d) ==> KeyedEntries(Rest(d, gone))
  {
    hide MakeKey, ColonFree;
  }

  lemma SweptPruned(subs: Subscriptions, active: map<string, Mode>,
                    subs': Subscriptions, active': map<string, Mode>, emptied: seq<string>, gone: Entry -> bool)
    requires Swept(subs, active, subs', active', {}, gone) && Emptied(emptied, subs', {})
    ensures Pruned(subs, subs' - ToSet(emptied), subs.Keys, gone)
    ensures (active' - ToSet(emptied)).Keys == Survivors(subs', {}) == active.Keys - ToSet(emptied)
  {
    hide Rest, Highest, EntryModes;
    forall s | s in subs
      ensures SweptAt(subs[s], active[s], subs'[s], active'[s], gone)
    {
    }
  }

  /** The callbacks of a sweep: one per surviving symbol whose mode changed, then the removals. */
  lemma SweptAnnounces(w: Wiring, removalSeen: bool, switches: seq<Callback>, removals: seq<Callback>, emptied: seq<string>,
                       before: map<string, Mode>, mid: map<string, Mode>, after: map<string, Mode>)
    requires Distinct(emptied) && mid.Keys == before.Keys
    requires forall s :: s in emptied ==> s in before
    requires after == mid - ToSet(emptied)
    requires SaidSwitches(switches, w, after.Keys, before, mid)
    requires SaidRemoved(removals, removalSeen, emptied)
    ensures Announces(switches + removals, w, removalSeen, before, after)
  {
    forall s
      ensures History(switches, s) == SwitchOf(w, after.Keys, before, after, s)
    {
      assert History(switches, s) == SwitchOf(w, after.Keys, before, mid, s);
    }
    SweepAnnounces(switches, removals, w, removalSeen, emptied, before, after);
  }

  /** Announcing the change of the settled dictionaries is saying what the operation does. */
  lemma SettledSays(evs: seq<Callback>, w: Wiring, st: State, op: Op, subs: Subscriptions, active: map<string, Mode>,
                    subs': Subscriptions, active': map<string, Mode>)
    requires Settled(subs, active) && WellKeyed(subs) && Flatten(subs) == st.flat
    requires Settled(subs', active') && WellKeyed(subs') && Flatten(subs') == Step(st, op).flat
    requires Announces(evs, w, RemovalSeen(w, op), active, active')
    ensures Says(evs, w, st, op)
  {
    hide Announces, Settled, WellKeyed, Flatten, Active, Step;
    ActiveOfFlatten(subs, active);
    ActiveOfFlatten(subs', active');
  }

  lemma OnlySwitch(w: Wiring, s: string, before: Mode, after: Mode)
    ensures forall cb :: cb in Notices(w, s, Some(before), Some(after)) ==> cb.ModeChanged?
  {
  }

  // ----- The class -----

  class SubscriptionRegistry {
    const wiring: Wiring

    /** `str.upper` and `str.lower`. */
    const upper: string -> string
    const lower: string -> string

    var subscriptions: Subscriptions
    var activeModes: map<string, Mode>
    var debounceTimers: map<string, nat>

    /** The timer threads: waiting, and past their delay but not yet run. */
    var armed: map<nat, string>
    var expired: map<nat, string>
    var nextTimer: nat

    /** The callbacks fired so far. */
    var log: seq<Callback>

    ghost predicate Valid()
      reads this
    {
      && Settled(subscriptions, activeModes)
      && Tracks(wiring, log, activeModes)
    }

    ghost function Abstract(): State
      requires Valid()
      reads this
    {
      State(Flatten(subscriptions), Timers(debounceTimers, armed, expired, nextTimer))
    }

    constructor (wiring: Wiring, upper: string -> string, lower: string -> string)
      ensures Valid() && this.wiring == wiring && this.upper == upper && this.lower == lower
      ensures Abstract() == INITIAL && log == []
    {
      this.wiring, this.upper, this.lower := wiring, upper, lower;
      subscriptions, activeModes, debounceTimers := map[], map[], map[];
      armed, expired, nextTimer := map[], map[], 0;
      log := [];
      new;
      assert Flatten(subscriptions) == map[];
    }

    /** The aggregated mode of a symbol, visiting its entries in whatever order the dictionary yields them. */
    method CalculateHighestMode(d: Entries) returns (mode: Mode)
      ensures mode == Highest(EntryModes(d))
    {
      var highestPriority := 0;
      mode := Ltpc;
      var rest := d.Keys;
      while rest != {}
        invariant rest <= d.Keys
        invariant highestPriority == 0 ==> rest == d.Keys && mode == Ltpc
        invariant highestPriority > 0 ==> highestPriority == Priority(mode) && mode in EntryModes(d)
        invariant forall k :: k in d && k !in rest ==> Priority(d[k].mode) <= highestPriority
        decreases rest
      {
        var k :| k in rest;
        rest := rest - {k};
        if Priority(d[k].mode) > highestPriority {
          highestPriority := Priority(d[k].mode);
          mode := d[k].mode;
        }
      }
      if d != map[] {
        var k :| k in d;
        assert d[k].mode in EntryModes(d);
      }
    }

    method CancelTimer(source: string)
      modifies this`armed
      ensures armed == if source in debounceTimers then old(armed) - {debounceTimers[source]} else old(armed)
    {
      if source in debounceTimers {
        armed := armed - {debounceTimers[source]};
      }
    }

    method Subscribe(symbol: string, reason: string, source: string, mode: string)
      requires Valid()
      modifies this
      ensures Valid()
      ensures Abstract() == Step(old(Abstract()), SubscriptionSpec.Subscribe(upper(symbol), reason, source, ParseMode(lower(mode))))
      ensures old(log) <= log
      ensures Says(log[|old(log)|..], wiring, old(Abstract()), SubscriptionSpec.Subscribe(upper(symbol), reason, source, ParseMode(lower(mode))))
      ensures ValidReason(reason) ==>
                var flat, made, name := Abstract().flat, Sub(upper(symbol), reason, source), lower(mode);
                && made in flat
                && (flat[made] == Ltpc <==> name == "ltpc") && (flat[made] == OptionGreeks <==> name == "option_greeks")
                && (flat[made] == FullD30 <==> name == "full_d30")
                && (flat[made] == Full <==> name !in {"ltpc", "option_greeks", "full_d30"})
      ensures ValidReason(reason) && upper(symbol) !in old(activeModes) ==>
                Lookup(activeModes, upper(symbol)) == Some(Abstract().flat[Sub(upper(symbol), reason, source)])
    {
      hide ValidReason, Tracks, Announces, Says, Settled, Flatten, ParseMode, MakeKey, ColonFree;
      var sym := upper(symbol);
      if !ValidReason(reason) {
        Silent(wiring.remove);
        Spoken(SubscriptionSpec.Subscribe(upper(symbol), reason, source, ParseMode(lower(mode))));
        return;
      }
      ValidReasonsColonFree(reason);
      if source != "" && source in debounceTimers {
        CancelTimer(source);
        debounceTimers := debounceTimers - {source};
      }
      assert source != "" ==> debounceTimers == old(debounceTimers) - {source};
      File(sym, Entry(reason, source, ParseMode(lower(mode))));
      Noticed(old(activeModes), sym, old(log));
      Spoken(SubscriptionSpec.Subscribe(upper(symbol), reason, source, ParseMode(lower(mode))));
      SubscribeMeaning(old(Abstract()), sym, reason, source, lower(mode));
      ActiveOfFlatten(old(subscriptions), old(activeModes));
      ActiveOfFlatten(subscriptions, activeModes);
    }

    /** Files an entry and settles the symbol's aggregated mode. */
    method File(sym: string, entry: Entry)
      requires Settled(subscriptions, activeModes) && ColonFree(entry.reason)
      modifies this`subscriptions, this`activeModes, this`log
      ensures Settled(subscriptions, activeModes)
      ensures Flatten(subscriptions) == old(Flatten(subscriptions))[Sub(sym, entry.reason, entry.source) := entry.mode]
      ensures sym in activeModes && activeModes == old(activeModes)[sym := activeModes[sym]]
      ensures log == old(log) + Notices(wiring, sym, Lookup(old(activeModes), sym), Lookup(activeModes, sym))
    {
      hide KeyedEntries, MakeKey, ColonFree, Flatten, EntryModes, Highest, Settled, WellKeyed;
      SettledKeyed(subscriptions, activeModes);
      FlattenInsert(subscriptions, sym, entry);
      FiledSettled(subscriptions, activeModes, sym, entry);
      var key := MakeKey(entry.reason, entry.source);
      var isNew := sym !in subscriptions;
      if isNew {
        subscriptions := subscriptions[sym := map[]];
      }
      subscriptions := subscriptions[sym := subscriptions[sym][key := entry]];
      assert subscriptions == Filed(old(subscriptions), sym, entry);
      var newMode := CalculateHighestMode(subscriptions[sym]);
      if isNew {
        activeModes := activeModes[sym := newMode];
        if wiring.add {
          log := log + [Added(sym, newMode)];
        }
      } else {
        SettleMode(sym, newMode);
      }
    }

    /** Records a changed aggregated mode and reports it. */
    method SettleMode(sym: string, newMode: Mode)
      requires sym in activeModes
      modifies this`activeModes, this`log
      ensures activeModes == old(activeModes)[sym := newMode]
      ensures log == old(log) + Notices(wiring, sym, Some(old(activeModes)[sym]), Some(newMode))
    {
      if activeModes[sym] != newMode {
        activeModes := activeModes[sym := newMode];
        if wiring.modeChange {
          log := log + [ModeChanged(sym, newMode)];
        }
      }
    }

    /** Bookkeeping: nothing changed and nothing was said. */
    lemma Silent(removalSeen: bool)
      ensures Announces(log[|log|..], wiring, removalSeen, activeModes, activeModes)
    {
      assert log[|log|..] == [];
    }

    /** Bookkeeping: the log grew by the one callback that the change of `sym` is worth. */
    lemma Noticed(before: map<string, Mode>, sym: string, logBefore: seq<Callback>)
      requires Tracks(wiring, logBefore, before)
      requires forall s :: s != sym ==> Lookup(before, s) == Lookup(activeModes, s)
      requires log == logBefore + Notices(wiring, sym, Lookup(before, sym), Lookup(activeModes, sym))
      ensures Announces(log[|logBefore|..], wiring, wiring.remove, before, activeModes)
      ensures Tracks(wiring, log, activeModes)
    {
      var evs := Notices(wiring, sym, Lookup(before, sym), Lookup(activeModes, sym));
      assert log[|logBefore|..] == evs;
      NoticesAnnounce(wiring, sym, before, activeModes);
      AnnouncingKeepsTracking(wiring, logBefore, evs, wiring.remove, before, activeModes);
    }

    /** Bookkeeping: the callbacks since the start of the method say what the operation does. */
    twostate lemma Spoken(op: Op)
      requires old(Valid()) && Valid() && Abstract() == Step(old(Abstract()), op)
      requires old(log) <= log
      requires Announces(log[|old(log)|..], wiring, RemovalSeen(wiring, op), old(activeModes), activeModes)
      ensures Says(log[|old(log)|..], wiring, old(Abstract()), op)
    {
      hide Tracks, Announces, Active, Flatten, Step, Says;
      SettledKeyed(subscriptions, activeModes);
      SettledKeyed(old(subscriptions), old(activeModes));
      SettledSays(log[|old(log)|..], wiring, old(Abstract()), op,
                  old(subscriptions), old(activeModes), subscriptions, activeModes);
    }

    method Unsubscribe(symbol: string, reason: string, source: string)
      requires Valid()
      modifies this
      ensures Valid()
      ensures Abstract() == Step(old(Abstract()), SubscriptionSpec.Unsubscribe(upper(symbol), reason, source))
      ensures old(log) <= log
      ensures Says(log[|old(log)|..], wiring, old(Abstract()), SubscriptionSpec.Unsubscribe(upper(symbol), reason, source))
    {
      hide Tracks, Announces, Says, MakeKey, ColonFree, WellKeyed, Settled, Pruned, Flatten, Unsubscribed, Notices, Without;
      SettledKeyed(subscriptions, activeModes);
      var sym := upper(symbol);
      if sym !in subscriptions {
        NothingToUnsubscribe(subscriptions, sym, reason, source);
        Silent(wiring.remove);
        Spoken(SubscriptionSpec.Unsubscribe(sym, reason, source));
        return;
      }
      var key := MakeKey(reason, source);
      var d := subscriptions[sym];
      ghost var gone := UnsubscribedEntries(subscriptions, sym, reason, source);
      if key in d {
        d := d - {key};
      } else {
        var toPop := set k | k in d && d[k].reason == reason && (source == "" || d[k].source == source);
        d := d - toPop;
      }
      assert d == Rest(old(subscriptions)[sym], gone);
      Replace(sym, d, gone);
      FlattenPruned(old(subscriptions), subscriptions, {sym}, gone,
                    Unsubscribed(old(Flatten(subscriptions)), sym, reason, source));
      Noticed(old(activeModes), sym, old(log));
      Spoken(SubscriptionSpec.Unsubscribe(sym, reason, source));
    }

    /** Puts what is left of a symbol's entries back, or forgets a symbol with none left. */
    method Replace(sym: string, d: Entries, ghost gone: Entry -> bool)
      requires Settled(subscriptions, activeModes) && sym in subscriptions
      requires d == Rest(subscriptions[sym], gone)
      modifies this`subscriptions, this`activeModes, this`log
      ensures Settled(subscriptions, activeModes)
      ensures Pruned(old(subscriptions), subscriptions, {sym}, gone)
      ensures forall s :: s != sym ==> Lookup(old(activeModes), s) == Lookup(activeModes, s)
      ensures log == old(log) + Notices(wiring, sym, Lookup(old(activeModes), sym), Lookup(activeModes, sym))
    {
      hide EntryModes, Highest, KeyedEntries, Rest, Pruned, Settled;
      SettledKeyed(subscriptions, activeModes);
      ReplacedPruned(subscriptions, sym, d, gone);
      ReplacedSettled(subscriptions, activeModes, sym, d);
      subscriptions := subscriptions[sym := d];
      if d == map[] {
        subscriptions := subscriptions - {sym};
        activeModes := activeModes - {sym};
        assert subscriptions == old(subscriptions) - {sym};
        if wiring.remove {
          log := log + [Removed(sym)];
        }
      } else {
        var newMode := CalculateHighestMode(d);
        SettleMode(sym, newMode);
      }
    }

    /** Pops one symbol's entries satisfying `gone`, settling its mode if some entry survives. */
    method PopFrom(sym: string, gone: Entry -> bool) returns (survives: bool)
      requires sym in subscriptions && sym in activeModes
      modifies this`subscriptions, this`activeModes, this`log
      ensures subscriptions == old(subscriptions)[sym := Rest(old(subscriptions)[sym], gone)]
      ensures survives <==> subscriptions[sym] != map[]
      ensures activeModes == if survives then old(activeModes)[sym := Highest(EntryModes(subscriptions[sym]))]
                             else old(activeModes)
      ensures log == old(log) + if survives
                                then Notices(wiring, sym, Some(old(activeModes)[sym]), Some(activeModes[sym]))
                                else []
    {
      hide EntryModes, Highest, Rest, Notices;
      var d := Rest(subscriptions[sym], gone);
      subscriptions := subscriptions[sym := d];
      survives := d != map[];
      if survives {
        var newMode := CalculateHighestMode(d);
        SettleMode(sym, newMode);
      }
    }

    /** Pops the entries satisfying `gone` from every symbol and collects the symbols left with none. */
    method PopEntries(gone: Entry -> bool) returns (emptied: seq<string>, ghost evs: seq<Callback>)
      requires Settled(subscriptions, activeModes)
      modifies this`subscriptions, this`activeModes, this`log
      ensures Swept(old(subscriptions), old(activeModes), subscriptions, activeModes, {}, gone)
      ensures Distinct(emptied)
      ensures Emptied(emptied, subscriptions, {})
      ensures log == old(log) + evs
      ensures SaidSwitches(evs, wiring, Survivors(subscriptions, {}), old(activeModes), activeModes)
      ensures forall cb :: cb in evs ==> cb.ModeChanged?
    {
      hide SettledEntries, EntryModes, Highest, Rest, SweptAt, SaidSwitches, Notices, Emptied, Survivors;
      emptied, evs := [], [];
      var todo := subscriptions.Keys;
      NothingSaid(wiring, activeModes);
      SweepStarts(subscriptions);
      while todo != {}
        invariant todo <= old(subscriptions).Keys
        invariant Swept(old(subscriptions), old(activeModes), subscriptions, activeModes, todo, gone)
        invariant Distinct(emptied)
        invariant Emptied(emptied, subscriptions, todo)
        invariant log == old(log) + evs
        invariant forall cb :: cb in evs ==> cb.ModeChanged?
        invariant SaidSwitches(evs, wiring, Survivors(subscriptions, todo), old(activeModes), activeModes)
        decreases todo
      {
        var sym :| sym in todo;
        ghost var mid, modes := subscriptions, activeModes;
        var survives := PopFrom(sym, gone);
        SweepVisits(mid, subscriptions[sym], todo, sym, emptied);
        SweptStep(old(subscriptions), old(activeModes), mid, modes, subscriptions[sym], todo, sym, gone);
        if survives {
          OnlySwitch(wiring, sym, modes[sym], activeModes[sym]);
          SaySwitch(evs, wiring, Survivors(mid, todo), sym, old(activeModes), modes, activeModes);
          evs := evs + Notices(wiring, sym, Some(modes[sym]), Some(activeModes[sym]));
        } else {
          emptied := emptied + [sym];
        }
        todo := todo - {sym};
      }
    }

    /** Deletes the emptied symbols, reporting each of them if asked to. */
    method Forget(emptied: seq<string>, notify: bool)
      modifies this`subscriptions, this`activeModes, this`log
      ensures subscriptions == old(subscriptions) - ToSet(emptied)
      ensures activeModes == old(activeModes) - ToSet(emptied)
      ensures log == old(log) + if notify then Removals(emptied) else []
    {
      for i := 0 to |emptied|
        invariant subscriptions == old(subscriptions) - ToSet(emptied[..i])
        invariant activeModes == old(activeModes) - ToSet(emptied[..i])
        invariant log == old(log) + if notify then Removals(emptied[..i]) else []
      {
        assert ToSet(emptied[..i + 1]) == ToSet(emptied[..i]) + {emptied[i]};
        subscriptions := subscriptions - {emptied[i]};
        activeModes := activeModes - {emptied[i]};
        if notify {
          assert Removals(emptied[..i + 1]) == Removals(emptied[..i]) + [Removed(emptied[i])];
          log := log + [Removed(emptied[i])];
        }
      }
      assert emptied[..|emptied|] == emptied;
    }

    method NotifyRemoved(symbols: seq<string>)
      modifies this`log
      ensures log == old(log) + Removals(symbols)
    {
      for i := 0 to |symbols|
        invariant log == old(log) + Removals(symbols[..i])
      {
        assert Removals(symbols[..i + 1]) == Removals(symbols[..i]) + [Removed(symbols[i])];
        log := log + [Removed(symbols[i])];
      }
      assert symbols[..|symbols|] == symbols;
    }

    /** Bookkeeping: what a complete sweep has achieved. */
    lemma SweepDone(subs: Subscriptions, active: map<string, Mode>, logBefore: seq<Callback>,
                    subs': Subscriptions, mid: map<string, Mode>, emptied: seq<string>, gone: Entry -> bool,
                    switches: seq<Callback>, removals: seq<Callback>, removalSeen: bool, dead: set<Sub>)
      requires Settled(subs, active) && Tracks(wiring, logBefore, active)
      requires Swept(subs, active, subs', mid, {}, gone) && Distinct(emptied) && Emptied(emptied, subs', {})
      requires SaidSwitches(switches, wiring, Survivors(subs', {}), active, mid)
      requires SaidRemoved(removals, removalSeen, emptied)
      requires wiring.remove ==> removalSeen
      requires forall u :: u in Flatten(subs) ==> (u in dead <==> gone(Entry(u.reason, u.source, Flatten(subs)[u])))
      requires subscriptions == subs' - ToSet(emptied) && activeModes == mid - ToSet(emptied)
      requires log == logBefore + switches + removals
      ensures Valid()
      ensures Flatten(subscriptions) == Without(Flatten(subs), dead)
      ensures logBefore <= log && Announces(log[|logBefore|..], wiring, removalSeen, active, activeModes)
    {
      hide KeyedEntries, SaidSwitches, SaidRemoved, History, Occurrences, Tracks, Announces;
      SweptSettled(subs, active, subs', mid, emptied, gone);
      SweptPruned(subs, active, subs', mid, emptied, gone);
      SubsHold(subs);
      FlattenPruned(subs, subscriptions, subs.Keys, gone, dead);
      SweptAnnounces(wiring, removalSeen, switches, removals, emptied, active, mid, activeModes);
      assert log == logBefore + (switches + removals);
      assert log[|logBefore|..] == switches + removals;
      AnnouncingKeepsTracking(wiring, logBefore, switches + removals, removalSeen, active, activeModes);
    }

    /** Bookkeeping: what clearing a reason means for entries and reports. */
    twostate lemma Cleared(reason: string)
      requires old(Valid()) && Valid() && Abstract() == Step(old(Abstract()), SubscriptionSpec.ClearReason(reason))
      requires old(log) <= log && Says(log[|old(log)|..], wiring, old(Abstract()), SubscriptionSpec.ClearReason(reason))
      ensures Loses(old(Abstract()).flat, Abstract().flat, (u: Sub) => u.reason == reason)
      ensures forall s :: Remove in History(log[|old(log)|..], s) <==>
                wiring.remove && LosesAll(old(Abstract()).flat, s, (u: Sub) => u.reason == reason)
    {
      hide Tracks, Says, Settled, Flatten, Step, History;
      ClearReasonMeaning(old(Abstract()), reason);
      LossesReported(log[|old(log)|..], wiring, old(Abstract()), SubscriptionSpec.ClearReason(reason),
                     (u: Sub) => u.reason == reason);
    }

    method ClearReason(reason: string)
      requires Valid()
      modifies this
      ensures Valid()
      ensures Abstract() == Step(old(Abstract()), SubscriptionSpec.ClearReason(reason))
      ensures old(log) <= log
      ensures Says(log[|old(log)|..], wiring, old(Abstract()), SubscriptionSpec.ClearReason(reason))
      ensures Loses(old(Abstract()).flat, Abstract().flat, (u: Sub) => u.reason == reason)
      ensures forall s :: Remove in History(log[|old(log)|..], s) <==>
                wiring.remove && LosesAll(old(Abstract()).flat, s, (u: Sub) => u.reason == reason)
    {
      hide Tracks, Announces, Says, Flatten, Swept, Emptied, SaidSwitches, SaidRemoved, KeyedEntries, EntryModes, Highest;
      var gone := (e: Entry) => e.reason == reason;
      var emptied, evs := PopEntries(gone);
      ghost var subs, modes := subscriptions, activeModes;
      Forget(emptied, wiring.remove);
      SayRemovals(emptied);
      SweepDone(old(subscriptions), old(activeModes), old(log), subs, modes, emptied, gone, evs,
                if wiring.remove then Removals(emptied) else [], wiring.remove, OfReason(old(Flatten(subscriptions)), reason));
      Spoken(SubscriptionSpec.ClearReason(reason));
      Cleared(reason);
    }

    /** Removes everything a disconnected source asked for. */
    method ExecuteUnsubscribeAll(source: string)
      requires Valid()
      modifies this
      ensures Valid()
      ensures Abstract().flat == Without(old(Abstract()).flat, OfSource(old(Abstract()).flat, source))
      ensures Abstract().timers == SubscriptionSpec.Forget(old(Abstract()).timers, source)
      ensures old(log) <= log
      ensures Announces(log[|old(log)|..], wiring, wiring.batchRemove || wiring.remove, old(activeModes), activeModes)
      ensures var evs := log[|old(log)|..];
              forall cb :: cb in evs ==>
                cb.ModeChanged? || if wiring.batchRemove then cb.BatchRemoved? && cb == evs[|evs| - 1] else cb.Removed?
    {
      hide Tracks, Announces, Flatten, Swept, Emptied, SaidSwitches, SaidRemoved, KeyedEntries, EntryModes, Highest;
      debounceTimers := debounceTimers - {source};
      var gone := (e: Entry) => e.source == source;
      var emptied, evs := PopEntries(gone);
      ghost var subs, modes := subscriptions, activeModes;
      Forget(emptied, false);
      ghost var removals: seq<Callback> := [];
      SayRemovals(emptied);
      SayBatch(emptied);
      if emptied != [] {
        if wiring.batchRemove {
          removals := [BatchRemoved(emptied)];
          log := log + [BatchRemoved(emptied)];
        } else if wiring.remove {
          removals := Removals(emptied);
          NotifyRemoved(emptied);
        }
      }
      SweepDone(old(subscriptions), old(activeModes), old(log), subs, modes, emptied, gone, evs, removals,
                wiring.batchRemove || wiring.remove, OfSource(old(Flatten(subscriptions)), source));
      assert log == old(log) + (evs + removals) && log[|old(log)|..] == evs + removals;
    }

    /** Bookkeeping: what an immediate disconnect means for entries and reports. */
    twostate lemma Gone(source: string)
      requires old(Valid()) && Valid() && Abstract() == Step(old(Abstract()), Disconnect(source, false)) && source != ""
      requires old(log) <= log && Says(log[|old(log)|..], wiring, old(Abstract()), Disconnect(source, false))
      ensures Loses(old(Abstract()).flat, Abstract().flat, (u: Sub) => u.source == source)
      ensures forall s :: Remove in History(log[|old(log)|..], s) <==>
                (wiring.remove || wiring.batchRemove) && LosesAll(old(Abstract()).flat, s, (u: Sub) => u.source == source)
    {
      hide Tracks, Says, Settled, Flatten, Step, History;
      DisconnectMeaning(old(Abstract()), source, false);
      LossesReported(log[|old(log)|..], wiring, old(Abstract()), Disconnect(source, false), (u: Sub) => u.source == source);
    }

    /** A client has gone: remove its entries now, or once a debounce delay has passed. */
    method UnsubscribeAllForSource(source: string, debounceSec: real)
      requires Valid()
      modifies this
      ensures Valid()
      ensures Abstract() == Step(old(Abstract()), Disconnect(source, debounceSec > 0.0))
      ensures old(log) <= log
      ensures Says(log[|old(log)|..], wiring, old(Abstract()), Disconnect(source, debounceSec > 0.0))
      ensures source == "" || debounceSec > 0.0 ==> Abstract().flat == old(Abstract()).flat && log == old(log)
      ensures source != "" && debounceSec <= 0.0 ==>
                && Loses(old(Abstract()).flat, Abstract().flat, (u: Sub) => u.source == source)
                && forall s :: Remove in History(log[|old(log)|..], s) <==>
                     (wiring.remove || wiring.batchRemove) && LosesAll(old(Abstract()).flat, s, (u: Sub) => u.source == source)
    {
      hide Tracks, Announces, Says, Settled, Flatten;
      if source == "" {
        Silent(wiring.batchRemove || wiring.remove);
        Spoken(Disconnect(source, debounceSec > 0.0));
        return;
      }
      CancelTimer(source);
      if debounceSec > 0.0 {
        debounceTimers := debounceTimers[source := nextTimer];
        armed := armed[nextTimer := source];
        nextTimer := nextTimer + 1;
        Silent(wiring.batchRemove || wiring.remove);
      } else {
        ExecuteUnsubscribeAll(source);
      }
      Spoken(Disconnect(source, debounceSec > 0.0));
      if debounceSec <= 0.0 {
        Gone(source);
      }
    }

    /** A timer's delay passes: its callback is now waiting for the registry's lock. */
    method TimerExpires(id: nat)
      requires Valid()
      modifies this`armed, this`expired
      ensures Valid()
      ensures Abstract() == Step(old(Abstract()), Expire(id))
    {
      hide Tracks, Settled;
      if id in armed {
        expired := expired[id := armed[id]];
        armed := armed - {id};
      }
    }

    /** The callback of an expired timer gets the lock and runs. */
    method TimerRuns(id: nat)
      requires Valid()
      modifies this
      ensures Valid()
      ensures Abstract() == Step(old(Abstract()), RunExpired(id))
      ensures old(log) <= log
      ensures Says(log[|old(log)|..], wiring, old(Abstract()), RunExpired(id))
      ensures forall s :: Remove in History(log[|old(log)|..], s) <==>
                (wiring.remove || wiring.batchRemove) && id in old(expired) && Orphaned(old(Abstract()).flat, s, old(expired)[id])
    {
      hide Tracks, Announces, Says, Settled, Flatten;
      if id in expired {
        var source := expired[id];
        expired := expired - {id};
        ExecuteUnsubscribeAll(source);
      } else {
        Silent(wiring.batchRemove || wiring.remove);
      }
      Spoken(RunExpired(id));
      FiringRemovesOrphans(log[|old(log)|..], wiring, old(Abstract()), id);
    }

    /** The streamed mode of a symbol; "ltpc" for a symbol nobody subscribes to. */
    method GetEffectiveMode(symbol: string) returns (mode: Mode)
      requires Valid()
      ensures mode == Highest(ModesOf(Flatten(subscriptions), upper(symbol)))
      ensures var flat, sym := Flatten(subscriptions), upper(symbol);
              && (mode == FullD30 <==> Has(flat, sym, FullD30))
              && (mode == Full <==> Has(flat, sym, Full) && !Has(flat, sym, FullD30))
              && (mode == OptionGreeks <==> Has(flat, sym, OptionGreeks) && !Has(flat, sym, Full) && !Has(flat, sym, FullD30))
    {
      hide Tracks, Settled, Flatten, ModesOf, Highest, Has;
      SettledKeyed(subscriptions, activeModes);
      ActiveOfFlatten(subscriptions, activeModes);
      ActiveByName(Flatten(subscriptions), upper(symbol));
      FlattenModes(subscriptions, upper(symbol));
      mode := if upper(symbol) in activeModes then activeModes[upper(symbol)] else Ltpc;
    }

    method GetActiveSymbols() returns (symbols: set<string>)
      requires Valid()
      ensures symbols == Symbols(Flatten(subscriptions)) == Active(Flatten(subscriptions)).Keys
    {
      ActiveOfFlatten(subscriptions, activeModes);
      symbols := subscriptions.Keys;
    }
  }
}
