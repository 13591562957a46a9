/** The reference model of the subscription registry: a flat relation from
    (symbol, reason, source) to a mode, the debounce timers beside it, and the
    history of callbacks that one symbol's listener sees. */
module SubscriptionSpec {
  import opened Text

  // ----- Feed modes -----

  datatype Mode = Ltpc | OptionGreeks | Full | FullD30

  function Priority(m: Mode): nat {
    match m
    case Ltpc => 1
    case OptionGreeks => 2
    case Full => 3
    case FullD30 => 4
  }

  /** A requested mode by its lower-cased name; an unknown name means "full". */
  function ParseMode(name: string): Mode {
    if name == "ltpc" then Ltpc
    else if name == "option_greeks" then OptionGreeks
    else if name == "full_d30" then FullD30
    else Full
  }

  /** The highest mode of a set of modes. */
  function Highest(modes: set<Mode>): (m: Mode)
    ensures modes == {} ==> m == Ltpc
    ensures modes != {} ==> m in modes && forall o :: o in modes ==> Priority(o) <= Priority(m)
  {
    if FullD30 in modes then FullD30
    else if Full in modes then Full
    else if OptionGreeks in modes then OptionGreeks
    else assert forall o :: o in modes ==> o == Ltpc; Ltpc
  }

  /** No other mode of the set outranks or ties with it. */
  lemma HighestUnique(modes: set<Mode>, m: Mode)
    requires m in modes && forall o :: o in modes ==> Priority(o) <= Priority(m)
    ensures m == Highest(modes)
  {
  }

  // ----- Reasons and keys -----

  const VALID_REASONS: set<string> := {
    "WATCHLIST", "WATCHLIST_VIEW", "MARKET_UNIVERSE", "SUBSCRIPTION_SYNC", "INDEX_BENCHMARK",
    "RUNNING_BOT", "OPEN_POSITION", "CHART_VIEW", "BENCHMARK", "OPTION_CHAIN", "DEPTH_VIEW",
    "DETAIL_VIEW", "COMMAND_CENTER", "LIVE_MARKET_TEST", "QUANTOS_DIAGNOSTIC", "SYSTEM",
    "DIAGNOSTIC", "SSE_CLIENT_STREAM", "TEST_CLIENT", "RESTORE_SUBSCRIPTIONS", "DELTA_LIVE_TAB",
    "DHAN_LIVE_TAB", "RESILIENCE_TEST", "VERIFICATION_TEST"
  }

  predicate ColonFree(s: string) {
    ':' !in s
  }

  predicate ValidReason(r: string) {
    r in VALID_REASONS
  }

  lemma ValidReasonsColonFree(r: string)
    requires ValidReason(r)
    ensures ColonFree(r)
  {
  }

  /** The string key under which an entry is filed. */
  function MakeKey(reason: string, source: string): string {
    if source == "" then reason else reason + "::" + source
  }

  /** The text before the first colon. */
  function Head(s: string): string {
    if s == "" || s[0] == ':' then "" else [s[0]] + Head(s[1..])
  }

  /** A colon-free reason can be read back from the key. */
  lemma {:induction false} HeadOfKey(r: string, rest: string)
    requires ColonFree(r)
    requires rest == "" || rest[0] == ':'
    ensures Head(r + rest) == r
  {
    if r == "" {
      assert r + rest == rest;
    } else {
      assert (r + rest)[1..] == r[1..] + rest;
      HeadOfKey(r[1..], rest);
    }
  }

  /** Keys of colon-free reasons never collide, whatever the source contains. */
  lemma MakeKeyInjective(r: string, s: string, r': string, s': string)
    requires ColonFree(r) && ColonFree(r')
    requires MakeKey(r, s) == MakeKey(r', s')
    ensures r == r' && s == s'
  {
    var rest := if s == "" then "" else "::" + s;
    var rest' := if s' == "" then "" else "::" + s';
    assert MakeKey(r, s) == r + rest && MakeKey(r', s') == r' + rest';
    HeadOfKey(r, rest);
    HeadOfKey(r', rest');
    assert rest == (r + rest)[|r|..] == rest';
    assert s == (if rest == "" then "" else rest[2..]);
  }

  // ----- The flat relation -----

  datatype Sub = Sub(symbol: string, reason: string, source: string)

  type Flat = map<Sub, Mode>

  function Key(u: Sub): string {
    MakeKey(u.reason, u.source)
  }

  function ModesOf(flat: Flat, symbol: string): set<Mode> {
    set u | u in flat && u.symbol == symbol :: flat[u]
  }

  function Symbols(flat: Flat): set<string> {
    set u | u in flat :: u.symbol
  }

  /** What the providers should be streaming: each subscribed symbol in its highest mode. */
  function Active(flat: Flat): map<string, Mode> {
    map s | s in Symbols(flat) :: Highest(ModesOf(flat, s))
  }

  function Without(flat: Flat, gone: set<Sub>): Flat {
    flat - gone
  }

  function OfSource(flat: Flat, source: string): set<Sub> {
    set u | u in flat && u.source == source
  }

  function OfReason(flat: Flat, reason: string): set<Sub> {
    set u | u in flat && u.reason == reason
  }

  function FiledUnder(flat: Flat, symbol: string, key: string): set<Sub> {
    set u | u in flat && u.symbol == symbol && Key(u) == key
  }

  /** The entries that an unsubscribe call removes: those filed under the exact key
      or, when there is none, those of the reason (and of the source, if one is given). */
  function Unsubscribed(flat: Flat, symbol: string, reason: string, source: string): set<Sub> {
    var exact := FiledUnder(flat, symbol, MakeKey(reason, source));
    if exact != {} then exact
    else set u | u in flat && u.symbol == symbol && u.reason == reason && (source == "" || u.source == source)
  }

  // ----- State and operations -----

  /** `recorded` is the registry's own table of debounce timers by source. `armed` and
      `expired` are the timer threads: still waiting, or past their delay with the
      callback not yet run. Cancelling affects a waiting timer only. */
  datatype Timers = Timers(recorded: map<string, nat>, armed: map<nat, string>, expired: map<nat, string>, next: nat)

  datatype State = State(flat: Flat, timers: Timers)

  const INITIAL := State(map[], Timers(map[], map[], map[], 0))

  datatype Op =
    | Subscribe(symbol: string, reason: string, source: string, mode: Mode)
    | Unsubscribe(symbol: string, reason: string, source: string)
    | Disconnect(source: string, debounced: bool)
    | ClearReason(reason: string)
    | Expire(id: nat)
    | RunExpired(id: nat)

  function Cancel(t: Timers, source: string): Timers {
    if source in t.recorded then t.(armed := t.armed - {t.recorded[source]}) else t
  }

  function Forget(t: Timers, source: string): Timers {
    t.(recorded := t.recorded - {source})
  }

  function Arm(t: Timers, source: string): Timers {
    t.(recorded := t.recorded[source := t.next], armed := t.armed[t.next := source], next := t.next + 1)
  }

  function TimerStep(t: Timers, op: Op): Timers {
    match op
    case Subscribe(_, reason, source, _) =>
      if ValidReason(reason) && source != "" then Forget(Cancel(t, source), source) else t
    case Unsubscribe(_, _, _) => t
    case Disconnect(source, debounced) =>
      if source == "" then t
      else if debounced then Arm(Cancel(t, source), source)
      else Forget(Cancel(t, source), source)
    case ClearReason(_) => t
    case Expire(id) =>
      if id in t.armed then t.(armed := t.armed - {id}, expired := t.expired[id := t.armed[id]]) else t
    case RunExpired(id) =>
      if id in t.expired then Forget(t.(expired := t.expired - {id}), t.expired[id]) else t
  }

  function FlatStep(flat: Flat, t: Timers, op: Op): Flat {
    match op
    case Subscribe(symbol, reason, source, mode) =>
      if ValidReason(reason) then flat[Sub(symbol, reason, source) := mode] else flat
    case Unsubscribe(symbol, reason, source) =>
      Without(flat, Unsubscribed(flat, symbol, reason, source))
    case Disconnect(source, debounced) =>
      if source == "" || debounced then flat else Without(flat, OfSource(flat, source))
    case ClearReason(reason) =>
      Without(flat, OfReason(flat, reason))
    case Expire(_) => flat
    case RunExpired(id) =>
      if id in t.expired then Without(flat, OfSource(flat, t.expired[id])) else flat
  }

  function Step(st: State, op: Op): State {
    State(FlatStep(st.flat, st.timers, op), TimerStep(st.timers, op))
  }

  function Run(st: State, ops: seq<Op>): State
    decreases |ops|
  {
    if ops == [] then st else Run(Step(st, ops[0]), ops[1..])
  }

  // ----- Callbacks -----

  /** Which callbacks the owner of the registry wired. */
  datatype Wiring = Wiring(add: bool, remove: bool, modeChange: bool, batchRemove: bool)

  datatype Callback =
    | Added(symbol: string, mode: Mode)
    | ModeChanged(symbol: string, mode: Mode)
    | Removed(symbol: string)
    | BatchRemoved(symbols: seq<string>)

  /** One symbol's view of a callback. */
  datatype Change = Add(mode: Mode) | Switch(mode: Mode) | Remove

  function Occurrences(symbols: seq<string>, s: string): seq<Change> {
    if symbols == [] then []
    else Occurrences(symbols[..|symbols| - 1], s) + (if symbols[|symbols| - 1] == s then [Remove] else [])
  }

  function Seen(cb: Callback, s: string): seq<Change> {
    match cb
    case Added(symbol, mode) => if symbol == s then [Add(mode)] else []
    case ModeChanged(symbol, mode) => if symbol == s then [Switch(mode)] else []
    case Removed(symbol) => if symbol == s then [Remove] else []
    case BatchRemoved(symbols) => Occurrences(symbols, s)
  }

  /** All that the callbacks said about symbol `s`, in order. */
  function History(log: seq<Callback>, s: string): seq<Change> {
    if log == [] then [] else History(log[..|log| - 1], s) + Seen(log[|log| - 1], s)
  }

  lemma {:induction false} HistoryConcat(a: seq<Callback>, b: seq<Callback>, s: string)
    ensures History(a + b, s) == History(a, s) + History(b, s)
  {
    if b == [] {
      assert a + b == a;
    } else {
      var b0, last := b[..|b| - 1], b[|b| - 1];
      assert (a + b)[..|a + b| - 1] == a + b0 && (a + b)[|a + b| - 1] == last;
      calc {
        History(a + b, s);
        History(a + b0, s) + Seen(last, s);
        { HistoryConcat(a, b0, s); }
        (History(a, s) + History(b0, s)) + Seen(last, s);
        History(a, s) + (History(b0, s) + Seen(last, s));
        History(a, s) + History(b, s);
      }
    }
  }

  /** What a listener that replays a symbol's history believes is being streamed. */
  function Replay(h: seq<Change>): Option<Mode> {
    if h == [] then None
    else
      match h[|h| - 1]
      case Add(m) => Some(m)
      case Switch(m) => Some(m)
      case Remove => None
  }

  /** Adds and removes alternate, starting with an add; a mode change comes only
      while the symbol is streamed and never repeats the current mode. */
  predicate Alternates(h: seq<Change>) {
    h == [] ||
    var before := Replay(h[..|h| - 1]);
    && Alternates(h[..|h| - 1])
    && match h[|h| - 1]
       case Add(_) => before.None?
       case Switch(m) => before.Some? && before.value != m
       case Remove => before.Some?
  }

  predicate MayFollow(before: Change, after: Change) {
    && (after.Add? <==> before.Remove?)
    && (after.Switch? && !before.Remove? ==> after.mode != before.mode)
  }

  /** Alternation, change by change. */
  lemma {:induction false} AlternatesMeaning(h: seq<Change>)
    ensures Alternates(h) <==>
              (h == [] || h[0].Add?) && forall i :: 0 < i < |h| ==> MayFollow(h[i - 1], h[i])
  {
    if |h| > 1 {
      var init := h[..|h| - 1];
      AlternatesMeaning(init);
      assert init[|init| - 1] == h[|h| - 2];
      assert forall i :: 0 <= i < |init| ==> init[i] == h[i];
    }
  }

  /** The one callback (or none) that a change of a symbol's active mode is worth. */
  function Delta(w: Wiring, removalSeen: bool, before: Option<Mode>, after: Option<Mode>): seq<Change> {
    match (before, after)
    case (None, None) => []
    case (None, Some(m)) => if w.add then [Add(m)] else []
    case (Some(m), Some(n)) => if w.modeChange && m != n then [Switch(n)] else []
    case (Some(_), None) => if removalSeen then [Remove] else []
  }

  /** The callbacks `evs` announce exactly the difference between two active-mode maps. */
  ghost predicate Announces(evs: seq<Callback>, w: Wiring, removalSeen: bool,
                            before: map<string, Mode>, after: map<string, Mode>) {
    forall s :: History(evs, s) == Delta(w, removalSeen, Lookup(before, s), Lookup(after, s))
  }

  /** Is a removal reported at all, and by which operations? */
  predicate RemovalSeen(w: Wiring, op: Op) {
    w.remove || (w.batchRemove && (op.Disconnect? || op.RunExpired?))
  }

  /** The callbacks `evs` of one operation announce exactly the change it makes. */
  ghost predicate Says(evs: seq<Callback>, w: Wiring, st: State, op: Op) {
    Announces(evs, w, RemovalSeen(w, op), Active(st.flat), Active(Step(st, op).flat))
  }

  function StepHeard(w: Wiring, st: State, op: Op, s: string): seq<Change> {
    Delta(w, RemovalSeen(w, op), Lookup(Active(st.flat), s), Lookup(Active(Step(st, op).flat), s))
  }

  /** All that a run says about symbol `s`. */
  function Heard(w: Wiring, st: State, ops: seq<Op>, s: string): seq<Change>
    decreases |ops|
  {
    if ops == [] then [] else StepHeard(w, st, ops[0], s) + Heard(w, Step(st, ops[0]), ops[1..], s)
  }

  /** Speaking step by step is speaking about the run. */
  lemma {:induction false} HeardConcat(w: Wiring, st: State, a: seq<Op>, b: seq<Op>, s: string)
    ensures Heard(w, st, a + b, s) == Heard(w, st, a, s) + Heard(w, Run(st, a), b, s)
    decreases |a|
  {
    hide StepHeard, Step;
    if a == [] {
      assert a + b == b;
    } else {
      assert (a + b)[1..] == a[1..] + b;
      HeardConcat(w, Step(st, a[0]), a[1..], b, s);
    }
  }

  /** A log that told the run so far tells the longer run after one more operation. */
  lemma {:induction false} LogTellsRun(w: Wiring, log: seq<Callback>, evs: seq<Callback>, st: State, ops: seq<Op>, op: Op)
    requires forall s :: History(log, s) == Heard(w, st, ops, s)
    requires Says(evs, w, Run(st, ops), op)
    ensures forall s :: History(log + evs, s) == Heard(w, st, ops + [op], s)
  {
    hide Active, Step, Delta, History, Run;
    var now := Run(st, ops);
    forall s
      ensures History(log + evs, s) == Heard(w, st, ops + [op], s)
    {
      HistoryConcat(log, evs, s);
      HeardConcat(w, st, ops, [op], s);
      HeardOne(w, now, op, s);
      assert History(evs, s) == StepHeard(w, now, op, s);
    }
  }

  lemma HeardOne(w: Wiring, st: State, op: Op, s: string)
    ensures Heard(w, st, [op], s) == StepHeard(w, st, op, s)
  {
    hide StepHeard, Step;
    assert [op][1..] == [];
    assert Heard(w, Step(st, op), [op][1..], s) == [];
  }

  /** Only entries of `source` keep the symbol streaming. */
  predicate Orphaned(flat: Flat, symbol: string, source: string) {
    symbol in Symbols(flat) && forall u :: u in flat && u.symbol == symbol ==> u.source == source
  }

  /** A firing timer reports the removal of exactly the symbols that only its source still wanted. */
  lemma {:induction false} FiringRemovesOrphans(evs: seq<Callback>, w: Wiring, st: State, id: nat)
    requires Says(evs, w, st, RunExpired(id))
    ensures forall s :: Remove in History(evs, s) <==>
              (w.remove || w.batchRemove) && id in st.timers.expired && Orphaned(st.flat, s, st.timers.expired[id])
  {
    hide Highest, History, ModesOf;
    var after := Step(st, RunExpired(id)).flat;
    forall s
      ensures Remove in History(evs, s) <==>
                (w.remove || w.batchRemove) && id in st.timers.expired && Orphaned(st.flat, s, st.timers.expired[id])
    {
      assert History(evs, s) == Delta(w, w.remove || w.batchRemove, Lookup(Active(st.flat), s), Lookup(Active(after), s));
      if id in st.timers.expired && s in Symbols(st.flat) {
        StillWanted(st.flat, s, st.timers.expired[id]);
      }
    }
  }

  lemma StillWanted(flat: Flat, s: string, source: string)
    requires s in Symbols(flat)
    ensures s !in Symbols(Without(flat, OfSource(flat, source))) <==> Orphaned(flat, s, source)
  {
    if !Orphaned(flat, s, source) {
      var u :| u in flat && u.symbol == s && u.source != source;
      assert u in Without(flat, OfSource(flat, source));
    }
  }

  /** A listener with add and remove wired knows which symbols are streamed, and
      with mode changes wired too, in which mode. */
  ghost predicate Tracks(w: Wiring, log: seq<Callback>, active: map<string, Mode>) {
    w.add && w.remove ==>
      forall s ::
        && Alternates(History(log, s))
        && (Replay(History(log, s)).Some? <==> s in active)
        && (w.modeChange ==> Replay(History(log, s)) == Lookup(active, s))
  }

  /** The callback (if any) about one symbol whose mode goes from `before` to `after`. */
  function Notices(w: Wiring, s: string, before: Option<Mode>, after: Option<Mode>): seq<Callback> {
    match (before, after)
    case (None, None) => []
    case (None, Some(m)) => if w.add then [Added(s, m)] else []
    case (Some(m), Some(n)) => if w.modeChange && m != n then [ModeChanged(s, n)] else []
    case (Some(_), None) => if w.remove then [Removed(s)] else []
  }

  lemma HistoryOfOne(cb: Callback, s: string)
    ensures History([cb], s) == Seen(cb, s)
  {
    assert [cb][..0] == [];
    assert History([cb][..0], s) == [];
  }

  lemma NoticesHistory(w: Wiring, sym: string, before: Option<Mode>, after: Option<Mode>, s: string)
    ensures History(Notices(w, sym, before, after), s) == if s == sym then Delta(w, w.remove, before, after) else []
  {
    var evs := Notices(w, sym, before, after);
    if evs != [] {
      HistoryOfOne(evs[0], s);
    }
  }

  lemma NoticesAnnounce(w: Wiring, sym: string, before: map<string, Mode>, after: map<string, Mode>)
    requires forall s :: s != sym ==> Lookup(before, s) == Lookup(after, s)
    ensures Announces(Notices(w, sym, Lookup(before, sym), Lookup(after, sym)), w, w.remove, before, after)
  {
    forall s
      ensures History(Notices(w, sym, Lookup(before, sym), Lookup(after, sym)), s)
           == Delta(w, w.remove, Lookup(before, s), Lookup(after, s))
    {
      NoticesHistory(w, sym, Lookup(before, sym), Lookup(after, sym), s);
    }
  }

  lemma AnnouncingKeepsTracking(w: Wiring, log: seq<Callback>, evs: seq<Callback>, removalSeen: bool,
                                before: map<string, Mode>, after: map<string, Mode>)
    requires Tracks(w, log, before)
    requires Announces(evs, w, removalSeen, before, after)
    requires w.remove ==> removalSeen
    ensures Tracks(w, log + evs, after)
  {
    if w.add && w.remove {
      forall s
        ensures && Alternates(History(log + evs, s))
                && (Replay(History(log + evs, s)).Some? <==> s in after)
                && (w.modeChange ==> Replay(History(log + evs, s)) == Lookup(after, s))
      {
        HistoryConcat(log, evs, s);
        var h, d := History(log, s), History(evs, s);
        if d != [] {
          assert (h + d)[..|h + d| - 1] == h;
        } else {
          assert h + d == h;
        }
      }
    }
  }

  // ----- Callbacks of a sweep over all symbols -----

  ghost predicate Distinct(symbols: seq<string>) {
    forall i, j :: 0 <= i < j < |symbols| ==> symbols[i] != symbols[j]
  }

  function ToSet(symbols: seq<string>): set<string> {
    set s | s in symbols
  }

  lemma {:induction false} OccurrencesDistinct(symbols: seq<string>, s: string)
    requires Distinct(symbols)
    ensures Occurrences(symbols, s) == if s in symbols then [Remove] else []
  {
    if symbols != [] {
      OccurrencesDistinct(symbols[..|symbols| - 1], s);
      assert symbols == symbols[..|symbols| - 1] + [symbols[|symbols| - 1]];
    }
  }

  function Removals(symbols: seq<string>): seq<Callback> {
    seq(|symbols|, i requires 0 <= i < |symbols| => Removed(symbols[i]))
  }

  lemma {:induction false} RemovalsHistory(symbols: seq<string>, s: string)
    ensures History(Removals(symbols), s) == Occurrences(symbols, s)
  {
    if symbols != [] {
      var init := symbols[..|symbols| - 1];
      assert Removals(symbols)[..|symbols| - 1] == Removals(init);
      RemovalsHistory(init, s);
    }
  }

  /** What `evs` said is exactly the mode changes of the symbols in `done`. */
  ghost predicate SaidSwitches(evs: seq<Callback>, w: Wiring, done: set<string>,
                               before: map<string, Mode>, after: map<string, Mode>) {
    forall s :: History(evs, s) == SwitchOf(w, done, before, after, s)
  }

  function SwitchOf(w: Wiring, done: set<string>, before: map<string, Mode>, after: map<string, Mode>, s: string)
    : seq<Change>
  {
    if s in done && s in before && s in after then Delta(w, w.remove, Some(before[s]), Some(after[s])) else []
  }

  /** What `removals` said is exactly one removal of each listed symbol, if anything. */
  ghost predicate SaidRemoved(removals: seq<Callback>, removalSeen: bool, emptied: seq<string>) {
    forall s :: History(removals, s) == if removalSeen then Occurrences(emptied, s) else []
  }

  lemma SayRemovals(emptied: seq<string>)
    ensures SaidRemoved(Removals(emptied), true, emptied)
    ensures SaidRemoved([], false, emptied)
  {
    forall s
      ensures History(Removals(emptied), s) == Occurrences(emptied, s)
    {
      RemovalsHistory(emptied, s);
    }
  }

  lemma SayBatch(emptied: seq<string>)
    ensures SaidRemoved([BatchRemoved(emptied)], true, emptied)
    ensures emptied == [] ==> forall seen :: SaidRemoved([], seen, emptied)
  {
    forall s
      ensures History([BatchRemoved(emptied)], s) == Occurrences(emptied, s)
    {
      HistoryOfOne(BatchRemoved(emptied), s);
    }
  }

  lemma NothingSaid(w: Wiring, active: map<string, Mode>)
    ensures SaidSwitches([], w, {}, active, active)
  {
  }

  lemma SaySwitch(evs: seq<Callback>, w: Wiring, done: set<string>, sym: string,
                  before: map<string, Mode>, mid: map<string, Mode>, after: map<string, Mode>)
    requires SaidSwitches(evs, w, done, before, mid)
    requires sym !in done && sym in before && sym in mid && mid[sym] == before[sym]
    requires sym in after && after == mid[sym := after[sym]]
    ensures SaidSwitches(evs + Notices(w, sym, Some(mid[sym]), Some(after[sym])), w, done + {sym}, before, after)
  {
    var more := Notices(w, sym, Some(mid[sym]), Some(after[sym]));
    forall s
      ensures History(evs + more, s) == SwitchOf(w, done + {sym}, before, after, s)
    {
      HistoryConcat(evs, more, s);
      NoticesHistory(w, sym, Some(mid[sym]), Some(after[sym]), s);
    }
  }

  /** Switches of the surviving symbols followed by one removal of each emptied symbol. */
  lemma SweepAnnounces(switches: seq<Callback>, removals: seq<Callback>, w: Wiring, removalSeen: bool,
                       emptied: seq<string>, before: map<string, Mode>, after: map<string, Mode>)
    requires Distinct(emptied)
    requires after.Keys == before.Keys - ToSet(emptied)
    requires forall s :: s in emptied ==> s in before
    requires SaidSwitches(switches, w, after.Keys, before, after)
    requires SaidRemoved(removals, removalSeen, emptied)
    ensures Announces(switches + removals, w, removalSeen, before, after)
  {
    forall s
      ensures History(switches + removals, s) == Delta(w, removalSeen, Lookup(before, s), Lookup(after, s))
    {
      HistoryConcat(switches, removals, s);
      OccurrencesDistinct(emptied, s);
    }
  }
}
