/** Properties of whole runs of the registry: what unsubscribing really removes, when the
    debounce delay protects a reconnecting client, and what a firing timer may remove. */
module Debounce {
  import opened Text
  import opened SubscriptionSpec

  // ----- Invariants of every run -----

  ghost predicate ValidReasons(flat: Flat) {
    forall u :: u in flat ==> ValidReason(u.reason)
  }

  /** Timer ids are fresh, a timer is not both waiting and expired and has a named source, and
      a recorded timer that is still alive belongs to the source it is recorded for. */
  ghost predicate WellTimed(t: Timers) {
    && (forall s :: s in t.recorded ==> t.recorded[s] < t.next)
    && (forall id :: id in t.armed ==> id < t.next && t.armed[id] != "")
    && (forall id :: id in t.expired ==> id < t.next && id !in t.armed && t.expired[id] != "")
    && (forall s :: s in t.recorded && t.recorded[s] in t.armed ==> t.armed[t.recorded[s]] == s)
  }

  ghost predicate WellFormed(st: State) {
    ValidReasons(st.flat) && WellTimed(st.timers)
  }

  lemma StepValidReasons(st: State, op: Op)
    requires ValidReasons(st.flat)
    ensures ValidReasons(Step(st, op).flat)
  {
    hide ValidReason, Unsubscribed, OfSource, OfReason;
  }

  lemma StepWellTimed(t: Timers, op: Op)
    requires WellTimed(t)
    ensures WellTimed(TimerStep(t, op))
  {
    hide ValidReason;
  }

  lemma StepWellFormed(st: State, op: Op)
    requires WellFormed(st)
    ensures WellFormed(Step(st, op))
  {
    hide FlatStep, TimerStep;
    StepValidReasons(st, op);
    StepWellTimed(st.timers, op);
  }

  lemma {:induction false} RunWellFormed(st: State, ops: seq<Op>)
    requires WellFormed(st)
    ensures WellFormed(Run(st, ops))
    decreases |ops|
  {
    if ops != [] {
      StepWellFormed(st, ops[0]);
      RunWellFormed(Step(st, ops[0]), ops[1..]);
    }
  }

  lemma {:induction false} RunConcat(st: State, a: seq<Op>, b: seq<Op>)
    ensures Run(st, a + b) == Run(Run(st, a), b)
    decreases |a|
  {
    if a == [] {
      assert a + b == b;
    } else {
      assert (a + b)[1..] == a[1..] + b;
      RunConcat(Step(st, a[0]), a[1..], b);
    }
  }

  // ----- What an unsubscribe call removes -----

  /** The intended rule: the one entry named or, for an anonymous call that names no
      anonymous entry, every entry of that reason. */
  function Named(flat: Flat, symbol: string, reason: string, source: string): set<Sub> {
    if Sub(symbol, reason, source) in flat then {Sub(symbol, reason, source)}
    else if source == "" then set u | u in flat && u.symbol == symbol && u.reason == reason
    else {}
  }

  /** The reason is not valid but its text, or its text and the source's, spells the key of
      another entry: a valid reason, "::" and a nonempty source. */
  predicate SpellsAnotherKey(reason: string, source: string) {
    var key := MakeKey(reason, source);
    var r := Head(key);
    ValidReason(r) && r != reason && |key| > |r| + 2 && key[|r| + 1] == ':'
  }

  lemma {:induction false} HeadIsPrefix(s: string)
    ensures |Head(s)| <= |s| && s[..|Head(s)|] == Head(s) && ColonFree(Head(s))
    ensures |Head(s)| < |s| ==> s[|Head(s)|] == ':'
    ensures ColonFree(s) ==> Head(s) == s
  {
    if s != "" && s[0] != ':' {
      HeadIsPrefix(s[1..]);
    }
  }

  lemma ValidReasonSpellsItself(reason: string, source: string)
    requires ValidReason(reason)
    ensures !SpellsAnotherKey(reason, source)
  {
    hide ValidReason;
    ValidReasonsColonFree(reason);
    var rest := if source == "" then "" else "::" + source;
    HeadOfKey(reason, rest);
    assert MakeKey(reason, source) == reason + rest;
  }

  lemma FiledUnderOwnKey(flat: Flat, u: Sub, v: Sub)
    requires ValidReasons(flat) && v in flat && Key(v) == Key(u)
    requires !SpellsAnotherKey(u.reason, u.source)
    ensures v.reason == u.reason && v.source == u.source
  {
    hide ValidReason;
    ValidReasonsColonFree(v.reason);
    var key, r := Key(v), v.reason;
    var rest := if v.source == "" then "" else "::" + v.source;
    HeadOfKey(r, rest);
    assert key == r + rest;
    if v.source == "" {
      assert forall i :: 0 <= i < |u.reason| ==> u.reason[i] == r[i];
    } else {
      assert key[|r| + 1] == ':';
    }
    MakeKeyInjective(v.reason, v.source, u.reason, u.source);
  }

  /** The call follows the intended rule on every registry content. */
  ghost predicate RemovesNamed(symbol: string, reason: string, source: string) {
    forall flat :: ValidReasons(flat) ==>
      Unsubscribed(flat, symbol, reason, source) == Named(flat, symbol, reason, source)
  }

  /** The string keys implement the intended rule on every registry content exactly when
      the call does not spell another entry's key; in particular for every valid reason. */
  lemma {:induction false} UnsubscribeRemovesNamed(symbol: string, reason: string, source: string)
    ensures RemovesNamed(symbol, reason, source) <==> !SpellsAnotherKey(reason, source)
    ensures ValidReason(reason) ==> !SpellsAnotherKey(reason, source)
  {
    hide ValidReason, SpellsAnotherKey, Unsubscribed, Named, ValidReasons;
    if ValidReason(reason) {
      ValidReasonSpellsItself(reason, source);
    }
    if SpellsAnotherKey(reason, source) {
      var flat := SpelledEntry(symbol, reason, source);
    } else {
      forall flat | ValidReasons(flat)
        ensures Unsubscribed(flat, symbol, reason, source) == Named(flat, symbol, reason, source)
      {
        NamedIfUnambiguous(flat, symbol, reason, source);
      }
    }
  }

  lemma SpelledEntry(symbol: string, reason: string, source: string) returns (flat: Flat)
    requires SpellsAnotherKey(reason, source)
    ensures ValidReasons(flat) && Unsubscribed(flat, symbol, reason, source) != Named(flat, symbol, reason, source)
  {
    hide ValidReason, Head, Unsubscribed, Named;
    var key := MakeKey(reason, source);
    var r := Head(key);
    HeadIsPrefix(key);
    var v := Sub(symbol, r, key[|r| + 2..]);
    assert key == r + "::" + v.source by {
      assert key[|r|..|r| + 2] == "::";
    }
    flat := map[v := Full];
    OnlyEntryHit(flat, v, reason, source);
  }

  lemma OnlyEntryHit(flat: Flat, v: Sub, reason: string, source: string)
    requires flat == map[v := Full] && Key(v) == MakeKey(reason, source) && v.reason != reason
    ensures Unsubscribed(flat, v.symbol, reason, source) != Named(flat, v.symbol, reason, source)
  {
    hide MakeKey;
    assert v in FiledUnder(flat, v.symbol, Key(v));
    assert v in Unsubscribed(flat, v.symbol, reason, source) && v !in Named(flat, v.symbol, reason, source);
  }

  lemma NamedIfUnambiguous(flat: Flat, symbol: string, reason: string, source: string)
    requires ValidReasons(flat) && !SpellsAnotherKey(reason, source)
    ensures Unsubscribed(flat, symbol, reason, source) == Named(flat, symbol, reason, source)
  {
    hide ValidReason, SpellsAnotherKey, MakeKey;
    var u := Sub(symbol, reason, source);
    forall v | v in FiledUnder(flat, symbol, Key(u))
      ensures v == u
    {
      FiledUnderOwnKey(flat, u, v);
    }
    assert FiledUnder(flat, symbol, Key(u)) == if u in flat then {u} else {};
  }

  /** An unvalidated reason can remove somebody else's entry. */
  lemma UnsubscribeCanHitAnotherEntry()
    ensures var flat := map[Sub("NIFTY", "WATCHLIST", "client_A") := Full];
            ValidReasons(flat) && Unsubscribed(flat, "NIFTY", "WATCHLIST::client_A", "") == flat.Keys
  {
    var u := Sub("NIFTY", "WATCHLIST", "client_A");
    var flat := map[u := Full];
    assert Key(u) == "WATCHLIST::client_A" == MakeKey("WATCHLIST::client_A", "");
    assert FiledUnder(flat, "NIFTY", "WATCHLIST::client_A") == {u};
  }

  // ----- The debounce delay -----

  /** `op` does not ask for `u` to be removed, nor for a new removal of its source. */
  predicate Spares(op: Op, u: Sub) {
    match op
    case Subscribe(_, _, _, _) => true
    case Unsubscribe(symbol, reason, source) =>
      symbol != u.symbol
      || (Key(u) != MakeKey(reason, source) && !(u.reason == reason && (source == "" || source == u.source)))
    case Disconnect(source, _) => source == "" || source != u.source
    case ClearReason(reason) => reason != u.reason
    case Expire(_) => true
    case RunExpired(_) => true
  }

  predicate AllSpare(ops: seq<Op>, u: Sub) {
    forall i :: 0 <= i < |ops| ==> Spares(ops[i], u)
  }

  /** No timer that could still remove the source's entries is alive. */
  ghost predicate Undoomed(t: Timers, source: string) {
    && (forall id :: id in t.armed ==> t.armed[id] != source)
    && (forall id :: id in t.expired ==> t.expired[id] != source)
  }

  lemma SparedEntry(st: State, op: Op, u: Sub)
    requires u in st.flat && Spares(op, u)
    requires op.RunExpired? && op.id in st.timers.expired ==> st.timers.expired[op.id] != u.source
    ensures u in Step(st, op).flat
  {
    hide ValidReason, MakeKey, TimerStep;
  }

  lemma SparedTimers(t: Timers, op: Op, u: Sub)
    requires Undoomed(t, u.source) && Spares(op, u)
    ensures Undoomed(TimerStep(t, op), u.source)
  {
    hide ValidReason, MakeKey;
  }

  lemma {:induction false} SparedRun(st: State, ops: seq<Op>, u: Sub)
    requires u in st.flat && Undoomed(st.timers, u.source) && AllSpare(ops, u)
    ensures u in Run(st, ops).flat
    decreases |ops|
  {
    hide FlatStep, TimerStep, Spares;
    if ops != [] {
      SparedEntry(st, ops[0], u);
      SparedTimers(st.timers, ops[0], u);
      SparedRun(Step(st, ops[0]), ops[1..], u);
    }
  }

  /** The only live timer of the source, if any, is the recorded one, and it is still waiting. */
  ghost predicate InTime(t: Timers, source: string) {
    && (forall id :: id in t.armed && t.armed[id] == source ==> source in t.recorded && t.recorded[source] == id)
    && (forall id :: id in t.expired ==> t.expired[id] != source)
  }

  /** Reconnecting protects the source's entries from all earlier disconnects, whatever
      happens next, exactly when it comes in time. */
  lemma ReconnectProtects(st: State, symbol: string, reason: string, mode: Mode, u: Sub)
    requires WellFormed(st) && u in st.flat && u.source != "" && ValidReason(reason)
    ensures var reconnected := Step(st, Subscribe(symbol, reason, u.source, mode));
            (forall ops :: AllSpare(ops, u) ==> u in Run(reconnected, ops).flat) <==> InTime(st.timers, u.source)
  {
    hide ValidReason, MakeKey, Run;
    var t := Step(st, Subscribe(symbol, reason, u.source, mode));
    if InTime(st.timers, u.source) {
      assert Undoomed(t.timers, u.source);
      forall ops | AllSpare(ops, u)
        ensures u in Run(t, ops).flat
      {
        SparedRun(t, ops, u);
      }
    } else if id :| id in st.timers.expired && st.timers.expired[id] == u.source {
      DoomedRun(t, id, u);
      assert AllSpare([RunExpired(id)], u);
    } else {
      var id :| id in st.timers.armed && st.timers.armed[id] == u.source
                && !(u.source in st.timers.recorded && st.timers.recorded[u.source] == id);
      DoomedRun(t, id, u);
      assert AllSpare([Expire(id), RunExpired(id)], u);
    }
  }

  lemma DoomedRun(st: State, id: nat, u: Sub)
    ensures id in st.timers.expired && st.timers.expired[id] == u.source ==> u !in Run(st, [RunExpired(id)]).flat
    ensures id in st.timers.armed && st.timers.armed[id] == u.source ==>
              u !in Run(st, [Expire(id), RunExpired(id)]).flat
  {
    hide Run;
    RunOne(st, RunExpired(id));
    RunOne(st, Expire(id));
    RunOne(Step(st, Expire(id)), RunExpired(id));
    RunConcat(st, [Expire(id)], [RunExpired(id)]);
    assert [Expire(id)] + [RunExpired(id)] == [Expire(id), RunExpired(id)];
  }

  /** A disconnect opens a window: until its timer expires, a source whose timers were in
      order keeps its entries, and a reconnect comes in time. */
  lemma {:induction false} WindowStaysOpen(st: State, ops: seq<Op>, u: Sub, id: nat)
    requires WellFormed(st) && u in st.flat && u.source != "" && AllSpare(ops, u)
    requires OnlyTimer(st.timers, u.source, id) && Expire(id) !in ops
    ensures u in Run(st, ops).flat && WellFormed(Run(st, ops)) && InTime(Run(st, ops).timers, u.source)
    decreases |ops|
  {
    hide FlatStep, TimerStep, Spares, ValidReasons, WellTimed;
    if ops != [] {
      StepWellFormed(st, ops[0]);
      SparedEntry(st, ops[0], u);
      WindowStep(st.timers, ops[0], u, id);
      WindowStaysOpen(Step(st, ops[0]), ops[1..], u, id);
    }
  }

  /** In time, and with no timer but `id`. */
  ghost predicate OnlyTimer(t: Timers, source: string, id: nat) {
    && id < t.next
    && InTime(t, source)
    && forall i :: i in t.armed && t.armed[i] == source ==> i == id
  }

  lemma WindowStep(t: Timers, op: Op, u: Sub, id: nat)
    requires u.source != "" && Spares(op, u) && op != Expire(id) && OnlyTimer(t, u.source, id)
    ensures OnlyTimer(TimerStep(t, op), u.source, id)
  {
    hide ValidReason, MakeKey;
  }

  /** Disconnect, anything that spares the entry, reconnect before the timer expires,
      anything that spares the entry: it is still there. */
  lemma {:induction false} DebounceKeepsEntries(st: State, u: Sub, during: seq<Op>, back: Op, later: seq<Op>)
    requires WellFormed(st) && u in st.flat && u.source != "" && InTime(st.timers, u.source)
    requires AllSpare(during, u) && Expire(st.timers.next) !in during && AllSpare(later, u)
    requires back.Subscribe? && back.source == u.source && ValidReason(back.reason)
    ensures u in Run(st, [Disconnect(u.source, true)] + during + [back] + later).flat
  {
    hide ValidReason, MakeKey, AllSpare, Run;
    var gone := Step(st, Disconnect(u.source, true));
    StepWellFormed(st, Disconnect(u.source, true));
    WindowStaysOpen(gone, during, u, st.timers.next);
    var t := Run(gone, during);
    ReconnectProtects(t, back.symbol, back.reason, back.mode, u);
    assert back == Subscribe(back.symbol, back.reason, u.source, back.mode);
    RunOne(st, Disconnect(u.source, true));
    RunOne(t, back);
    RunConcat(st, [Disconnect(u.source, true)], during);
    RunConcat(st, [Disconnect(u.source, true)] + during, [back]);
    RunConcat(st, [Disconnect(u.source, true)] + during + [back], later);
  }

  lemma RunOne(st: State, op: Op)
    ensures Run(st, [op]) == Step(st, op)
  {
    assert Run(st, [op]) == Run(Step(st, [op][0]), [op][1..]);
  }

  /** Cancelling comes too late for a timer that has expired: even the entry made by the
      reconnecting client is lost. */
  lemma LateReconnectLosesEntries()
    ensures var late := [Subscribe("NIFTY", "CHART_VIEW", "c", Full), Disconnect("c", true), Expire(0),
                         Subscribe("SENSEX", "CHART_VIEW", "c", Full), RunExpired(0)];
            Run(INITIAL, late).flat == map[] && Run(INITIAL, late[..4]).flat.Keys ==
              {Sub("NIFTY", "CHART_VIEW", "c"), Sub("SENSEX", "CHART_VIEW", "c")}
  {
    var late := [Subscribe("NIFTY", "CHART_VIEW", "c", Full), Disconnect("c", true), Expire(0),
                 Subscribe("SENSEX", "CHART_VIEW", "c", Full), RunExpired(0)];
    var s1 := Step(INITIAL, late[0]);
    var s2 := Step(s1, late[1]);
    var s3 := Step(s2, late[2]);
    var s4 := Step(s3, late[3]);
    var s5 := Step(s4, late[4]);
    assert s4.flat.Keys == {Sub("NIFTY", "CHART_VIEW", "c"), Sub("SENSEX", "CHART_VIEW", "c")};
    assert s5.flat == map[];
    hide Step;
    RunOne(INITIAL, late[0]);
    RunConcat(INITIAL, late[..1], late[1..2]);
    RunOne(s1, late[1]);
    RunConcat(INITIAL, late[..2], late[2..3]);
    RunOne(s2, late[2]);
    RunConcat(INITIAL, late[..3], late[3..4]);
    RunOne(s3, late[3]);
    RunConcat(INITIAL, late[..4], late[4..5]);
    RunOne(s4, late[4]);
    assert late[..1] == [late[0]] && late[1..2] == [late[1]] && late[2..3] == [late[2]];
    assert late[3..4] == [late[3]] && late[4..5] == [late[4]];
    assert late[..2] == late[..1] + late[1..2] && late[..3] == late[..2] + late[2..3];
    assert late[..4] == late[..3] + late[3..4] && late == late[..4] + late[4..5];
  }

  /** `op` neither brings the source back nor disconnects it again, and is not the end of timer `id`. */
  predicate Ignores(op: Op, source: string, id: nat) {
    && (op.Subscribe? || op.Disconnect? ==> op.source != source)
    && op != Expire(id) && op != RunExpired(id)
  }

  lemma ArmedStays(t: Timers, op: Op, source: string, id: nat)
    requires WellTimed(t) && id in t.armed && t.armed[id] == source && Ignores(op, source, id)
    ensures id in TimerStep(t, op).armed && TimerStep(t, op).armed[id] == source
  {
    hide ValidReason;
  }

  lemma {:induction false} ArmedStaysOverRun(st: State, ops: seq<Op>, source: string, id: nat)
    requires WellFormed(st) && id in st.timers.armed && st.timers.armed[id] == source
    requires forall op :: op in ops ==> Ignores(op, source, id)
    ensures var t := Run(st, ops).timers; id in t.armed && t.armed[id] == source
    decreases |ops|
  {
    hide FlatStep, TimerStep, Ignores, ValidReasons, WellTimed;
    if ops != [] {
      StepWellFormed(st, ops[0]);
      ArmedStays(st.timers, ops[0], source, id);
      ArmedStaysOverRun(Step(st, ops[0]), ops[1..], source, id);
    }
  }

  /** The delay is not for ever: a client that disconnects and stays away has no entry left
      once its timer has fired. */
  lemma {:induction false} StayingAwayRemoves(st: State, source: string, during: seq<Op>)
    requires WellFormed(st) && source != "" && forall op :: op in during ==> Ignores(op, source, st.timers.next)
    ensures var id := st.timers.next;
            forall u :: u in Run(st, [Disconnect(source, true)] + during + [Expire(id), RunExpired(id)]).flat ==> u.source != source
  {
    hide Ignores, Run, ValidReasons, WellTimed;
    var id, gone := st.timers.next, Step(st, Disconnect(source, true));
    StepWellFormed(st, Disconnect(source, true));
    ArmedStaysOverRun(gone, during, source, id);
    var t := Run(gone, during);
    var u := Step(t, Expire(id));
    RunOne(st, Disconnect(source, true));
    RunConcat(st, [Disconnect(source, true)], during);
    RunConcat(st, [Disconnect(source, true)] + during, [Expire(id), RunExpired(id)]);
    RunConcat(t, [Expire(id)], [RunExpired(id)]);
    assert [Expire(id)] + [RunExpired(id)] == [Expire(id), RunExpired(id)];
    RunOne(t, Expire(id));
    RunOne(u, RunExpired(id));
  }

  // ----- Runs in which an expiring timer gets the lock at once -----

  /** Every expiry is followed immediately by the run of its callback. */
  predicate Prompt(ops: seq<Op>) {
    ops == []
    || (!ops[0].Expire? && !ops[0].RunExpired? && Prompt(ops[1..]))
    || (|ops| >= 2 && ops[0].Expire? && ops[1] == RunExpired(ops[0].id) && Prompt(ops[2..]))
  }

  /** The registry's table and the waiting timers are inverse to each other. */
  ghost predicate OneTimerEach(t: Timers) {
    && t.expired == map[]
    && (forall s :: s in t.recorded ==> t.recorded[s] in t.armed && t.armed[t.recorded[s]] == s)
    && (forall id :: id in t.armed ==> t.armed[id] in t.recorded && t.recorded[t.armed[id]] == id)
  }

  lemma PromptStep(t: Timers, op: Op)
    requires WellTimed(t) && OneTimerEach(t) && !op.Expire? && !op.RunExpired?
    ensures OneTimerEach(TimerStep(t, op))
  {
    hide ValidReason;
  }

  lemma PromptFiring(t: Timers, id: nat)
    requires OneTimerEach(t)
    ensures OneTimerEach(TimerStep(TimerStep(t, Expire(id)), RunExpired(id)))
  {
  }

  /** In such a run a source never has a second timer, every waiting timer is the recorded
      one, and so every reconnect comes in time. */
  lemma {:induction false} PromptTimers(st: State, ops: seq<Op>)
    requires WellFormed(st) && OneTimerEach(st.timers) && Prompt(ops)
    ensures WellFormed(Run(st, ops)) && OneTimerEach(Run(st, ops).timers)
    ensures forall source :: InTime(Run(st, ops).timers, source)
    decreases |ops|
  {
    hide FlatStep, TimerStep;
    if ops != [] {
      var t := Step(st, ops[0]);
      StepWellFormed(st, ops[0]);
      if ops[0].Expire? {
        PromptFiring(st.timers, ops[0].id);
        StepWellFormed(t, ops[1]);
        assert Run(t, ops[1..]) == Run(Step(t, ops[1..][0]), ops[1..][1..]);
        assert ops[1..][1..] == ops[2..];
        PromptTimers(Step(t, ops[1]), ops[2..]);
      } else {
        PromptStep(st.timers, ops[0]);
        PromptTimers(t, ops[1..]);
      }
    }
  }

  // ----- Firing timers and other sources -----

  /** While an entry that nothing dooms is spared, its symbol is streamed and no removal of
      the symbol is reported. */
  lemma {:induction false} SparedRunHears(w: Wiring, st: State, ops: seq<Op>, u: Sub)
    requires u in st.flat && Undoomed(st.timers, u.source) && AllSpare(ops, u)
    ensures Remove !in Heard(w, st, ops, u.symbol)
    decreases |ops|
  {
    hide FlatStep, TimerStep, Spares, Highest, ModesOf;
    if ops != [] {
      SparedEntry(st, ops[0], u);
      SparedTimers(st.timers, ops[0], u);
      SparedRunHears(w, Step(st, ops[0]), ops[1..], u);
      assert u.symbol in Symbols(st.flat) && u.symbol in Symbols(Step(st, ops[0]).flat);
    }
  }

  /** The subscription comes from nobody in particular, or from a client none of whose
      timers can still fire after it. */
  ghost predicate Lasting(t: Timers, source: string) {
    source == "" || InTime(t, source)
  }

  /** Once a lasting subscription is made, the symbol is streamed and its removal is not
      reported, whatever other clients do and whichever of their timers fire, as long as
      nobody asks for this entry to be removed. */
  lemma SubscriberKeepsStream(w: Wiring, st: State, sub: Op, later: seq<Op>)
    requires WellFormed(st) && sub.Subscribe? && ValidReason(sub.reason) && Lasting(st.timers, sub.source)
    requires AllSpare(later, Sub(sub.symbol, sub.reason, sub.source))
    ensures var after := Run(Step(st, sub), later);
            Sub(sub.symbol, sub.reason, sub.source) in after.flat && sub.symbol in Active(after.flat)
    ensures Remove !in Heard(w, Step(st, sub), later, sub.symbol)
  {
    hide ValidReason, MakeKey, Run, Heard, AllSpare, ModesOf;
    var u := Sub(sub.symbol, sub.reason, sub.source);
    var t := Step(st, sub);
    assert u in t.flat && Undoomed(t.timers, u.source);
    SparedRun(t, later, u);
    SparedRunHears(w, t, later, u);
    assert u.symbol in Symbols(Run(t, later).flat);
  }

  /** A client disconnects, somebody subscribes the symbol (another client, or the same one
      back in time), and later a timer fires, that client's or any other: the symbol stays
      streamed and the firing does not report its removal. */
  lemma {:induction false} FiringSparesOthers(w: Wiring, st: State, source: string, during: seq<Op>, sub: Op, later: seq<Op>, id: nat)
    requires WellFormed(st) && sub.Subscribe? && ValidReason(sub.reason)
    requires Lasting(Run(st, [Disconnect(source, true)] + during).timers, sub.source)
    requires AllSpare(later, Sub(sub.symbol, sub.reason, sub.source))
    ensures var before := Run(st, [Disconnect(source, true)] + during + [sub] + later);
            && (id in before.timers.expired ==> !Orphaned(before.flat, sub.symbol, before.timers.expired[id]))
            && sub.symbol in Active(before.flat) && sub.symbol in Active(Step(before, RunExpired(id)).flat)
            && Remove !in StepHeard(w, before, RunExpired(id), sub.symbol)
  {
    hide ValidReason, MakeKey, Run, Active, StepHeard, WellFormed, Lasting, Step;
    var gone := Run(st, [Disconnect(source, true)] + during);
    RunWellFormed(st, [Disconnect(source, true)] + during);
    RunConcat(st, [Disconnect(source, true)] + during, [sub]);
    RunOne(gone, sub);
    RunConcat(st, [Disconnect(source, true)] + during + [sub], later);
    SubscriberKeepsStream(w, gone, sub, later);
    assert AllSpare(later + [RunExpired(id)], Sub(sub.symbol, sub.reason, sub.source));
    SubscriberKeepsStream(w, gone, sub, later + [RunExpired(id)]);
    var t, before := Step(gone, sub), Run(Step(gone, sub), later);
    RunConcat(t, later, [RunExpired(id)]);
    RunOne(before, RunExpired(id));
    HeardConcat(w, t, later, [RunExpired(id)], sub.symbol);
    HeardOne(w, before, RunExpired(id), sub.symbol);
    if id in before.timers.expired {
      SharedNotOrphaned(before, id, sub.symbol);
    }
  }

  lemma SharedNotOrphaned(st: State, id: nat, symbol: string)
    requires symbol in Active(Step(st, RunExpired(id)).flat) && id in st.timers.expired
    ensures !Orphaned(st.flat, symbol, st.timers.expired[id])
  {
    hide Highest, ModesOf;
  }
}
