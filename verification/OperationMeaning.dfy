/** What the registry's operations do to the entries, the streamed modes and the reported
    removals, spelled out entry by entry. */
module OperationMeaning {
  import opened Text
  import opened SubscriptionSpec

  // ----- Reasons -----

  /** The reasons that a subscription may give: what somebody looks at, what somebody trades,
      what the platform itself needs, and what its tests use. */
  lemma ReasonsListed(reason: string)
    ensures ValidReason(reason) <==>
              || reason in {"WATCHLIST", "WATCHLIST_VIEW", "CHART_VIEW", "DETAIL_VIEW", "DEPTH_VIEW", "OPTION_CHAIN",
                            "COMMAND_CENTER", "MARKET_UNIVERSE", "DELTA_LIVE_TAB", "DHAN_LIVE_TAB", "SSE_CLIENT_STREAM"}
              || reason in {"RUNNING_BOT", "OPEN_POSITION"}
              || reason in {"BENCHMARK", "INDEX_BENCHMARK", "SYSTEM", "SUBSCRIPTION_SYNC", "RESTORE_SUBSCRIPTIONS"}
              || reason in {"DIAGNOSTIC", "QUANTOS_DIAGNOSTIC", "LIVE_MARKET_TEST", "TEST_CLIENT", "RESILIENCE_TEST",
                            "VERIFICATION_TEST"}
  {
  }

  // ----- Modes -----

  /** The three special names, and "full" for every other one. */
  lemma ModeByName(name: string)
    ensures ParseMode(name) == Ltpc <==> name == "ltpc"
    ensures ParseMode(name) == OptionGreeks <==> name == "option_greeks"
    ensures ParseMode(name) == FullD30 <==> name == "full_d30"
    ensures ParseMode(name) == Full <==> name !in {"ltpc", "option_greeks", "full_d30"}
  {
  }

  ghost predicate Has(flat: Flat, symbol: string, mode: Mode) {
    exists u :: u in flat && u.symbol == symbol && flat[u] == mode
  }

  /** A symbol is streamed exactly while it has an entry: in full_d30 if any entry asks for
      that, else in full if any does, else in option_greeks if any does, else in ltpc. */
  lemma ActiveByName(flat: Flat, symbol: string)
    ensures symbol in Active(flat) <==> exists u :: u in flat && u.symbol == symbol
    ensures Lookup(Active(flat), symbol) == Some(FullD30) <==> Has(flat, symbol, FullD30)
    ensures Lookup(Active(flat), symbol) == Some(Full) <==> Has(flat, symbol, Full) && !Has(flat, symbol, FullD30)
    ensures Lookup(Active(flat), symbol) == Some(OptionGreeks) <==>
              Has(flat, symbol, OptionGreeks) && !Has(flat, symbol, Full) && !Has(flat, symbol, FullD30)
    ensures Lookup(Active(flat), symbol) == Some(Ltpc) <==>
              (exists u :: u in flat && u.symbol == symbol) && forall u :: u in flat && u.symbol == symbol ==> flat[u] == Ltpc
  {
    hide Has;
    forall m
      ensures Has(flat, symbol, m) <==> m in ModesOf(flat, symbol)
    {
      HasMode(flat, symbol, m);
    }
    if u :| u in flat && u.symbol == symbol {
      assert flat[u] in ModesOf(flat, symbol);
    }
    forall u | u in flat && u.symbol == symbol
      ensures Has(flat, symbol, flat[u])
    {
      HasMode(flat, symbol, flat[u]);
    }
  }

  lemma HasMode(flat: Flat, symbol: string, m: Mode)
    ensures Has(flat, symbol, m) <==> m in ModesOf(flat, symbol)
  {
  }

  // ----- Entries -----

  /** The entry a subscription makes, and that no other entry changes; on a symbol that had no
      entry its mode is what is streamed. With an invalid reason nothing happens at all. */
  lemma SubscribeMeaning(st: State, symbol: string, reason: string, source: string, name: string)
    ensures var next, made := Step(st, Subscribe(symbol, reason, source, ParseMode(name))), Sub(symbol, reason, source);
            var after := next.flat;
            if ValidReason(reason) then
              && (forall u :: u in after <==> u in st.flat || u == made)
              && (forall u :: u in st.flat && u != made ==> after[u] == st.flat[u])
              && (after[made] == Ltpc <==> name == "ltpc")
              && (after[made] == OptionGreeks <==> name == "option_greeks")
              && (after[made] == FullD30 <==> name == "full_d30")
              && (after[made] == Full <==> name !in {"ltpc", "option_greeks", "full_d30"})
              && ((forall u :: u in st.flat ==> u.symbol != symbol) ==> Lookup(Active(after), symbol) == Some(after[made]))
            else next == st
  {
    hide ValidReason, Highest, ParseMode;
    ModeByName(name);
    if ValidReason(reason) && forall u :: u in st.flat ==> u.symbol != symbol {
      OnlyEntryStreams(st.flat[Sub(symbol, reason, source) := ParseMode(name)], Sub(symbol, reason, source));
    }
  }

  lemma OnlyEntryStreams(flat: Flat, made: Sub)
    requires made in flat && forall u :: u in flat && u.symbol == made.symbol ==> u == made
    ensures Lookup(Active(flat), made.symbol) == Some(flat[made])
  {
    assert ModesOf(flat, made.symbol) == {flat[made]};
  }

  /** `after` is what is left of `before` when exactly the entries in `gone` go. */
  ghost predicate Loses(before: Flat, after: Flat, gone: Sub -> bool) {
    && (forall u :: u in after <==> u in before && !gone(u))
    && (forall u :: u in after ==> after[u] == before[u])
  }

  /** All entries of the symbol go, and it has some. */
  ghost predicate LosesAll(before: Flat, symbol: string, gone: Sub -> bool) {
    (exists u :: u in before && u.symbol == symbol) && forall u :: u in before && u.symbol == symbol ==> gone(u)
  }

  /** Clearing a reason removes exactly the entries with that reason, whoever made them. */
  lemma ClearReasonMeaning(st: State, reason: string)
    ensures Loses(st.flat, Step(st, ClearReason(reason)).flat, (u: Sub) => u.reason == reason)
  {
  }

  /** An immediate disconnect removes exactly the entries with that source; an anonymous or a
      debounced one removes nothing yet. */
  lemma DisconnectMeaning(st: State, source: string, debounced: bool)
    ensures if source == "" || debounced then Step(st, Disconnect(source, debounced)).flat == st.flat
            else Loses(st.flat, Step(st, Disconnect(source, debounced)).flat, (u: Sub) => u.source == source)
  {
  }

  /** A firing timer removes exactly the entries with its source. */
  lemma FiringMeaning(st: State, id: nat)
    ensures Loses(st.flat, Step(st, RunExpired(id)).flat,
                  (u: Sub) => id in st.timers.expired && u.source == st.timers.expired[id])
  {
  }

  /** An unsubscribe call removes the entries whose key reads like its own or, when there is
      none, those of its reason and, if it names one, its source. */
  lemma UnsubscribeMeaning(st: State, symbol: string, reason: string, source: string)
    ensures var key := (r: string, s: string) => if s == "" then r else r + "::" + s;
            var exact := exists v :: v in st.flat && v.symbol == symbol && key(v.reason, v.source) == key(reason, source);
            Loses(st.flat, Step(st, Unsubscribe(symbol, reason, source)).flat,
                  (u: Sub) => u.symbol == symbol
                       && if exact then key(u.reason, u.source) == key(reason, source)
                          else u.reason == reason && (source == "" || u.source == source))
  {
    var key := (r: string, s: string) => if s == "" then r else r + "::" + s;
    var filed := FiledUnder(st.flat, symbol, MakeKey(reason, source));
    assert forall v :: v in filed <==> v in st.flat && v.symbol == symbol && key(v.reason, v.source) == key(reason, source);
  }

  // ----- Reports -----

  /** A removal is reported for exactly the symbols that lose all their entries. */
  lemma {:induction false} LossesReported(evs: seq<Callback>, w: Wiring, st: State, op: Op, gone: Sub -> bool)
    requires Says(evs, w, st, op) && Loses(st.flat, Step(st, op).flat, gone)
    ensures forall s :: Remove in History(evs, s) <==>
              (w.remove || (w.batchRemove && (op.Disconnect? || op.RunExpired?))) && LosesAll(st.flat, s, gone)
  {
    hide Step, Highest, ModesOf, History;
    var before, after := st.flat, Step(st, op).flat;
    forall s
      ensures Remove in History(evs, s) <==>
                (w.remove || (w.batchRemove && (op.Disconnect? || op.RunExpired?))) && LosesAll(before, s, gone)
    {
      assert History(evs, s) == Delta(w, RemovalSeen(w, op), Lookup(Active(before), s), Lookup(Active(after), s));
      StillHeld(before, after, gone, s);
    }
  }

  lemma StillHeld(before: Flat, after: Flat, gone: Sub -> bool, s: string)
    requires Loses(before, after, gone)
    ensures s in Active(before) && s !in Active(after) <==> LosesAll(before, s, gone)
    ensures s in Active(after) ==> s in Active(before)
  {
    hide Highest, ModesOf;
    if s in Active(after) {
      var u :| u in after && u.symbol == s;
      assert u in before && !gone(u);
    }
  }

  // ----- Callbacks -----

  /** Some callback tells that the symbol is no longer streamed. */
  predicate TellsRemoval(cb: Callback, s: string) {
    cb == Removed(s) || (cb.BatchRemoved? && s in cb.symbols)
  }

  lemma {:induction false} ChangesTold(evs: seq<Callback>, s: string, m: Mode)
    ensures Added(s, m) in evs <==> Add(m) in History(evs, s)
    ensures ModeChanged(s, m) in evs <==> Switch(m) in History(evs, s)
    ensures (exists cb :: cb in evs && TellsRemoval(cb, s)) <==> Remove in History(evs, s)
  {
    if evs != [] {
      var init, last := evs[..|evs| - 1], evs[|evs| - 1];
      ChangesTold(init, s, m);
      assert evs == init + [last];
      assert last in evs;
      if last.BatchRemoved? {
        RemovalListed(last.symbols, s);
      }
      assert forall cb :: cb in evs <==> cb in init || cb == last;
    }
  }

  lemma {:induction false} RemovalListed(symbols: seq<string>, s: string)
    ensures forall c :: c in Occurrences(symbols, s) <==> c == Remove && s in symbols
  {
    if symbols != [] {
      RemovalListed(symbols[..|symbols| - 1], s);
      assert symbols == symbols[..|symbols| - 1] + [symbols[|symbols| - 1]];
    }
  }

  /** Which callbacks an operation fires, each on its own wire: an add for a newly streamed
      symbol, a mode change for a symbol streamed in another mode, a removal for a symbol no
      longer streamed, and nothing else. */
  lemma {:induction false} CallbacksExactly(evs: seq<Callback>, w: Wiring, st: State, op: Op)
    requires Says(evs, w, st, op)
    ensures var before, after := Active(st.flat), Active(Step(st, op).flat);
            forall s, m ::
              && (Added(s, m) in evs <==> w.add && s !in before && s in after && after[s] == m)
              && (ModeChanged(s, m) in evs <==> w.modeChange && s in before && s in after && before[s] != m && after[s] == m)
              && ((exists cb :: cb in evs && TellsRemoval(cb, s)) <==>
                    (w.remove || (w.batchRemove && (op.Disconnect? || op.RunExpired?))) && s in before && s !in after)
  {
    hide Active, Step, History;
    var before, after := Active(st.flat), Active(Step(st, op).flat);
    forall s, m: Mode
      ensures Added(s, m) in evs <==> w.add && s !in before && s in after && after[s] == m
      ensures ModeChanged(s, m) in evs <==> w.modeChange && s in before && s in after && before[s] != m && after[s] == m
      ensures (exists cb :: cb in evs && TellsRemoval(cb, s)) <==>
                (w.remove || (w.batchRemove && (op.Disconnect? || op.RunExpired?))) && s in before && s !in after
    {
      ChangesTold(evs, s, m);
      assert History(evs, s) == Delta(w, RemovalSeen(w, op), Lookup(before, s), Lookup(after, s));
    }
  }
}
