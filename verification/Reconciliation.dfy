/** Reconciliation of the trade ledger: three bulk updates of the table of trades. */
module Reconciliation {
  import opened Text

  datatype Status = Open | Running | Partial | Closed | OtherStatus(name: string)

  datatype Row = Row(id: int, bot: Option<string>, symbol: string, side: Option<string>, status: Status,
                     timestamp: string, exitTimestamp: Option<string>, exitReason: Option<string>)

  predicate IsOpen(r: Row) {
    r.status.Open? || r.status.Running? || r.status.Partial?
  }

  predicate IsSell(r: Row) {
    r.side == Some("SELL")
  }

  const EXPIRY_MARKERS: seq<string> := [
    "2026-10-13", "131026", "2026-10-14", "141026", "2026-10-15", "151026", "2026-10-16", "161026",
    "2026-10-17", "171026", "2026-10-18", "181026", "2026-10-19", "191026", "2026-10-20", "201026",
    "2026-10-21", "211026", "2026-10-22", "221026"
  ]

  predicate Contains(s: string, part: string) {
    exists i :: 0 <= i <= |s| && At(s, i, part)
  }

  predicate IsExpired(r: Row) {
    exists m :: m in EXPIRY_MARKERS && Contains(r.symbol, m)
  }

  predicate SameGroup(r: Row, s: Row) {
    r.bot == s.bot && r.symbol == s.symbol
  }

  function Close(r: Row, at: string, reason: string): Row {
    r.(status := Closed, exitTimestamp := Some(at), exitReason := Some(reason))
  }

  // ----- The closed form -----

  predicate Survives(r: Row) {
    IsOpen(r) && !IsSell(r) && !IsExpired(r)
  }

  /** A later surviving row of the same bot and symbol exists. */
  ghost predicate Superseded(rows: seq<Row>, r: Row) {
    exists j :: 0 <= j < |rows| && Survives(rows[j]) && SameGroup(rows[j], r) && rows[j].id > r.id
  }

  ghost function Settled(rows: seq<Row>, r: Row, now: string): Row {
    if !IsOpen(r) then r
    else if IsSell(r) then Close(r, r.timestamp, "POSITION_CLOSED")
    else if IsExpired(r) then Close(r, "2026-10-22T00:00:00Z", "CONTRACT_EXPIRED")
    else if Superseded(rows, r) then Close(r, now, "RECONCILED_HISTORICAL")
    else r
  }

  ghost predicate Reconciled(before: seq<Row>, after: seq<Row>, now: string) {
    |after| == |before| && forall i :: 0 <= i < |before| ==> after[i] == Settled(before, before[i], now)
  }

  /** Exactly the latest survivor of each bot and symbol stays open. */
  lemma OpenAfterwards(before: seq<Row>, after: seq<Row>, now: string, i: nat)
    requires Reconciled(before, after, now) && i < |before|
    ensures IsOpen(after[i]) <==> Survives(before[i]) && !Superseded(before, before[i])
    ensures IsOpen(after[i]) ==> after[i] == before[i]
  {
    hide IsExpired, IsSell, Superseded;
  }

  /** No two rows of one bot and symbol stay open. */
  lemma OneOpenPerGroup(before: seq<Row>, after: seq<Row>, now: string, i: nat, j: nat)
    requires Reconciled(before, after, now) && i < |after| && j < |after|
    requires IsOpen(after[i]) && IsOpen(after[j])
    requires after[i].bot == after[j].bot && after[i].symbol == after[j].symbol
    ensures after[i].id == after[j].id
  {
  }

  /** Every bot and symbol with a survivor keeps an open row. */
  lemma {:induction false} GroupKeepsOne(before: seq<Row>, after: seq<Row>, now: string, i: nat, top: int)
    requires Reconciled(before, after, now) && i < |before| && Survives(before[i])
    requires forall k :: 0 <= k < |before| ==> before[k].id <= top
    ensures exists k :: 0 <= k < |after| && IsOpen(after[k]) && after[k].bot == before[i].bot && after[k].symbol == before[i].symbol
    decreases top - before[i].id
  {
    hide IsExpired, IsSell;
    OpenAfterwards(before, after, now, i);
    if Superseded(before, before[i]) {
      var j :| 0 <= j < |before| && Survives(before[j]) && SameGroup(before[j], before[i]) && before[j].id > before[i].id;
      GroupKeepsOne(before, after, now, j, top);
    }
  }

  /** Reconciling again closes nothing. */
  lemma SecondRunChangesNothing(before: seq<Row>, after: seq<Row>, now: string, again: seq<Row>, later: string)
    requires Reconciled(before, after, now) && Reconciled(after, again, later)
    ensures again == after
  {
  }

  // ----- Bulk updates -----

  function Count(rows: seq<Row>, p: Row -> bool): nat {
    if rows == [] then 0 else Count(rows[..|rows| - 1], p) + (if p(rows[|rows| - 1]) then 1 else 0)
  }

  ghost predicate Updated(before: seq<Row>, after: seq<Row>, hit: Row -> bool, set_: Row -> Row) {
    |after| == |before| && forall i :: 0 <= i < |before| ==> after[i] == if hit(before[i]) then set_(before[i]) else before[i]
  }

  /** An update that closes some open rows lowers the open count by its row count. */
  lemma {:induction false} UpdateLowersOpen(before: seq<Row>, after: seq<Row>, hit: Row -> bool, set_: Row -> Row)
    requires Updated(before, after, hit, set_)
    requires forall r :: hit(r) ==> IsOpen(r) && !IsOpen(set_(r))
    ensures Count(before, IsOpen) == Count(after, IsOpen) + Count(before, hit)
  {
    if before != [] {
      var n := |before| - 1;
      UpdateLowersOpen(before[..n], after[..n], hit, set_);
    }
  }

  /** `UPDATE ... SET ... WHERE hit`, returning the row count. */
  method Update(rows: array<Row>, hit: Row -> bool, set_: Row -> Row) returns (rowcount: nat)
    modifies rows
    ensures Updated(old(rows[..]), rows[..], hit, set_)
    ensures rowcount == Count(old(rows[..]), hit)
  {
    rowcount := 0;
    ghost var before := rows[..];
    for i := 0 to rows.Length
      invariant rowcount == Count(before[..i], hit)
      invariant Updated(before[..i], rows[..i], hit, set_)
      invariant rows[i..] == before[i..]
    {
      assert before[..i + 1][..i] == before[..i] && rows[i] == before[i];
      if hit(rows[i]) {
        rows[i] := set_(rows[i]);
        rowcount := rowcount + 1;
      }
      assert rows[..i + 1] == rows[..i] + [rows[i]];
    }
    assert before[..rows.Length] == before && rows[..rows.Length] == rows[..];
  }

  method CountOpen(rows: array<Row>) returns (n: nat)
    ensures n == Count(rows[..], IsOpen)
  {
    n := 0;
    for i := 0 to rows.Length
      invariant n == Count(rows[..i], IsOpen)
    {
      assert rows[..i + 1][..i] == rows[..i];
      if IsOpen(rows[i]) {
        n := n + 1;
      }
    }
    assert rows[..rows.Length] == rows[..];
  }

  /** `SELECT MAX(id) ... WHERE open GROUP BY bot, symbol` */
  method LatestIds(rows: array<Row>) returns (ids: set<int>)
    ensures forall id :: id in ids <==> exists i :: 0 <= i < rows.Length && rows[i].id == id && LatestOpen(rows[..], rows[i])
  {
    ids := {};
    for i := 0 to rows.Length
      invariant forall id :: id in ids <==> exists k :: 0 <= k < i && rows[k].id == id && LatestOpen(rows[..], rows[k])
    {
      if LatestOpen(rows[..], rows[i]) {
        ids := ids + {rows[i].id};
      }
    }
  }

  predicate LatestOpen(rows: seq<Row>, r: Row) {
    IsOpen(r) && forall j :: 0 <= j < |rows| && IsOpen(rows[j]) && SameGroup(rows[j], r) ==> rows[j].id <= r.id
  }

  ghost predicate DistinctIds(rows: seq<Row>) {
    forall i, j :: 0 <= i < j < |rows| ==> rows[i].id != rows[j].id
  }

  // ----- The three updates -----

  function SellHit(r: Row): bool {
    IsOpen(r) && IsSell(r)
  }

  function SellClose(r: Row): Row {
    Close(r, r.timestamp, "POSITION_CLOSED")
  }

  function ExpiredHit(r: Row): bool {
    IsOpen(r) && IsExpired(r)
  }

  function ExpiredClose(r: Row): Row {
    Close(r, "2026-10-22T00:00:00Z", "CONTRACT_EXPIRED")
  }

  /** After the first two updates the open rows are the survivors. */
  lemma FirstTwo(r0: seq<Row>, r1: seq<Row>, r2: seq<Row>)
    requires Updated(r0, r1, SellHit, SellClose) && Updated(r1, r2, ExpiredHit, ExpiredClose)
    ensures |r2| == |r0|
    ensures forall i :: 0 <= i < |r0| ==>
              && r2[i].id == r0[i].id && SameGroup(r2[i], r0[i]) && (IsOpen(r2[i]) <==> Survives(r0[i]))
              && r2[i] == if SellHit(r0[i]) then SellClose(r0[i]) else if ExpiredHit(r0[i]) then ExpiredClose(r0[i]) else r0[i]
  {
    hide Contains;
  }

  /** With distinct ids, a row is among the latest exactly when nothing supersedes it. */
  lemma LatestUnsuperseded(r0: seq<Row>, r1: seq<Row>, r2: seq<Row>, latest: set<int>, i: nat)
    requires Updated(r0, r1, SellHit, SellClose) && Updated(r1, r2, ExpiredHit, ExpiredClose)
    requires DistinctIds(r0) && i < |r0| && Survives(r0[i])
    requires forall id :: id in latest <==> exists k :: 0 <= k < |r2| && r2[k].id == id && LatestOpen(r2, r2[k])
    ensures r0[i].id in latest <==> !Superseded(r0, r0[i])
  {
    hide Survives, SellHit, ExpiredHit, SellClose, ExpiredClose, Updated;
    FirstTwo(r0, r1, r2);
    if r0[i].id in latest {
      var k :| 0 <= k < |r2| && r2[k].id == r0[i].id && LatestOpen(r2, r2[k]);
      assert k == i;
    } else {
      assert !LatestOpen(r2, r2[i]);
      var j :| 0 <= j < |r2| && IsOpen(r2[j]) && SameGroup(r2[j], r2[i]) && r2[j].id > r2[i].id;
      assert Survives(r0[j]) && SameGroup(r0[j], r0[i]) && r0[j].id > r0[i].id;
    }
  }

  lemma ThreePasses(r0: seq<Row>, r1: seq<Row>, r2: seq<Row>, r3: seq<Row>, latest: set<int>, now: string)
    requires Updated(r0, r1, SellHit, SellClose) && Updated(r1, r2, ExpiredHit, ExpiredClose)
    requires Updated(r2, r3, (r: Row) => IsOpen(r) && r.id !in latest, (r: Row) => Close(r, now, "RECONCILED_HISTORICAL"))
    requires DistinctIds(r0)
    requires forall id :: id in latest <==> exists k :: 0 <= k < |r2| && r2[k].id == id && LatestOpen(r2, r2[k])
    ensures Reconciled(r0, r3, now)
  {
    hide IsExpired, IsSell, Superseded, LatestOpen;
    FirstTwo(r0, r1, r2);
    forall i | 0 <= i < |r0|
      ensures r3[i] == Settled(r0, r0[i], now)
    {
      if Survives(r0[i]) {
        LatestUnsuperseded(r0, r1, r2, latest, i);
      }
    }
  }

  // ----- In plain terms -----

  function TwoDigits(d: nat): string
    requires d < 100
  {
    ["0123456789"[d / 10], "0123456789"[d % 10]]
  }

  /** The symbol names one of the days from 13 to 22 October 2026, in either notation. */
  ghost predicate NamesExpiredDay(symbol: string) {
    exists d: nat, p: nat :: 13 <= d <= 22 && (At(symbol, p, "2026-10-" + TwoDigits(d)) || At(symbol, p, TwoDigits(d) + "1026"))
  }

  /** The status as the updates select it, spelled out. */
  ghost predicate Undone(r: Row) {
    r.status == Open || r.status == Running || r.status == Partial
  }

  /** The row is open, no sale, and not on a contract that has expired. */
  ghost predicate StillHeld(r: Row) {
    && Undone(r)
    && r.side != Some("SELL")
    && !NamesExpiredDay(r.symbol)
  }

  /** A row with a greater id for the same bot and the same symbol is still held, too. */
  ghost predicate Outdated(rows: seq<Row>, r: Row) {
    exists j :: 0 <= j < |rows| && StillHeld(rows[j])
      && rows[j].bot == r.bot && rows[j].symbol == r.symbol && rows[j].id > r.id
  }

  lemma MarkerOfDay(d: nat)
    requires 13 <= d <= 22
    ensures "2026-10-" + TwoDigits(d) == EXPIRY_MARKERS[2 * (d - 13)]
    ensures TwoDigits(d) + "1026" == EXPIRY_MARKERS[2 * (d - 13) + 1]
  {
    if d == 13 {
    } else if d == 14 {
    } else if d == 15 {
    } else if d == 16 {
    } else if d == 17 {
    } else if d == 18 {
    } else if d == 19 {
    } else if d == 20 {
    } else if d == 21 {
    } else {
      assert d == 22;
    }
  }

  /** The markers are exactly the two notations of those ten days. */
  lemma MarkersAreDays(m: string)
    ensures m in EXPIRY_MARKERS <==>
              exists d: nat :: 13 <= d <= 22 && (m == "2026-10-" + TwoDigits(d) || m == TwoDigits(d) + "1026")
  {
    hide TwoDigits;
    assert |EXPIRY_MARKERS| == 20;
    if m in EXPIRY_MARKERS {
      var k :| 0 <= k < |EXPIRY_MARKERS| && EXPIRY_MARKERS[k] == m;
      var d: nat := 13 + k / 2;
      MarkerOfDay(d);
      assert k == 2 * (d - 13) || k == 2 * (d - 13) + 1;
    }
    if d: nat :| 13 <= d <= 22 && (m == "2026-10-" + TwoDigits(d) || m == TwoDigits(d) + "1026") {
      MarkerOfDay(d);
    }
  }

  lemma ExpiredMeaning(r: Row)
    ensures IsExpired(r) <==> NamesExpiredDay(r.symbol)
  {
    hide TwoDigits, At;
    if IsExpired(r) {
      var m :| m in EXPIRY_MARKERS && Contains(r.symbol, m);
      MarkersAreDays(m);
    }
    if d: nat, p: nat :| 13 <= d <= 22 && (At(r.symbol, p, "2026-10-" + TwoDigits(d)) || At(r.symbol, p, TwoDigits(d) + "1026")) {
      AtFits(r.symbol, p, "2026-10-" + TwoDigits(d));
      AtFits(r.symbol, p, TwoDigits(d) + "1026");
      MarkersAreDays("2026-10-" + TwoDigits(d));
      MarkersAreDays(TwoDigits(d) + "1026");
    }
  }

  lemma AtFits(s: string, p: nat, part: string)
    ensures At(s, p, part) ==> Contains(s, part)
  {
  }

  /** What becomes of each row: it stays open exactly when it is still held and not outdated,
      and every row that is closed says when and why. */
  lemma {:induction false} FateOfRow(before: seq<Row>, after: seq<Row>, now: string, i: nat)
    requires Reconciled(before, after, now) && i < |before|
    ensures var r := before[i];
            after[i] ==
              if !Undone(r) || (StillHeld(r) && !Outdated(before, r)) then r
              else if r.side == Some("SELL") then
                Row(r.id, r.bot, r.symbol, r.side, Closed, r.timestamp, Some(r.timestamp), Some("POSITION_CLOSED"))
              else if NamesExpiredDay(r.symbol) then
                Row(r.id, r.bot, r.symbol, r.side, Closed, r.timestamp, Some("2026-10-22T00:00:00Z"), Some("CONTRACT_EXPIRED"))
              else
                Row(r.id, r.bot, r.symbol, r.side, Closed, r.timestamp, Some(now), Some("RECONCILED_HISTORICAL"))
    ensures Undone(after[i])
            <==> StillHeld(before[i]) && !Outdated(before, before[i])
  {
    hide IsExpired, NamesExpiredDay;
    ExpiredMeaning(before[i]);
    OutdatedMeaning(before, before[i]);
    assert after[i] == Settled(before, before[i], now);
  }

  lemma OutdatedMeaning(rows: seq<Row>, r: Row)
    ensures Outdated(rows, r) <==> Superseded(rows, r)
  {
    hide IsExpired, NamesExpiredDay;
    forall j | 0 <= j < |rows|
      ensures StillHeld(rows[j]) <==> Survives(rows[j])
    {
      ExpiredMeaning(rows[j]);
    }
  }

  lemma {:induction false} CountMeaning(rows: seq<Row>, p: Row -> bool)
    ensures Count(rows, p) == |set i | 0 <= i < |rows| && p(rows[i])|
  {
    if rows != [] {
      var n := |rows| - 1;
      CountMeaning(rows[..n], p);
      var init, all := set i | 0 <= i < n && p(rows[..n][i]), set i | 0 <= i < |rows| && p(rows[i]);
      assert n !in init && all == if p(rows[n]) then init + {n} else init;
    }
  }

  lemma {:induction false} CountAgrees(a: seq<Row>, p: Row -> bool, b: seq<Row>, q: Row -> bool)
    requires |a| == |b| && forall i :: 0 <= i < |a| ==> (p(a[i]) <==> q(b[i]))
    ensures Count(a, p) == Count(b, q)
  {
    if a != [] {
      var n := |a| - 1;
      CountAgrees(a[..n], p, b[..n], q);
    }
  }

  /** Which rows of the original table each update closes. */
  lemma ClosedCounted(r0: seq<Row>, r1: seq<Row>, r2: seq<Row>, r3: seq<Row>, latest: set<int>)
    requires Updated(r0, r1, SellHit, SellClose) && Updated(r1, r2, ExpiredHit, ExpiredClose) && DistinctIds(r0)
    requires forall id :: id in latest <==> exists k :: 0 <= k < |r2| && r2[k].id == id && LatestOpen(r2, r2[k])
    ensures Count(r0, SellHit) == Count(r0, (r: Row) => Undone(r) && r.side == Some("SELL"))
    ensures Count(r1, ExpiredHit) == Count(r0, (r: Row) => Undone(r) && r.side != Some("SELL") && NamesExpiredDay(r.symbol))
    ensures Count(r2, (r: Row) => IsOpen(r) && r.id !in latest) == Count(r0, (r: Row) => StillHeld(r) && Outdated(r0, r))
  {
    hide IsExpired, NamesExpiredDay, LatestOpen, Count, DistinctIds, Outdated, Superseded;
    FirstTwo(r0, r1, r2);
    forall i | 0 <= i < |r0|
      ensures ExpiredHit(r1[i]) <==> Undone(r0[i]) && r0[i].side != Some("SELL") && NamesExpiredDay(r0[i].symbol)
      ensures IsOpen(r2[i]) && r2[i].id !in latest <==> StillHeld(r0[i]) && Outdated(r0, r0[i])
    {
      ExpiredMeaning(r0[i]);
      OutdatedMeaning(r0, r0[i]);
      if Survives(r0[i]) {
        LatestUnsuperseded(r0, r1, r2, latest, i);
      }
    }
    CountAgrees(r0, SellHit, r0, (r: Row) => Undone(r) && r.side == Some("SELL"));
    CountAgrees(r1, ExpiredHit, r0, (r: Row) => Undone(r) && r.side != Some("SELL") && NamesExpiredDay(r.symbol));
    CountAgrees(r2, (r: Row) => IsOpen(r) && r.id !in latest, r0, (r: Row) => StillHeld(r) && Outdated(r0, r));
  }

  /** The three updates produce the closed form, and every row they close is counted. */
  method Reconcile(rows: array<Row>, now: string)
    returns (before: nat, sells: nat, expired: nat, duplicates: nat, after: nat)
    requires DistinctIds(rows[..])
    modifies rows
    ensures Reconciled(old(rows[..]), rows[..], now)
    ensures before == Count(old(rows[..]), IsOpen) && after == Count(rows[..], IsOpen)
    ensures before == after + sells + expired + duplicates
    ensures forall i :: 0 <= i < rows.Length ==>
              (Undone(rows[i]) <==> StillHeld(old(rows[..])[i]) && !Outdated(old(rows[..]), old(rows[..])[i]))
    ensures sells == Count(old(rows[..]), (r: Row) => Undone(r) && r.side == Some("SELL"))
    ensures expired == Count(old(rows[..]), (r: Row) => Undone(r) && r.side != Some("SELL") && NamesExpiredDay(r.symbol))
    ensures duplicates == Count(old(rows[..]), (r: Row) => StillHeld(r) && Outdated(old(rows[..]), r))
  {
    hide IsExpired, IsSell, Count, Updated, Reconciled, LatestOpen, Undone, StillHeld, Outdated, NamesExpiredDay;
    before := CountOpen(rows);
    ghost var r0 := rows[..];
    sells := Update(rows, SellHit, SellClose);
    ghost var r1 := rows[..];
    UpdateLowersOpen(r0, r1, SellHit, SellClose);

    expired := Update(rows, ExpiredHit, ExpiredClose);
    ghost var r2 := rows[..];
    UpdateLowersOpen(r1, r2, ExpiredHit, ExpiredClose);

    var latest := LatestIds(rows);
    var staleHit := (r: Row) => IsOpen(r) && r.id !in latest;
    var staleClose := (r: Row) => Close(r, now, "RECONCILED_HISTORICAL");
    assert forall id :: id in latest <==> exists k :: 0 <= k < |r2| && r2[k].id == id && LatestOpen(r2, r2[k]);
    duplicates := Update(rows, staleHit, staleClose);
    ghost var r3 := rows[..];
    UpdateLowersOpen(r2, r3, staleHit, staleClose);
    ThreePasses(r0, r1, r2, r3, latest, now);
    after := CountOpen(rows);
    ClosedCounted(r0, r1, r2, r3, latest);
    forall i | 0 <= i < |r0|
      ensures Undone(r3[i]) <==> StillHeld(r0[i]) && !Outdated(r0, r0[i])
    {
      FateOfRow(r0, r3, now, i);
    }
  }
}
