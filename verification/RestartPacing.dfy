/** How often the supervisor can restart a service, over every run. */
module RestartPacing {
  import opened SupervisorSpec

  datatype Restart = Restart(at: real, attempt: nat)

  /** The restarts of one service, in order; the initial launch does not count. */
  function Restarts(log: seq<Event>, n: Name): seq<Restart> {
    if log == [] then []
    else
      Restarts(log[..|log| - 1], n)
      + match log[|log| - 1]
        case Launched(m, at, attempt) => (if m == n && attempt > 0 then [Restart(at, attempt)] else [])
        case _ => []
  }

  /** Restart `b` follows restart `a`: the next attempt after its back-off and one loop
      sleep, or the first attempt again after a stable run. */
  predicate Follows(a: Restart, b: Restart) {
    && 1 <= b.attempt <= MAX_RESTARTS
    && ((b.attempt == a.attempt + 1 && b.at >= a.at + 1.0 + BACKOFF[b.attempt - 1])
        || (b.attempt == 1 && b.at > a.at + STABLE_RUN + BACKOFF[0]))
  }

  ghost predicate Spaced(rs: seq<Restart>) {
    && (rs != [] ==> rs[0].attempt == 1)
    && forall i :: 0 < i < |rs| ==> Follows(rs[i - 1], rs[i])
  }

  /** What the loop keeps about one service; `floor` is a time by which a second has passed
      since its last restart. */
  ghost predicate Paced(sys: System, n: Name, floor: real) {
    var rs, s := Restarts(sys.log, n), sys.Get(n);
    && Spaced(rs)
    && (rs == [] ==> s.restartCount == 0)
    && (rs != [] ==>
          var last := rs[|rs| - 1];
          && s.lastStart == last.at && last.at + 1.0 <= floor && 1 <= last.attempt <= MAX_RESTARTS
          && last.attempt <= s.restartCount && (s.restartCount != last.attempt ==> last.attempt == MAX_RESTARTS))
  }

  lemma RestartsSnoc(log: seq<Event>, e: Event, n: Name)
    ensures Restarts(log + [e], n) ==
              Restarts(log, n)
              + if e.Launched? && e.name == n && e.attempt > 0 then [Restart(e.at, e.attempt)] else []
  {
    assert (log + [e])[..|log|] == log;
  }

  /** `t` differs from `sys` in nothing that concerns the restarts of `n`, and is not earlier. */
  ghost predicate Keeps(sys: System, t: System, n: Name) {
    && Restarts(t.log, n) == Restarts(sys.log, n)
    && t.clock >= sys.clock
    && t.Get(n).restartCount == sys.Get(n).restartCount
    && t.Get(n).lastStart == sys.Get(n).lastStart
  }

  lemma SayKeeps(sys: System, e: Event, n: Name)
    requires !(e.Launched? && e.name == n && e.attempt > 0)
    ensures Keeps(sys, sys.Say(e), n)
  {
    RestartsSnoc(sys.log, e, n);
  }

  lemma ProbeKeeps(sys: System, m: Name, passed: bool, n: Name)
    ensures Keeps(sys, Probe(sys, m, passed), n)
  {
    SayKeeps(sys, Probed(m, passed), n);
  }

  lemma {:induction false} AwaitKeeps(sys: System, m: Name, polls: seq<Poll>, retries: nat, n: Name)
    ensures Keeps(sys, Await(sys, m, polls, retries), n)
    decreases retries
  {
    if !(retries == 0 || polls == [] || polls[0].Exited?) {
      ProbeKeeps(sys, m, polls[0].passed, n);
      if !polls[0].passed {
        AwaitKeeps(Probe(sys, m, polls[0].passed).Wait(polls[0].lag).Wait(0.5), m, polls[1..], retries - 1, n);
      }
    }
  }

  lemma CheckKeeps(sys: System, m: Name, passed: bool, n: Name)
    ensures Keeps(sys, Check(sys, m, passed), n)
  {
    ProbeKeeps(sys, m, passed, n);
  }

  lemma EvaluateKeeps(sys: System, b: bool, g: bool, f: bool, n: Name)
    ensures Keeps(sys, Evaluate(sys, b, g, f), n)
  {
    hide Restarts, Check;
    var t1 := Check(sys, Backend, b);
    var t2 := Check(t1, Gateway, g);
    var t := Check(t2, Frontend, f);
    CheckKeeps(sys, Backend, b, n);
    CheckKeeps(t1, Gateway, g, n);
    CheckKeeps(t2, Frontend, f, n);
    var ready := t.backend.healthy && t.gateway.healthy;
    SayKeeps(t.(ready := ready), Evaluated(ready), n);
    SayKeeps(t.(ready := ready).Say(Evaluated(ready)), FailClosed, n);
    SayKeeps(t.(ready := ready).Say(Evaluated(ready)), Operational, n);
  }

  // ----- One visit -----

  lemma VisitKeepsOthers(sys: System, m: Name, now: real, v: Visit, n: Name)
    requires m != n
    ensures Keeps(sys, VisitService(sys, m, now, v).0, n)
  {
    hide Restarts, Await;
    if v.Dead? {
      var attempt := Attempt(sys.Get(m), now);
      if attempt > MAX_RESTARTS {
        SayKeeps(sys.Put(m, sys.Get(m).(restartCount := attempt)), Halted(m), n);
      } else {
        var u := sys.Wait(BACKOFF[attempt - 1] + v.lag);
        SayKeeps(u.Put(m, Service(attempt, u.clock, false)), Launched(m, u.clock, attempt), n);
        AwaitKeeps(Start(u, m, attempt), m, v.polls, 20, n);
      }
    }
  }

  /** A service found dead is launched exactly when its last start is stable or it has a
      restart left; "halted" lasts only until the last start is 30 seconds old. */
  lemma LaunchedUnlessExhausted(sys: System, n: Name, now: real, v: Visit)
    requires v.Dead?
    ensures var t := VisitService(sys, n, now, v).0;
            Restarts(t.log, n) != Restarts(sys.log, n)
            <==> now - sys.Get(n).lastStart > 30.0 || sys.Get(n).restartCount < 5
  {
    hide Restarts, Await;
    var attempt := Attempt(sys.Get(n), now);
    if attempt > MAX_RESTARTS {
      SayKeeps(sys.Put(n, sys.Get(n).(restartCount := attempt)), Halted(n), n);
    } else {
      var u := sys.Wait(BACKOFF[attempt - 1] + v.lag);
      RestartsSnoc(sys.log, Launched(n, u.clock, attempt), n);
      AwaitKeeps(Start(u, n, attempt), n, v.polls, 20, n);
    }
  }

  /** Visiting a paced service keeps it paced, with its last restart now up to the clock. */
  lemma VisitPaces(sys: System, n: Name, now: real, v: Visit)
    requires Paced(sys, n, now) && now <= sys.clock
    ensures var t := VisitService(sys, n, now, v).0;
            Paced(t, n, t.clock + 1.0) && t.clock >= sys.clock
  {
    hide Restarts, Await;
    if v.Dead? {
      var s := sys.Get(n);
      var attempt := Attempt(s, now);
      if attempt > MAX_RESTARTS {
        SayKeeps(sys.Put(n, s.(restartCount := attempt)), Halted(n), n);
      } else {
        var u := sys.Wait(BACKOFF[attempt - 1] + v.lag);
        var t := Start(u, n, attempt);
        RestartsSnoc(sys.log, Launched(n, u.clock, attempt), n);
        SpacedSnoc(Restarts(sys.log, n), Restart(u.clock, attempt));
        AwaitKeeps(t, n, v.polls, 20, n);
      }
    }
  }

  lemma SpacedSnoc(rs: seq<Restart>, r: Restart)
    requires Spaced(rs) && (if rs == [] then r.attempt == 1 else Follows(rs[|rs| - 1], r))
    ensures Spaced(rs + [r])
  {
    forall i | 0 < i < |rs + [r]|
      ensures Follows((rs + [r])[i - 1], (rs + [r])[i])
    {
      if i < |rs| {
        assert Follows(rs[i - 1], rs[i]);
      }
    }
  }

  // ----- Passes and runs -----

  lemma KeepsPaced(sys: System, t: System, n: Name, floor: real, floor': real)
    requires Paced(sys, n, floor) && Keeps(sys, t, n) && floor <= floor'
    ensures Paced(t, n, floor')
  {
    hide Spaced, Restarts;
  }

  lemma PacedLater(sys: System, n: Name, floor: real, floor': real)
    requires Paced(sys, n, floor) && floor <= floor'
    ensures Paced(sys, n, floor')
  {
    hide Spaced, Restarts;
  }

  /** One visit of a sweep that started at `now`; `visited` tells whether `n` had its turn. */
  lemma VisitStage(sys: System, m: Name, now: real, v: Visit, n: Name, visited: bool)
    requires now <= sys.clock && Paced(sys, n, if visited then sys.clock + 1.0 else now)
    requires m == n ==> !visited
    ensures var t := VisitService(sys, m, now, v).0;
            t.clock >= sys.clock && Paced(t, n, if visited || m == n then t.clock + 1.0 else now)
  {
    hide Paced, VisitService, Restarts;
    var t := VisitService(sys, m, now, v).0;
    if m == n {
      VisitPaces(sys, n, now, v);
    } else {
      VisitKeepsOthers(sys, m, now, v, n);
      var floor := if visited then sys.clock + 1.0 else now;
      KeepsPaced(sys, t, n, floor, if visited then t.clock + 1.0 else now);
    }
  }

  lemma SweepPaces(sys: System, p: Pass, n: Name)
    requires Paced(sys, n, sys.clock)
    ensures var t := Sweep(sys, sys.clock, p, ORDER).0;
            Paced(t, n, t.clock + 1.0) && t.clock >= sys.clock
  {
    hide Paced, VisitService, Restarts;
    var now := sys.clock;
    var (t1, r1) := VisitService(sys, Gateway, now, p.gateway);
    var (t2, r2) := VisitService(t1, Backend, now, p.backend);
    var (t3, r3) := VisitService(t2, Frontend, now, p.frontend);
    VisitStage(sys, Gateway, now, p.gateway, n, false);
    VisitStage(t1, Backend, now, p.backend, n, n == Gateway);
    VisitStage(t2, Frontend, now, p.frontend, n, n != Frontend);
    SweepUnfolds(sys, now, p);
    var t := Sweep(sys, now, p, ORDER).0;
    PacedLater(t, n, if r1 then (if n == Gateway then t1.clock + 1.0 else now)
                     else if r2 then (if n != Frontend then t2.clock + 1.0 else now)
                     else t3.clock + 1.0, t.clock + 1.0);
  }

  lemma SweepUnfolds(sys: System, now: real, p: Pass)
    ensures var (t1, r1) := VisitService(sys, Gateway, now, p.gateway);
            var (t2, r2) := VisitService(t1, Backend, now, p.backend);
            var (t3, r3) := VisitService(t2, Frontend, now, p.frontend);
            Sweep(sys, now, p, ORDER).0 == if r1 then t1 else if r2 then t2 else t3
  {
  }

  lemma PassPaces(sys: System, p: Pass, n: Name)
    requires Paced(sys, n, sys.clock)
    ensures var t := PassStep(sys, p); Paced(t, n, t.clock)
  {
    hide Paced, Sweep, Evaluate, Restarts;
    SweepPaces(sys, p, n);
    var (t, raised) := Sweep(sys, sys.clock, p, ORDER);
    if raised {
      WaitPaces(t, n, 1.0 + p.lag);
    } else {
      EvaluateKeeps(t, p.backendProbe, p.gatewayProbe, p.frontendProbe, n);
      var u := Evaluate(t, p.backendProbe, p.gatewayProbe, p.frontendProbe);
      KeepsPaced(t, u, n, t.clock + 1.0, u.clock + 1.0);
      WaitPaces(u, n, 1.0 + p.lag);
    }
  }

  lemma WaitPaces(sys: System, n: Name, t: real)
    requires Paced(sys, n, sys.clock + 1.0) && t >= 1.0
    ensures Paced(sys.Wait(t), n, sys.Wait(t).clock)
  {
    hide Restarts, Spaced;
  }

  lemma BootPaces(sys: System, m: Name, b: Boot, n: Name)
    requires Restarts(sys.log, n) == [] && sys.Get(n).restartCount == 0
    ensures var t := BootService(sys, m, b); Restarts(t.log, n) == [] && t.Get(n).restartCount == 0
  {
    hide Restarts, Await;
    var u := sys.Wait(b.lag);
    RestartsSnoc(sys.log, Launched(m, u.clock, 0), n);
    AwaitKeeps(Start(u, m, 0), m, b.polls, 60, n);
  }

  lemma StartupPaces(clock: real, g: Boot, b: Boot, f: Boot, bp: bool, gp: bool, fp: bool, n: Name)
    ensures var t := Startup(clock, g, b, f, bp, gp, fp); Paced(t, n, t.clock)
  {
    assert Restarts(Power(clock).log, n) == [];
    hide Restarts, BootService, Evaluate;
    var t0 := Power(clock);
    var t1 := BootService(t0, Gateway, g);
    var t2 := BootService(t1, Backend, b);
    var t3 := BootService(t2, Frontend, f);
    BootPaces(t0, Gateway, g, n);
    BootPaces(t1, Backend, b, n);
    BootPaces(t2, Frontend, f, n);
    EvaluateKeeps(t3, bp, gp, fp, n);
  }

  /** Over every run of the loop, whatever the crashes, sleeps and probes. */
  lemma {:induction false} RunPaced(sys: System, passes: seq<Pass>, n: Name)
    requires Paced(sys, n, sys.clock)
    ensures Paced(Run(sys, passes), n, Run(sys, passes).clock)
  {
    if passes != [] {
      RunPaced(sys, passes[..|passes| - 1], n);
      PassPaces(Run(sys, passes[..|passes| - 1]), passes[|passes| - 1], n);
    }
  }

  // ----- The bounds -----

  /** Any six consecutive restarts contain a reset after the first of them and span more
      than 47 seconds. */
  lemma SixRestarts(rs: seq<Restart>, i: nat)
    requires Spaced(rs) && i + 5 < |rs|
    ensures exists j :: i < j <= i + 5 && rs[j].attempt == 1
    ensures rs[i + 5].at - rs[i].at > 47.0
  {
    var a, b, c, d, e, f := rs[i], rs[i + 1], rs[i + 2], rs[i + 3], rs[i + 4], rs[i + 5];
    assert i > 0 ==> Follows(rs[i - 1], a);
    assert a.attempt >= 1;
    assert Follows(a, b) && Follows(b, c) && Follows(c, d) && Follows(d, e) && Follows(e, f);
    hide Spaced, Follows;
    Gap(a, b);
    Gap(b, c);
    Gap(c, d);
    Gap(d, e);
    Gap(e, f);
  }

  lemma Gap(a: Restart, b: Restart)
    requires Follows(a, b) && a.attempt >= 1
    ensures 1 <= b.attempt <= MAX_RESTARTS && (b.attempt == 1 || b.attempt == a.attempt + 1)
    ensures b.at - a.at >= if b.attempt == 1 then 31.0 else if b.attempt == 2 then 3.0 else if b.attempt == 3 then 5.0 else 9.0
    ensures b.attempt == 1 ==> b.at - a.at > 31.0
  {
    assert BACKOFF[0] == 1.0 && BACKOFF[1] == 2.0 && BACKOFF[2] == 4.0 && BACKOFF[3] == 8.0 && BACKOFF[4] == 15.0;
  }

  /** Among restarts, every five more take more than 47 seconds more. */
  ghost predicate RateBounded(rs: seq<Restart>) {
    forall i, j :: 0 <= i < j < |rs| ==> rs[j].at - rs[i].at > 47.0 * ((j - i) / 5) as real
  }

  lemma {:induction false} RestartRate(rs: seq<Restart>, i: nat, j: nat)
    requires Spaced(rs) && i < j < |rs|
    ensures rs[j].at - rs[i].at > 47.0 * ((j - i) / 5) as real
    decreases j - i
  {
    if j - i >= 5 {
      SixRestarts(rs, i);
      assert (j - i) / 5 == 1 + (j - (i + 5)) / 5;
      if j - i > 5 {
        RestartRate(rs, i + 5, j);
      }
    } else {
      assert Follows(rs[i], rs[i + 1]);
      if i + 1 < j {
        RestartRate(rs, i + 1, j);
      }
    }
  }

  /** The rate bound for every run of the supervisor: 5m + 1 consecutive restarts of a
      service take more than 47m seconds. */
  lemma {:induction false} RestartsAreBounded(sys: System, n: Name)
    requires Reachable(sys)
    ensures RateBounded(Restarts(sys.log, n))
  {
    hide Restarts, Startup, Run, Spaced;
    var first: System, passes: seq<Pass> :| Started(first) && sys == Run(first, passes);
    var clock: real, g: Boot, b: Boot, f: Boot, bp: bool, gp: bool, fp: bool
      :| first == Startup(clock, g, b, f, bp, gp, fp);
    StartupPaces(clock, g, b, f, bp, gp, fp, n);
    RunPaced(first, passes, n);
    var rs := Restarts(sys.log, n);
    forall i, j | 0 <= i < j < |rs|
      ensures rs[j].at - rs[i].at > 47.0 * ((j - i) / 5) as real
    {
      RestartRate(rs, i, j);
    }
  }
}
