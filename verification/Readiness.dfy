/** When the supervisor calls trading ready, and what it announces, over every run. */
module Readiness {
  import opened SupervisorSpec

  /** Since its last launch, the service has passed a health probe. */
  predicate PassedSinceLaunch(log: seq<Event>, n: Name) {
    log != [] &&
    match log[|log| - 1]
    case Launched(m, _, _) => m != n && PassedSinceLaunch(log[..|log| - 1], n)
    case Probed(m, passed) => (m == n && passed) || PassedSinceLaunch(log[..|log| - 1], n)
    case _ => PassedSinceLaunch(log[..|log| - 1], n)
  }

  /** The same, in terms of positions in the log. */
  lemma {:induction false} PassedSinceLaunchMeaning(log: seq<Event>, n: Name)
    ensures PassedSinceLaunch(log, n) <==>
              exists i :: 0 <= i < |log| && log[i] == Probed(n, true)
                && forall j :: i < j < |log| ==> !(log[j].Launched? && log[j].name == n)
  {
    if log != [] {
      var init, last := log[..|log| - 1], log[|log| - 1];
      PassedSinceLaunchMeaning(init, n);
      if PassedSinceLaunch(init, n) && !(last.Launched? && last.name == n) {
        var i :| 0 <= i < |init| && init[i] == Probed(n, true)
                 && forall j :: i < j < |init| ==> !(init[j].Launched? && init[j].name == n);
        assert log[i] == Probed(n, true);
        assert forall j :: i < j < |log| ==> !(log[j].Launched? && log[j].name == n) by {
          forall j | i < j < |log|
            ensures !(log[j].Launched? && log[j].name == n)
          {
            if j < |init| {
              assert log[j] == init[j];
            }
          }
        }
      } else if last == Probed(n, true) {
        assert log[|log| - 1] == Probed(n, true);
      }
      if i :| 0 <= i < |log| && log[i] == Probed(n, true)
              && forall j :: i < j < |log| ==> !(log[j].Launched? && log[j].name == n) {
        if i < |init| {
          assert init[i] == Probed(n, true);
          assert forall j :: i < j < |init| ==> init[j] == log[j];
        }
      }
    }
  }

  /** The announcements made so far, in order. */
  function Announcements(log: seq<Event>): seq<Event> {
    if log == [] then []
    else
      var last := log[|log| - 1];
      Announcements(log[..|log| - 1]) + if last.Operational? || last.FailClosed? then [last] else []
  }

  /** Announcements alternate, "operational" first. */
  ghost predicate Alternates(a: seq<Event>) {
    forall i :: 0 <= i < |a| ==> a[i] == if i % 2 == 0 then Operational else FailClosed
  }

  /** Every evaluation so far said "ready" exactly when backend and gateway had each passed
      a probe since their own last launch. */
  predicate Truthful(log: seq<Event>) {
    log == [] ||
    (var init := log[..|log| - 1];
     Truthful(init) &&
     match log[|log| - 1]
     case Evaluated(ready) => ready <==> PassedSinceLaunch(init, Backend) && PassedSinceLaunch(init, Gateway)
     case _ => true)
  }

  /** The sticky health flags mean what the log says. */
  ghost predicate FlagsMean(sys: System) {
    forall n :: sys.Get(n).healthy <==> PassedSinceLaunch(sys.log, n)
  }

  ghost predicate Announced(sys: System) {
    && Alternates(Announcements(sys.log))
    && (sys.ready <==> |Announcements(sys.log)| % 2 == 1)
  }

  ghost predicate Sound(sys: System) {
    FlagsMean(sys) && Truthful(sys.log) && Announced(sys)
  }

  // ----- One event at a time -----

  lemma Snoc(log: seq<Event>, e: Event)
    ensures (log + [e])[..|log + [e]| - 1] == log && (log + [e])[|log|] == e
  {
  }

  lemma ProbeSound(sys: System, n: Name, passed: bool)
    requires Sound(sys) && !sys.Get(n).healthy
    ensures Sound(Probe(sys, n, passed))
  {
    Snoc(sys.log, Probed(n, passed));
  }

  lemma StartSound(sys: System, n: Name, attempt: nat)
    requires Sound(sys)
    ensures Sound(Start(sys, n, attempt)) && !Start(sys, n, attempt).Get(n).healthy
  {
    Snoc(sys.log, Launched(n, sys.clock, attempt));
  }

  lemma QuietSound(sys: System, n: Name, count: nat, t: real)
    requires Sound(sys)
    ensures Sound(sys.Put(n, sys.Get(n).(restartCount := count)).Say(Halted(n))) && Sound(sys.Wait(t))
  {
    Snoc(sys.log, Halted(n));
  }

  lemma {:induction false} AwaitSound(sys: System, n: Name, polls: seq<Poll>, retries: nat)
    requires Sound(sys) && !sys.Get(n).healthy
    ensures Sound(Await(sys, n, polls, retries))
    decreases retries
  {
    hide Sound;
    if !(retries == 0 || polls == [] || polls[0].Exited?) {
      var t := Probe(sys, n, polls[0].passed);
      ProbeSound(sys, n, polls[0].passed);
      QuietSound(t, n, 0, polls[0].lag);
      if !polls[0].passed {
        QuietSound(t.Wait(polls[0].lag), n, 0, 0.5);
        AwaitSound(t.Wait(polls[0].lag).Wait(0.5), n, polls[1..], retries - 1);
      }
    }
  }

  lemma VisitSound(sys: System, n: Name, now: real, v: Visit)
    requires Sound(sys)
    ensures Sound(VisitService(sys, n, now, v).0)
  {
    hide Sound, Await;
    if v.Dead? {
      var attempt := Attempt(sys.Get(n), now);
      if attempt > MAX_RESTARTS {
        QuietSound(sys, n, attempt, 0.0);
      } else {
        var lag := BACKOFF[attempt - 1] + v.lag;
        QuietSound(sys, n, 0, lag);
        StartSound(sys.Wait(lag), n, attempt);
        AwaitSound(Start(sys.Wait(lag), n, attempt), n, v.polls, 20);
      }
    }
  }

  lemma {:induction false} SweepSound(sys: System, now: real, p: Pass, names: seq<Name>)
    requires Sound(sys)
    ensures Sound(Sweep(sys, now, p, names).0)
    decreases |names|
  {
    hide Sound, VisitService;
    if names != [] {
      var (t, raised) := VisitService(sys, names[0], now, p.VisitOf(names[0]));
      VisitSound(sys, names[0], now, p.VisitOf(names[0]));
      if !raised {
        SweepSound(t, now, p, names[1..]);
      }
    }
  }

  lemma CheckSound(sys: System, n: Name, passed: bool)
    requires Sound(sys)
    ensures Sound(Check(sys, n, passed)) && Check(sys, n, passed).ready == sys.ready
  {
    if !sys.Get(n).healthy {
      ProbeSound(sys, n, passed);
    }
  }

  lemma AnnouncementsSnoc(log: seq<Event>, e: Event)
    ensures Announcements(log + [e]) == Announcements(log) + if e.Operational? || e.FailClosed? then [e] else []
  {
    Snoc(log, e);
  }

  lemma SayTruthful(sys: System, e: Event)
    requires FlagsMean(sys) && Truthful(sys.log) && !e.Launched? && !e.Probed?
    requires e.Evaluated? ==> (e.ready <==> sys.Get(Backend).healthy && sys.Get(Gateway).healthy)
    ensures FlagsMean(sys.Say(e)) && Truthful(sys.Say(e).log)
  {
    Snoc(sys.log, e);
    assert forall n :: sys.Say(e).Get(n) == sys.Get(n);
  }

  lemma DecideSound(sys: System)
    requires Sound(sys)
    ensures var ready := sys.backend.healthy && sys.gateway.healthy;
            var u := sys.(ready := ready).Say(Evaluated(ready));
            Sound(if sys.ready && !ready then u.Say(FailClosed) else if !sys.ready && ready then u.Say(Operational) else u)
  {
    hide Truthful, PassedSinceLaunch, Announcements;
    var ready := sys.backend.healthy && sys.gateway.healthy;
    var t := sys.(ready := ready);
    var u := t.Say(Evaluated(ready));
    assert forall n :: t.Get(n) == sys.Get(n);
    SayTruthful(t, Evaluated(ready));
    SayTruthful(u, FailClosed);
    SayTruthful(u, Operational);
    AnnouncementsSnoc(sys.log, Evaluated(ready));
    AnnouncementsSnoc(u.log, FailClosed);
    AnnouncementsSnoc(u.log, Operational);
  }

  lemma EvaluateSound(sys: System, b: bool, g: bool, f: bool)
    requires Sound(sys)
    ensures Sound(Evaluate(sys, b, g, f))
  {
    hide Sound, Check;
    var t1 := Check(sys, Backend, b);
    var t2 := Check(t1, Gateway, g);
    CheckSound(sys, Backend, b);
    CheckSound(t1, Gateway, g);
    CheckSound(t2, Frontend, f);
    DecideSound(Check(t2, Frontend, f));
  }

  lemma BootSound(sys: System, n: Name, b: Boot)
    requires Sound(sys)
    ensures Sound(BootService(sys, n, b))
  {
    hide Sound, Await;
    QuietSound(sys, n, 0, b.lag);
    StartSound(sys.Wait(b.lag), n, 0);
    AwaitSound(Start(sys.Wait(b.lag), n, 0), n, b.polls, 60);
  }

  lemma StartupSound(clock: real, g: Boot, b: Boot, f: Boot, bp: bool, gp: bool, fp: bool)
    ensures Sound(Startup(clock, g, b, f, bp, gp, fp))
  {
    var t0 := Power(clock);
    assert Sound(t0);
    hide Sound, BootService, Evaluate;
    var t1 := BootService(t0, Gateway, g);
    var t2 := BootService(t1, Backend, b);
    BootSound(t0, Gateway, g);
    BootSound(t1, Backend, b);
    BootSound(t2, Frontend, f);
    EvaluateSound(BootService(t2, Frontend, f), bp, gp, fp);
  }

  /** In every run, each evaluation is truthful and the announcements alternate. */
  lemma {:induction false} RunSound(sys: System, passes: seq<Pass>)
    requires Sound(sys)
    ensures Sound(Run(sys, passes))
  {
    hide Sound, Sweep, Evaluate;
    if passes != [] {
      var init, p := passes[..|passes| - 1], passes[|passes| - 1];
      var before := Run(sys, init);
      RunSound(sys, init);
      SweepSound(before, before.clock, p, ORDER);
      var (t, raised) := Sweep(before, before.clock, p, ORDER);
      EvaluateSound(t, p.backendProbe, p.gatewayProbe, p.frontendProbe);
      QuietSound(t, Gateway, 0, 1.0 + p.lag);
      QuietSound(Evaluate(t, p.backendProbe, p.gatewayProbe, p.frontendProbe), Gateway, 0, 1.0 + p.lag);
    }
  }

  // ----- Consequences -----

  lemma {:induction false} TruthfulAt(log: seq<Event>, i: nat)
    requires Truthful(log) && i < |log| && log[i].Evaluated?
    ensures log[i].ready <==> PassedSinceLaunch(log[..i], Backend) && PassedSinceLaunch(log[..i], Gateway)
  {
    if i < |log| - 1 {
      TruthfulAt(log[..|log| - 1], i);
      assert log[..|log| - 1][..i] == log[..i];
    }
  }

  lemma {:induction false} PassLasts(log: seq<Event>, i: nat, n: Name)
    requires i <= |log| && PassedSinceLaunch(log[..i], n)
    requires forall k :: i <= k < |log| ==> !(log[k].Launched? && log[k].name == n)
    ensures PassedSinceLaunch(log, n)
  {
    if i == |log| {
      assert log[..i] == log;
    } else {
      assert log[..|log| - 1][..i] == log[..i];
      PassLasts(log[..|log| - 1], i, n);
    }
  }

  /** Readiness is withdrawn only by a restart: a backend or gateway that stops answering
      while its process lives does not close trading. */
  lemma LosingReadinessTakesALaunch(log: seq<Event>, i: nat, j: nat)
    requires Truthful(log) && i < j < |log| && log[i] == Evaluated(true) && log[j] == Evaluated(false)
    ensures exists k :: i < k < j && log[k].Launched? && (log[k].name == Backend || log[k].name == Gateway)
  {
    hide Truthful, PassedSinceLaunch;
    TruthfulAt(log, i);
    TruthfulAt(log, j);
    if !exists k :: i < k < j && log[k].Launched? && (log[k].name == Backend || log[k].name == Gateway) {
      var p := log[..j];
      assert p[..i] == log[..i];
      PassLasts(p, i, Backend);
      PassLasts(p, i, Gateway);
      assert false;
    }
  }

  /** Each evaluation in the log said "ready" exactly when backend and gateway had each
      passed a probe since their own last launch. */
  ghost predicate EvaluatedTruly(log: seq<Event>) {
    forall i :: 0 <= i < |log| && log[i].Evaluated? ==>
      (log[i].ready <==> PassedSinceLaunch(log[..i], Backend) && PassedSinceLaunch(log[..i], Gateway))
  }

  lemma ReachableSound(sys: System)
    requires Reachable(sys)
    ensures Sound(sys)
  {
    hide Startup, Run, Sound;
    var first: System, passes: seq<Pass> :| Started(first) && sys == Run(first, passes);
    var clock: real, g: Boot, b: Boot, f: Boot, bp: bool, gp: bool, fp: bool
      :| first == Startup(clock, g, b, f, bp, gp, fp);
    StartupSound(clock, g, b, f, bp, gp, fp);
    RunSound(first, passes);
  }

  /** For every run from startup: at each evaluation trading is ready exactly when backend
      and gateway have each passed a probe since their own last launch, and the
      announcements alternate, the last one saying whether trading is ready now. */
  lemma {:induction false} ReadinessOverRuns(sys: System)
    requires Reachable(sys)
    ensures EvaluatedTruly(sys.log)
    ensures Alternates(Announcements(sys.log))
    ensures var a := Announcements(sys.log); sys.ready <==> a != [] && a[|a| - 1] == Operational
  {
    hide Reachable, Truthful, PassedSinceLaunch, Announcements;
    ReachableSound(sys);
    forall i | 0 <= i < |sys.log| && sys.log[i].Evaluated?
      ensures sys.log[i].ready <==> PassedSinceLaunch(sys.log[..i], Backend) && PassedSinceLaunch(sys.log[..i], Gateway)
    {
      TruthfulAt(sys.log, i);
    }
  }
}
