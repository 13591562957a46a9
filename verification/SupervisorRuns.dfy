/** Where readiness and "halted" part from what the messages suggest: the exact law for one
    pass, and runs in which it shows. */
module SupervisorRuns {
  import opened SupervisorSpec
  import opened Readiness

  // ----- The exact law -----

  lemma EvaluateDecides(sys: System, b: bool, g: bool, f: bool)
    ensures var t := Evaluate(sys, b, g, f);
            && t.backend.healthy == (sys.backend.healthy || b)
            && t.gateway.healthy == (sys.gateway.healthy || g)
            && (t.ready <==> t.backend.healthy && t.gateway.healthy)
  {
  }

  /** An evaluation probes, in this order, backend, gateway and frontend, each only if it is not
      known to be healthy; it decides, and announces a change. */
  lemma EvaluateLogs(sys: System, b: bool, g: bool, f: bool)
    ensures var backend, gateway := sys.backend.healthy || b, sys.gateway.healthy || g;
            var ready := backend && gateway;
            && Evaluate(sys, b, g, f).frontend.healthy == (sys.frontend.healthy || f)
            && Evaluate(sys, b, g, f).log == sys.log
                 + (if sys.backend.healthy then [] else [Probed(Backend, b)])
                 + (if sys.gateway.healthy then [] else [Probed(Gateway, g)])
                 + (if sys.frontend.healthy then [] else [Probed(Frontend, f)])
                 + [Evaluated(ready)]
                 + if sys.ready == ready then [] else if ready then [Operational] else [FailClosed]
  {
    var t1 := Check(sys, Backend, b);
    var t2 := Check(t1, Gateway, g);
    var t3 := Check(t2, Frontend, f);
    assert t1.log == sys.log + if sys.backend.healthy then [] else [Probed(Backend, b)];
    assert t2.log == t1.log + if sys.gateway.healthy then [] else [Probed(Gateway, g)];
    assert t3.log == t2.log + if sys.frontend.healthy then [] else [Probed(Frontend, f)];
  }

  lemma SweepKeepsReady(sys: System, now: real, p: Pass, names: seq<Name>)
    ensures Sweep(sys, now, p, names).0.ready == sys.ready
    decreases |names|
  {
    hide Await;
    if names != [] {
      var v := p.VisitOf(names[0]);
      var (t, raised) := VisitService(sys, names[0], now, v);
      if v.Dead? && Attempt(sys.Get(names[0]), now) <= MAX_RESTARTS {
        var attempt := Attempt(sys.Get(names[0]), now);
        AwaitKeepsReady(Start(sys.Wait(BACKOFF[attempt - 1] + v.lag), names[0], attempt), names[0], v.polls, 20);
      }
      SweepKeepsReady(t, now, p, names[1..]);
    }
  }

  lemma {:induction false} AwaitKeepsReady(sys: System, n: Name, polls: seq<Poll>, retries: nat)
    ensures Await(sys, n, polls, retries).ready == sys.ready
    decreases retries
  {
    if !(retries == 0 || polls == [] || polls[0].Exited? || polls[0].passed) {
      AwaitKeepsReady(Probe(sys, n, false).Wait(polls[0].lag).Wait(0.5), n, polls[1..], retries - 1);
    }
  }

  /** A pass that no exception ends leaves trading ready exactly when backend and gateway
      have passed a probe since their launches; one that an exception ends decides nothing. */
  lemma ReadyAfterPass(sys: System, p: Pass)
    requires Reachable(sys)
    ensures var t := PassStep(sys, p);
            if Sweep(sys, sys.clock, p, ORDER).1 then t.ready == sys.ready
            else t.ready <==> PassedSinceLaunch(t.log, Backend) && PassedSinceLaunch(t.log, Gateway)
  {
    hide Sweep, Evaluate, Reachable, Truthful, Announced, PassedSinceLaunch;
    SweepKeepsReady(sys, sys.clock, p, ORDER);
    StepReachable(sys, p);
    ReachableSound(PassStep(sys, p));
    var t := PassStep(sys, p);
    assert FlagsMean(t);
    assert t.Get(Backend).healthy == t.backend.healthy && t.Get(Gateway).healthy == t.gateway.healthy;
    EvaluateDecides(Sweep(sys, sys.clock, p, ORDER).0, p.backendProbe, p.gatewayProbe, p.frontendProbe);
  }

  /** When every process is found alive, what counts is whether each core service has ever
      passed a probe since its launch, or passes one now. */
  lemma ReadyWhileAlive(sys: System, p: Pass)
    requires Reachable(sys) && p.gateway.Alive? && p.backend.Alive? && p.frontend.Alive?
    ensures PassStep(sys, p).ready
            <==> && (PassedSinceLaunch(sys.log, Backend) || p.backendProbe)
                 && (PassedSinceLaunch(sys.log, Gateway) || p.gatewayProbe)
  {
    hide Evaluate, Reachable, Truthful, Announced, PassedSinceLaunch;
    ReachableSound(sys);
    assert FlagsMean(sys);
    assert sys.Get(Backend).healthy == sys.backend.healthy && sys.Get(Gateway).healthy == sys.gateway.healthy;
    assert Sweep(sys, sys.clock, p, ORDER) == (sys, false);
    EvaluateDecides(sys, p.backendProbe, p.gatewayProbe, p.frontendProbe);
  }

  /** An exception ends the pass: later services are not visited, readiness is not evaluated,
      and only the clock moves on. */
  lemma RaisingPass(sys: System, p: Pass)
    requires p.gateway.Raises? || (p.gateway.Alive? && (p.backend.Raises? || (p.backend.Alive? && p.frontend.Raises?)))
    ensures PassStep(sys, p) == sys.(clock := sys.clock + 1.0 + p.lag)
  {
    SweepUnfolded(sys, p);
  }

  lemma SweepUnfolded(sys: System, p: Pass)
    requires p.gateway.Raises? || (p.gateway.Alive? && (p.backend.Raises? || (p.backend.Alive? && p.frontend.Raises?)))
    ensures Sweep(sys, sys.clock, p, ORDER) == (sys, true)
  {
    if p.gateway.Alive? {
      AliveVisit(sys, Gateway, sys.clock);
      if p.backend.Alive? {
        AliveVisit(sys, Backend, sys.clock);
      }
    }
  }

  // ----- Runs -----

  ghost predicate Healthy(sys: System) {
    sys.gateway.healthy && sys.backend.healthy && sys.frontend.healthy
  }

  /** The services start in order, each awaited before the next. */
  const STARTED: seq<Event> := [
    Launched(Gateway, 0.0, 0), Probed(Gateway, true), Launched(Backend, 0.0, 0), Probed(Backend, true),
    Launched(Frontend, 0.0, 0), Probed(Frontend, true), Evaluated(true), Operational
  ]

  /** A startup in which every service answers its first probe. */
  lemma GoodStart() returns (sys: System)
    ensures Reachable(sys) && Healthy(sys) && sys.ready
    ensures forall n :: sys.Get(n) == Service(0, 0.0, true)
    ensures sys.clock == 0.0 && sys.log == STARTED
  {
    hide BootService, Evaluate;
    var b := Boot(0.0, [Answer(true, 0.0)]);
    var t1 := BootService(Power(0.0), Gateway, b);
    var t2 := BootService(t1, Backend, b);
    var t3 := BootService(t2, Frontend, b);
    BootAnswers(Power(0.0), Gateway);
    BootAnswers(t1, Backend);
    BootAnswers(t2, Frontend);
    sys := Startup(0.0, b, b, b, false, false, false);
    assert sys == Evaluate(t3, false, false, false);
    FirstEvaluate(t3);
    StartedReachable(sys);
  }

  lemma BootAnswers(sys: System, n: Name)
    ensures BootService(sys, n, Boot(0.0, [Answer(true, 0.0)])) ==
              sys.Put(n, Service(0, sys.clock, true)).(log := sys.log + [Launched(n, sys.clock, 0), Probed(n, true)])
  {
  }

  lemma FirstEvaluate(sys: System)
    requires Healthy(sys) && !sys.ready
    ensures Evaluate(sys, false, false, false) == sys.(ready := true, log := sys.log + [Evaluated(true), Operational])
  {
  }

  /** Only service `n` is found dead; no probe outside its own restart answers. */
  function Only(n: Name, v: Visit, lag: Lag): Pass {
    Pass(if n == Gateway then v else Alive, if n == Backend then v else Alive, if n == Frontend then v else Alive,
         false, false, false, lag)
  }

  /** The service answers one probe after each launch and is dead again at the next pass. */
  const CRASHED: Visit := Dead(0.0, false, [Answer(true, 0.0)])

  lemma CrashPass(sys: System, n: Name, lag: Lag)
    requires Healthy(sys) && sys.ready
    ensures var t, s := PassStep(sys, Only(n, CRASHED, lag)), sys.Get(n);
            var attempt := Attempt(s, sys.clock);
            && Healthy(t) && t.ready
            && if attempt > MAX_RESTARTS then
                 && t.Get(n) == s.(restartCount := attempt) && t.clock == sys.clock + 1.0 + lag
                 && t.log == sys.log + [Halted(n), Evaluated(true)]
               else
                 var at := sys.clock + BACKOFF[attempt - 1];
                 && t.Get(n) == Service(attempt, at, true) && t.clock == at + 1.0 + lag
                 && t.log == sys.log + [Launched(n, at, attempt), Probed(n, true), Evaluated(true)]
  {
    hide Evaluate, VisitService;
    var p := Only(n, CRASHED, lag);
    var t := VisitService(sys, n, sys.clock, CRASHED).0;
    CrashVisit(sys, n);
    assert Sweep(sys, sys.clock, p, ORDER) == (t, false) by {
      assert forall u: System, m: Name :: VisitService(u, m, sys.clock, Alive) == (u, false) by {
        forall u: System, m: Name
          ensures VisitService(u, m, sys.clock, Alive) == (u, false)
        {
          AliveVisit(u, m, sys.clock);
        }
      }
    }
    HealthyEvaluate(t);
  }

  lemma AliveVisit(sys: System, n: Name, now: real)
    ensures VisitService(sys, n, now, Alive) == (sys, false)
  {
  }

  lemma CrashVisit(sys: System, n: Name)
    requires Healthy(sys)
    ensures var (t, raised), s := VisitService(sys, n, sys.clock, CRASHED), sys.Get(n);
            var attempt := Attempt(s, sys.clock);
            && Healthy(t) && !raised && t.ready == sys.ready
            && if attempt > MAX_RESTARTS then
                 && t.Get(n) == s.(restartCount := attempt) && t.clock == sys.clock && t.log == sys.log + [Halted(n)]
               else
                 var at := sys.clock + BACKOFF[attempt - 1];
                 && t.Get(n) == Service(attempt, at, true) && t.clock == at
                 && t.log == sys.log + [Launched(n, at, attempt)] + [Probed(n, true)]
  {
  }

  lemma HealthyEvaluate(sys: System)
    requires Healthy(sys) && sys.ready
    ensures Evaluate(sys, false, false, false) == sys.Say(Evaluated(true))
  {
  }

  /** What a service that keeps crashing looks like: restarts after 1, 2, 4, 8 and 15 seconds,
      each a second after the last launch at the earliest. */
  function Crashes(n: Name): seq<Event> {
    [Launched(n, 1.0, 1), Probed(n, true), Evaluated(true)] + [Launched(n, 4.0, 2), Probed(n, true), Evaluated(true)]
    + [Launched(n, 9.0, 3), Probed(n, true), Evaluated(true)] + [Launched(n, 18.0, 4), Probed(n, true), Evaluated(true)]
    + [Launched(n, 34.0, 5), Probed(n, true), Evaluated(true)]
  }

  /** A run with five restarts in quick succession. */
  lemma GivenUp(n: Name) returns (sys: System)
    ensures Reachable(sys) && Healthy(sys) && sys.ready
    ensures sys.Get(n) == Service(5, 34.0, true) && sys.clock == 35.0
    ensures sys.log == STARTED + Crashes(n)
  {
    hide PassStep, Healthy, Reachable;
    sys := GoodStart();
    sys := CrashAgain(sys, n);
    sys := CrashAgain(sys, n);
    sys := CrashAgain(sys, n);
    sys := CrashAgain(sys, n);
    sys := CrashAgain(sys, n);
  }

  lemma CrashAgain(sys: System, n: Name) returns (t: System)
    requires Reachable(sys) && Healthy(sys) && sys.ready
    requires sys.Get(n).restartCount < 5 && sys.clock - sys.Get(n).lastStart <= 30.0
    ensures Reachable(t) && Healthy(t) && t.ready
    ensures var k := sys.Get(n).restartCount;
            var at := sys.clock + [1.0, 2.0, 4.0, 8.0, 15.0][k];
            && t.Get(n) == Service(k + 1, at, true) && t.clock == at + 1.0
            && t.log == sys.log + [Launched(n, at, k + 1), Probed(n, true), Evaluated(true)]
  {
    hide PassStep, Healthy, Reachable;
    CrashPass(sys, n, 0.0);
    StepReachable(sys, Only(n, CRASHED, 0.0));
    t := PassStep(sys, Only(n, CRASHED, 0.0));
  }

  /** A pass looks after the gateway first, then the backend, then the frontend. */
  lemma RestartsInOrder() returns (sys: System, p: Pass)
    ensures Reachable(sys) && p.gateway.Dead? && p.backend.Dead? && p.frontend.Dead?
    ensures PassStep(sys, p).log == sys.log + [
              Launched(Gateway, sys.clock + 1.0, 1), Probed(Gateway, true), Launched(Backend, sys.clock + 2.0, 1), Probed(Backend, true),
              Launched(Frontend, sys.clock + 3.0, 1), Probed(Frontend, true), Evaluated(true)
            ]
  {
    hide Reachable, VisitService, Evaluate;
    sys := GoodStart();
    p := Pass(CRASHED, CRASHED, CRASHED, false, false, false, 0.0);
    var t1 := VisitService(sys, Gateway, sys.clock, CRASHED).0;
    var t2 := VisitService(t1, Backend, sys.clock, CRASHED).0;
    var t3 := VisitService(t2, Frontend, sys.clock, CRASHED).0;
    FirstCrash(sys, Gateway, sys.clock);
    FirstCrash(t1, Backend, sys.clock);
    FirstCrash(t2, Frontend, sys.clock);
    assert Sweep(sys, sys.clock, p, ORDER) == (t3, false);
    HealthyEvaluate(t3);
  }

  lemma FirstCrash(sys: System, n: Name, now: real)
    requires Healthy(sys) && sys.Get(n).restartCount == 0
    ensures var (t, raised) := VisitService(sys, n, now, CRASHED);
            && Healthy(t) && !raised && t.ready == sys.ready && t.clock == sys.clock + 1.0
            && (forall m :: m != n ==> t.Get(m) == sys.Get(m))
            && t.log == sys.log + [Launched(n, sys.clock + 1.0, 1)] + [Probed(n, true)]
  {
  }

  /** "Halted" is not final: a run in which a service that was given up is launched again. */
  lemma HaltIsNotFinal(n: Name) returns (sys: System, i: nat, j: nat)
    ensures Reachable(sys) && i < j < |sys.log|
    ensures sys.log[i] == Halted(n) && sys.log[j].Launched? && sys.log[j].name == n
  {
    hide PassStep, Healthy, Reachable;
    var before := GivenUp(n);
    var halt, again := Only(n, CRASHED, 30.0), Only(n, CRASHED, 0.0);
    CrashPass(before, n, 30.0);
    StepReachable(before, halt);
    var halted := PassStep(before, halt);
    CrashPass(halted, n, 0.0);
    StepReachable(halted, again);
    sys, i, j := PassStep(halted, again), |before.log|, |halted.log|;
  }

  /** A run in which a pass finds a service dead, gives it up, and trading stays ready. */
  lemma DeadServiceStaysReady(n: Name) returns (sys: System, p: Pass)
    ensures Reachable(sys) && sys.ready && p.VisitOf(n).Dead?
    ensures PassStep(sys, p).ready && PassStep(sys, p).log == sys.log + [Halted(n), Evaluated(true)]
  {
    hide PassStep, Healthy, Reachable;
    sys := GivenUp(n);
    p := Only(n, CRASHED, 0.0);
    CrashPass(sys, n, 0.0);
  }

  /** A run in which no core service answers any more and trading stays ready. */
  lemma SilentServicesStayReady() returns (sys: System, p: Pass)
    ensures Reachable(sys) && sys.ready && !p.backendProbe && !p.gatewayProbe
    ensures p.gateway.Alive? && p.backend.Alive? && p.frontend.Alive? && PassStep(sys, p).ready
  {
    hide Reachable;
    sys := GoodStart();
    p := Only(Gateway, Alive, 0.0);
    assert Sweep(sys, sys.clock, p, ORDER) == (sys, false);
    HealthyEvaluate(sys);
  }

  /** A run in which a restart fails to launch and trading stays ready, although the backend
      has passed no probe since. */
  lemma FailedLaunchStaysReady() returns (sys: System)
    ensures Reachable(sys) && sys.ready && !PassedSinceLaunch(sys.log, Backend)
  {
    hide Reachable;
    var before := GoodStart();
    var p := Only(Backend, Dead(0.0, true, []), 0.0);
    StepReachable(before, p);
    sys := PassStep(before, p);
    assert sys.log == before.log + [Launched(Backend, before.clock + 1.0, 1)];
  }

  // ----- Waiting -----

  function Silence(k: nat): seq<Poll> {
    seq(k, _ => Answer(false, 0.0))
  }

  /** After `k` failed probes, half a second apart. */
  function Waited(sys: System, n: Name, k: nat): System {
    if k == 0 then sys else Probe(Waited(sys, n, k - 1), n, false).Wait(0.5)
  }

  lemma {:induction false} WaitedMeaning(sys: System, n: Name, k: nat)
    ensures var t := Waited(sys, n, k);
            && t.clock == sys.clock + 0.5 * k as real
            && t.log == sys.log + seq(k, _ => Probed(n, false))
            && t.Get(n) == sys.Get(n).(healthy := k == 0 && sys.Get(n).healthy)
  {
    if k > 0 {
      WaitedMeaning(sys, n, k - 1);
      assert seq(k, _ => Probed(n, false)) == seq(k - 1, _ => Probed(n, false)) + [Probed(n, false)];
    }
  }

  lemma {:induction false} AwaitSilent(sys: System, n: Name, k: nat, tail: seq<Poll>, retries: nat)
    requires k <= retries
    ensures Await(sys, n, Silence(k) + tail, retries) == Await(Waited(sys, n, k), n, tail, retries - k)
  {
    if k == 0 {
      assert Silence(0) + tail == tail;
    } else {
      var last := [Answer(false, 0.0)];
      assert Silence(k) + tail == Silence(k - 1) + (last + tail);
      AwaitSilent(sys, n, k - 1, last + tail, retries);
      assert (last + tail)[1..] == tail;
    }
  }

  /** After `k` unanswered probes the wait ends if the retries have run out, the process has
      exited, or the next probe is answered; nothing is polled afterwards. */
  lemma {:induction false} AwaitEnds(sys: System, n: Name, k: nat, next: Poll, rest: seq<Poll>, retries: nat)
    requires k <= retries
    ensures var t, u := Waited(sys, n, k), Await(sys, n, Silence(k) + [next] + rest, retries);
            && (k == retries || next.Exited? ==> u == t)
            && (k < retries && next.Answer? && next.passed ==> u == Probe(t, n, true).Wait(next.lag))
  {
    hide Waited;
    assert Silence(k) + [next] + rest == Silence(k) + ([next] + rest);
    AwaitSilent(sys, n, k, [next] + rest, retries);
  }

  /** A restarted service that lives but never answers is probed 20 times, for ten seconds. */
  lemma RestartPatience(sys: System, n: Name, now: real, next: Poll, rest: seq<Poll>)
    requires Attempt(sys.Get(n), now) <= 5
    ensures var attempt, t := Attempt(sys.Get(n), now), VisitService(sys, n, now, Dead(0.0, false, Silence(20) + [next] + rest)).0;
            var at := sys.clock + [1.0, 2.0, 4.0, 8.0, 15.0][attempt - 1];
            && t.clock == at + 10.0 && t.Get(n) == Service(attempt, at, false)
            && t.log == sys.log + [Launched(n, at, attempt)] + seq(20, _ => Probed(n, false))
  {
    hide Await, Waited;
    var attempt := Attempt(sys.Get(n), now);
    var u := Start(sys.Wait(BACKOFF[attempt - 1] + 0.0), n, attempt);
    AwaitEnds(u, n, 20, next, rest, 20);
    WaitedMeaning(u, n, 20);
  }

  /** At startup, 60 times, for half a minute. */
  lemma BootPatience(sys: System, n: Name, next: Poll, rest: seq<Poll>)
    ensures var t := BootService(sys, n, Boot(0.0, Silence(60) + [next] + rest));
            && t.clock == sys.clock + 30.0 && t.Get(n) == Service(0, sys.clock, false)
            && t.log == sys.log + [Launched(n, sys.clock, 0)] + seq(60, _ => Probed(n, false))
  {
    hide Await, Waited;
    var u := Start(sys.Wait(0.0), n, 0);
    AwaitEnds(u, n, 60, next, rest, 60);
    WaitedMeaning(u, n, 60);
  }
}
