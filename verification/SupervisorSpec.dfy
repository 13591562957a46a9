/** The process supervisor as a state machine over its passes: what one pass of the loop
    does, given when processes die, how long sleeps take and how health probes answer. */
module SupervisorSpec {

  datatype Name = Gateway | Backend | Frontend

  /** Delays before the first to fifth consecutive restart, in seconds. */
  const BACKOFF: seq<real> := [1.0, 2.0, 4.0, 8.0, 15.0]
  const STABLE_RUN: real := 30.0
  const MAX_RESTARTS: nat := 5

  datatype Service = Service(restartCount: nat, lastStart: real, healthy: bool)

  /** What an observer sees. A launch with attempt 0 is the initial one. */
  datatype Event =
    | Launched(name: Name, at: real, attempt: nat)
    | Halted(name: Name)
    | Probed(name: Name, passed: bool)
    | Evaluated(ready: bool)
    | Operational
    | FailClosed

  datatype System = System(clock: real, gateway: Service, backend: Service, frontend: Service,
                           ready: bool, log: seq<Event>)
  {
    function Get(n: Name): Service {
      match n
      case Gateway => gateway
      case Backend => backend
      case Frontend => frontend
    }

    function Put(n: Name, s: Service): System {
      match n
      case Gateway => this.(gateway := s)
      case Backend => this.(backend := s)
      case Frontend => this.(frontend := s)
    }

    function Say(e: Event): System {
      this.(log := log + [e])
    }

    function Wait(t: real): System {
      this.(clock := clock + t)
    }
  }

  // ----- The environment -----

  /** Time that passes beyond what the code asks for. */
  type Lag = t: real | 0.0 <= t witness 0.0

  /** One round of waiting for a started process: it has exited, or a health probe answers. */
  datatype Poll = Exited | Answer(passed: bool, lag: Lag)

  /** How a pass finds a service; `launchFails` stands for an exception during the launch or
      before the wait that follows it. Polls that run out stand for the shutdown flag. */
  datatype Visit =
    | Alive
    | Raises
    | Dead(lag: Lag, launchFails: bool, polls: seq<Poll>)

  /** One pass: the visits, the answers to the probes of the readiness evaluation, and the
      time beyond the one-second sleep. */
  datatype Pass = Pass(gateway: Visit, backend: Visit, frontend: Visit,
                       backendProbe: bool, gatewayProbe: bool, frontendProbe: bool, lag: Lag)
  {
    function VisitOf(n: Name): Visit {
      match n
      case Gateway => gateway
      case Backend => backend
      case Frontend => frontend
    }
  }

  const ORDER: seq<Name> := [Gateway, Backend, Frontend]

  // ----- One service -----

  function Start(sys: System, n: Name, attempt: nat): System {
    sys.Put(n, Service(attempt, sys.clock, false)).Say(Launched(n, sys.clock, attempt))
  }

  function Probe(sys: System, n: Name, passed: bool): System {
    sys.Put(n, sys.Get(n).(healthy := passed)).Say(Probed(n, passed))
  }

  /** Probes a started process every half second until it answers, exits, or the retries run out. */
  function Await(sys: System, n: Name, polls: seq<Poll>, retries: nat): System
    decreases retries
  {
    if retries == 0 || polls == [] || polls[0].Exited? then sys
    else
      var t := Probe(sys, n, polls[0].passed).Wait(polls[0].lag);
      if polls[0].passed then t else Await(t.Wait(0.5), n, polls[1..], retries - 1)
  }

  /** `Await` from the `i`-th poll on. */
  lemma AwaitUnfolds(sys: System, n: Name, polls: seq<Poll>, i: nat, retries: nat)
    requires i <= |polls|
    ensures Await(sys, n, polls[i..], retries) ==
              if retries == 0 || i == |polls| || polls[i].Exited? then sys
              else
                var t := Probe(sys, n, polls[i].passed).Wait(polls[i].lag);
                if polls[i].passed then t else Await(t.Wait(0.5), n, polls[i + 1..], retries - 1)
  {
    if i < |polls| {
      assert polls[i..][0] == polls[i] && polls[i..][1..] == polls[i + 1..];
    }
  }

  /** The attempt number of a restart decided at time `now`. */
  function Attempt(s: Service, now: real): nat {
    (if now - s.lastStart > STABLE_RUN then 0 else s.restartCount) + 1
  }

  /** Visits one service; the flag tells whether an exception ended the pass. */
  function VisitService(sys: System, n: Name, now: real, v: Visit): (System, bool) {
    match v
    case Alive => (sys, false)
    case Raises => (sys, true)
    case Dead(lag, launchFails, polls) =>
      var attempt := Attempt(sys.Get(n), now);
      if attempt > MAX_RESTARTS then
        (sys.Put(n, sys.Get(n).(restartCount := attempt)).Say(Halted(n)), false)
      else
        var t := Start(sys.Wait(BACKOFF[attempt - 1] + lag), n, attempt);
        if launchFails then (t, true) else (Await(t, n, polls, 20), false)
  }

  // ----- The whole system -----

  /** Probes a service only if it is not already known to be healthy. */
  function Check(sys: System, n: Name, passed: bool): System {
    if sys.Get(n).healthy then sys else Probe(sys, n, passed)
  }

  function Evaluate(sys: System, backendProbe: bool, gatewayProbe: bool, frontendProbe: bool): System {
    var t := Check(Check(Check(sys, Backend, backendProbe), Gateway, gatewayProbe), Frontend, frontendProbe);
    var ready := t.backend.healthy && t.gateway.healthy;
    var u := t.(ready := ready).Say(Evaluated(ready));
    if sys.ready && !ready then u.Say(FailClosed)
    else if !sys.ready && ready then u.Say(Operational)
    else u
  }

  function Sweep(sys: System, now: real, p: Pass, names: seq<Name>): (System, bool)
    decreases |names|
  {
    if names == [] then (sys, false)
    else
      var (t, raised) := VisitService(sys, names[0], now, p.VisitOf(names[0]));
      if raised then (t, true) else Sweep(t, now, p, names[1..])
  }

  function PassStep(sys: System, p: Pass): System {
    var (t, raised) := Sweep(sys, sys.clock, p, ORDER);
    var u := if raised then t else Evaluate(t, p.backendProbe, p.gatewayProbe, p.frontendProbe);
    u.Wait(1.0 + p.lag)
  }

  function Run(sys: System, passes: seq<Pass>): System {
    if passes == [] then sys else PassStep(Run(sys, passes[..|passes| - 1]), passes[|passes| - 1])
  }

  // ----- Startup -----

  datatype Boot = Boot(lag: Lag, polls: seq<Poll>)

  function Power(clock: real): System {
    var off := Service(0, 0.0, false);
    System(clock, off, off, off, false, [])
  }

  function BootService(sys: System, n: Name, b: Boot): System {
    Await(Start(sys.Wait(b.lag), n, 0), n, b.polls, 60)
  }

  function Startup(clock: real, gateway: Boot, backend: Boot, frontend: Boot,
                   backendProbe: bool, gatewayProbe: bool, frontendProbe: bool): System
  {
    var t := BootService(BootService(BootService(Power(clock), Gateway, gateway), Backend, backend), Frontend, frontend);
    Evaluate(t, backendProbe, gatewayProbe, frontendProbe)
  }

  /** The first state of a supervisor that has started up. */
  ghost predicate Started(sys: System) {
    exists clock: real, g: Boot, b: Boot, f: Boot, bp: bool, gp: bool, fp: bool ::
      sys == Startup(clock, g, b, f, bp, gp, fp)
  }

  /** Every state that some run reaches after some pass. */
  ghost predicate Reachable(sys: System) {
    exists first: System, passes: seq<Pass> :: Started(first) && sys == Run(first, passes)
  }

  lemma StartedReachable(sys: System)
    requires Started(sys)
    ensures Reachable(sys)
  {
    assert Run(sys, []) == sys;
  }

  lemma StepReachable(sys: System, p: Pass)
    requires Reachable(sys)
    ensures Reachable(PassStep(sys, p))
  {
    hide Started, PassStep;
    var first: System, passes: seq<Pass> :| Started(first) && sys == Run(first, passes);
    var more := passes + [p];
    assert more[..|more| - 1] == passes;
    assert PassStep(sys, p) == Run(first, more);
  }
}
