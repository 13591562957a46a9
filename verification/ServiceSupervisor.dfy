/** The supervisor and its services as objects updated in place; each method refines the
    state machine of SupervisorSpec. */
module ServiceSupervisor {
  import opened SupervisorSpec
  import RestartPacing
  import Readiness

  class ManagedService {
    const name: Name
    var restartCount: nat
    var lastStartTime: real
    var isHealthy: bool

    constructor (name: Name)
      ensures this.name == name && restartCount == 0 && lastStartTime == 0.0 && !isHealthy
    {
      this.name := name;
      restartCount, lastStartTime, isHealthy := 0, 0.0, false;
    }

    function Snapshot(): Service
      reads this
    {
      Service(restartCount, lastStartTime, isHealthy)
    }
  }

  class ServiceSupervisor {
    const gateway: ManagedService
    const backend: ManagedService
    const frontend: ManagedService
    var tradingReady: bool

    /** The wall clock, and what an observer of the log sees. */
    var clock: real
    var log: seq<Event>

    ghost predicate Valid()
    {
      gateway.name == Gateway && backend.name == Backend && frontend.name == Frontend
    }

    ghost function Abstract(): System
      reads this, gateway, backend, frontend
    {
      System(clock, gateway.Snapshot(), backend.Snapshot(), frontend.Snapshot(), tradingReady, log)
    }

    predicate Owns(svc: ManagedService) {
      svc == gateway || svc == backend || svc == frontend
    }

    constructor (clock: real)
      ensures Valid() && fresh(gateway) && fresh(backend) && fresh(frontend)
      ensures Abstract() == Power(clock)
    {
      gateway := new ManagedService(Gateway);
      backend := new ManagedService(Backend);
      frontend := new ManagedService(Frontend);
      tradingReady, log := false, [];
      this.clock := clock;
    }

    method Start(svc: ManagedService)
      requires Valid() && Owns(svc)
      modifies this, svc
      ensures Abstract() == SupervisorSpec.Start(old(Abstract()), svc.name, old(svc.restartCount))
      ensures svc.restartCount == old(svc.restartCount)
    {
      svc.isHealthy := false;
      svc.lastStartTime := clock;
      log := log + [Launched(svc.name, clock, svc.restartCount)];
    }

    method CheckHealth(svc: ManagedService, passed: bool)
      requires Valid() && Owns(svc)
      modifies this, svc
      ensures Abstract() == Probe(old(Abstract()), svc.name, passed)
      ensures tradingReady == old(tradingReady)
      ensures svc.isHealthy == passed && svc.restartCount == old(svc.restartCount)
    {
      svc.isHealthy := passed;
      log := log + [Probed(svc.name, passed)];
    }

    method AwaitReadiness(svc: ManagedService, polls: seq<Poll>, maxRetries: nat) returns (ready: bool)
      requires Valid() && Owns(svc)
      modifies this, svc
      ensures Abstract() == Await(old(Abstract()), svc.name, polls, maxRetries)
      ensures svc.restartCount == old(svc.restartCount)
    {
      hide Await, Probe;
      assert polls[0..] == polls;
      var i := 0;
      while i < maxRetries
        invariant i <= maxRetries && i <= |polls| && svc.restartCount == old(svc.restartCount)
        invariant Await(Abstract(), svc.name, polls[i..], maxRetries - i) == Await(old(Abstract()), svc.name, polls, maxRetries)
      {
        AwaitUnfolds(Abstract(), svc.name, polls, i, maxRetries - i);
        if i == |polls| {
          return false;
        }
        match polls[i] {
          case Exited =>
            return false;
          case Answer(passed, lag) =>
            CheckHealth(svc, passed);
            clock := clock + lag;
            if passed {
              return true;
            }
            clock := clock + 0.5;
        }
        i := i + 1;
      }
      AwaitUnfolds(Abstract(), svc.name, polls, i, 0);
      return false;
    }

    method EvaluateSystemReadiness(backendProbe: bool, gatewayProbe: bool, frontendProbe: bool)
      requires Valid()
      modifies this, gateway, backend, frontend
      ensures Abstract() == Evaluate(old(Abstract()), backendProbe, gatewayProbe, frontendProbe)
    {
      hide Check;
      Recheck(backend, backendProbe);
      Recheck(gateway, gatewayProbe);
      Recheck(frontend, frontendProbe);
      var prevReady := tradingReady;
      tradingReady := backend.isHealthy && gateway.isHealthy;
      log := log + [Evaluated(tradingReady)];
      if prevReady && !tradingReady {
        log := log + [FailClosed];
      } else if !prevReady && tradingReady {
        log := log + [Operational];
      }
    }

    method Recheck(svc: ManagedService, passed: bool)
      requires Valid() && Owns(svc)
      modifies this, svc
      ensures Abstract() == Check(old(Abstract()), svc.name, passed)
      ensures tradingReady == old(tradingReady)
    {
      if !svc.isHealthy {
        CheckHealth(svc, passed);
      }
    }

    /** Supervises one service of a pass that started at `now`. */
    method Supervise(svc: ManagedService, now: real, v: Visit) returns (raised: bool)
      requires Valid() && Owns(svc)
      modifies this, svc
      ensures (Abstract(), raised) == VisitService(old(Abstract()), svc.name, now, v)
    {
      hide Await;
      match v {
        case Alive =>
          return false;
        case Raises =>
          return true;
        case Dead(lag, launchFails, polls) =>
          if now - svc.lastStartTime > STABLE_RUN {
            svc.restartCount := 0;
          }
          svc.restartCount := svc.restartCount + 1;
          if svc.restartCount > MAX_RESTARTS {
            log := log + [Halted(svc.name)];
            return false;
          }
          var delayIdx := if svc.restartCount - 1 < |BACKOFF| - 1 then svc.restartCount - 1 else |BACKOFF| - 1;
          clock := clock + (BACKOFF[delayIdx] + lag);
          Start(svc);
          if launchFails {
            return true;
          }
          var ready := AwaitReadiness(svc, polls, 20);
          return false;
      }
    }

    /** One iteration of the supervision loop. */
    method SupervisionPass(p: Pass)
      requires Valid()
      modifies this, gateway, backend, frontend
      ensures Abstract() == PassStep(old(Abstract()), p)
    {
      hide VisitService, Evaluate;
      var now := clock;
      var services := [gateway, backend, frontend];
      var raised := false;
      var i := 0;
      while i < |services| && !raised
        invariant i <= |services|
        invariant if raised then Sweep(old(Abstract()), now, p, ORDER) == (Abstract(), true)
                  else Sweep(Abstract(), now, p, ORDER[i..]) == Sweep(old(Abstract()), now, p, ORDER)
        decreases |services| - i, !raised
      {
        assert services[i].name == ORDER[i] && ORDER[i..][0] == ORDER[i] && ORDER[i..][1..] == ORDER[i + 1..];
        raised := Supervise(services[i], now, p.VisitOf(services[i].name));
        i := i + 1;
      }
      if !raised {
        EvaluateSystemReadiness(p.backendProbe, p.gatewayProbe, p.frontendProbe);
      }
      clock := clock + (1.0 + p.lag);
    }

    /** The supervision loop until shutdown. */
    method RunSupervisionLoop(passes: seq<Pass>)
      requires Valid()
      modifies this, gateway, backend, frontend
      ensures Abstract() == Run(old(Abstract()), passes)
    {
      for i := 0 to |passes|
        invariant Abstract() == Run(old(Abstract()), passes[..i])
      {
        assert passes[..i + 1][..i] == passes[..i];
        SupervisionPass(passes[i]);
      }
      assert passes[..|passes|] == passes;
    }

    method Boot(svc: ManagedService, b: SupervisorSpec.Boot)
      requires Valid() && Owns(svc) && svc.restartCount == 0
      modifies this, svc
      ensures Abstract() == BootService(old(Abstract()), svc.name, b)
      ensures svc.restartCount == 0
    {
      hide Await;
      clock := clock + b.lag;
      Start(svc);
      var ready := AwaitReadiness(svc, b.polls, 60);
    }

    /** Starts the services in order and evaluates readiness for the first time. */
    method Startup(g: SupervisorSpec.Boot, b: SupervisorSpec.Boot, f: SupervisorSpec.Boot,
                   backendProbe: bool, gatewayProbe: bool, frontendProbe: bool)
      requires Valid() && Abstract() == Power(clock)
      modifies this, gateway, backend, frontend
      ensures Abstract() == SupervisorSpec.Startup(old(clock), g, b, f, backendProbe, gatewayProbe, frontendProbe)
    {
      hide BootService, Evaluate;
      Boot(gateway, g);
      Boot(backend, b);
      Boot(frontend, f);
      EvaluateSystemReadiness(backendProbe, gatewayProbe, frontendProbe);
    }

    /** A supervisor's whole life: startup, then the loop. Whatever happens on the way, its
        restarts are bounded, its evaluations truthful and its announcements alternating. */
    method StartAndSupervise(g: SupervisorSpec.Boot, b: SupervisorSpec.Boot, f: SupervisorSpec.Boot,
                             backendProbe: bool, gatewayProbe: bool, frontendProbe: bool, passes: seq<Pass>)
      requires Valid() && Abstract() == Power(clock)
      modifies this, gateway, backend, frontend
      ensures Abstract() == Run(SupervisorSpec.Startup(old(clock), g, b, f, backendProbe, gatewayProbe, frontendProbe), passes)
      ensures Reachable(Abstract())
      ensures forall n :: RestartPacing.RateBounded(RestartPacing.Restarts(log, n))
      ensures Readiness.EvaluatedTruly(log) && Readiness.Alternates(Readiness.Announcements(log))
      ensures var a := Readiness.Announcements(log); tradingReady <==> a != [] && a[|a| - 1] == Operational
    {
      hide SupervisorSpec.Startup, Run, RestartPacing.RateBounded, Readiness.EvaluatedTruly, Readiness.Alternates;
      Startup(g, b, f, backendProbe, gatewayProbe, frontendProbe);
      assert Started(Abstract());
      RunSupervisionLoop(passes);
      assert Reachable(Abstract());
      forall n: Name
        ensures RestartPacing.RateBounded(RestartPacing.Restarts(log, n))
      {
        RestartPacing.RestartsAreBounded(Abstract(), n);
      }
      Readiness.ReadinessOverRuns(Abstract());
    }
  }
}
