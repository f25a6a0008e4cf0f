/** The supervisor as remagic-core runs it: one object whose operations check first and then change
    its fields, and whose validation walks over the applications. */
module SupervisorStore {
  import opened Wrappers
  import opened SupervisorModel

  predicate InstanceFault(i: Instance, e: Error) {
    match e
    case ZeroGeneration(app) => i.token.app == app && i.token.generation == 0
    case ZeroLease(app) => i.token.app == app && i.token.lease == Some(0)
    case ForegroundWithoutLease(app) => i.token.app == app && i.phase == Foreground && i.token.lease.None?
    case LeaseOutsideForeground(app) => i.token.app == app && i.phase != Foreground && i.token.lease.Some?
    case _ => false
  }

  /** The state really has the fault that a validation error names. */
  predicate Fault(s: State, e: Error) {
    match e
    case MismatchedAppKey(key, app) => key in s.apps && s.apps[key].token.app == app != key
    case MultipleForegroundApps =>
      exists a, b :: a in s.apps && b in s.apps && a != b && s.apps[a].phase == Foreground == s.apps[b].phase
    case ForegroundPointerMismatch =>
      || (s.foreground.Some? && (s.foreground.value in s.apps ==> s.apps[s.foreground.value].phase != Foreground))
      || (exists id :: id in s.apps && s.apps[id].phase == Foreground && s.foreground != Some(id))
    case SleepOutsideManaged => s.sleeping && s.domain != Managed
    case ForegroundWhileSleeping => s.sleeping && s.foreground.Some?
    case ForegroundOutsideManaged => s.foreground.Some? && s.domain != Managed
    case RunningAppInStockDomain => s.domain == Stock && exists id :: id in s.apps && !s.apps[id].phase.Terminal()
    case _ => exists id :: id in s.apps && InstanceFault(s.apps[id], e)
  }

  class Supervisor {
    var domain: Domain
    var sleeping: bool
    var foreground: Option<AppId>
    var last: Option<AppId>
    var apps: map<AppId, Instance>
    var revision: U64

    constructor ()
      ensures Now() == INITIAL
    {
      domain, sleeping, foreground, last, apps, revision := Stock, false, None, None, map[], 0;
    }

    function Now(): State
      reads this
    {
      State(domain, sleeping, foreground, last, apps, revision)
    }

    /** The outcome of an operation: its state and the token it hands out, or an error and no change. */
    twostate predicate Did(op: Op, new r: Result<Token, Error>)
      requires !op.TransitionDomain? && !op.SetSleeping?
      reads this
    {
      match Do(old(Now()), op)
      case Ok(next) => Now() == next && op.app in next.apps && r == Ok(next.apps[op.app].token)
      case Err(e) => Now() == old(Now()) && r == Err(e)
    }

    // ----- Validation -----

    method ValidateInstance(i: Instance) returns (r: Option<Error>)
      ensures r.None? <==>
                && i.token.generation != 0 && i.token.lease != Some(0)
                && (i.phase == Foreground <==> i.token.lease.Some?)
      ensures r.Some? ==> InstanceFault(i, r.value)
    {
      if i.token.generation == 0 {
        return Some(ZeroGeneration(i.token.app));
      }
      if i.token.lease == Some(0) {
        return Some(ZeroLease(i.token.app));
      }
      if i.phase == Foreground && i.token.lease.None? {
        return Some(ForegroundWithoutLease(i.token.app));
      }
      if i.phase != Foreground && i.token.lease.Some? {
        return Some(LeaseOutsideForeground(i.token.app));
      }
      return None;
    }

    /** Walks over the applications.  Since only the one foreground application may hold a lease, it
        never finds a lease held twice. */
    method ValidateApps() returns (r: Option<Error>, front: Option<AppId>)
      ensures r.None? ==> forall id :: id in apps ==> InstanceSound(id, apps[id])
      ensures r.None? ==> forall id :: id in apps ==> (apps[id].phase == Foreground <==> front == Some(id))
      ensures r.None? && front.Some? ==> front.value in apps
      ensures r.Some? ==> Fault(Now(), r.value) && !Invariant(Now())
    {
      front := None;
      var leases: set<U64>, rest := {}, apps.Keys;
      while rest != {}
        invariant rest <= apps.Keys
        invariant forall id :: id in apps.Keys - rest ==> InstanceSound(id, apps[id])
        invariant forall id :: id in apps.Keys - rest ==> (apps[id].phase == Foreground <==> front == Some(id))
        invariant front.Some? ==> front.value in apps.Keys - rest
        invariant front.None? ==> leases == {}
        decreases rest
      {
        var id :| id in rest;
        var instance := apps[id];
        if id != instance.token.app {
          return Some(MismatchedAppKey(id, instance.token.app)), front;
        }
        var invalid := ValidateInstance(instance);
        if invalid.Some? {
          return invalid, front;
        }
        if instance.phase == Foreground {
          if front.Some? {
            assert front.value != id && apps[front.value].phase == Foreground;
            return Some(MultipleForegroundApps), front;
          }
          front := Some(id);
        }
        if instance.token.lease.Some? {
          if instance.token.lease.value in leases {
            assert false; // a second lease would be a second foreground application
          }
          leases := leases + {instance.token.lease.value};
        }
        rest := rest - {id};
      }
      r := None;
    }

    /** Validation succeeds exactly on the states of the declarative invariant, and an error it
        reports is there. */
    method Validate() returns (r: Option<Error>)
      ensures r.None? <==> Invariant(Now())
      ensures r.Some? ==> Fault(Now(), r.value)
    {
      if sleeping && domain != Managed {
        return Some(SleepOutsideManaged);
      }
      var fault, front := ValidateApps();
      if fault.Some? {
        return fault;
      }
      if front != foreground {
        return Some(ForegroundPointerMismatch);
      }
      if sleeping && foreground.Some? {
        return Some(ForegroundWhileSleeping);
      }
      if domain != Managed {
        if foreground.Some? {
          return Some(ForegroundOutsideManaged);
        }
        if domain == Stock && exists id :: id in apps && !apps[id].phase.Terminal() {
          return Some(RunningAppInStockDomain);
        }
      }
      return None;
    }

    // ----- Operations -----

    /** Store an instance and count the change. */
    method Put(app: AppId, i: Instance)
      requires revision < MAX_U64
      modifies this`apps, this`revision
      ensures apps == old(apps)[app := i] && revision == old(revision) + 1
    {
      apps := apps[app := i];
      revision := revision + 1;
    }

    method StartApp(app: AppId, generation: U64, pid: Option<nat>) returns (r: Result<Token, Error>)
      modifies this
      ensures Did(Op.StartApp(app, generation, pid), r)
    {
      if revision == MAX_U64 {
        return Err(RevisionOverflow);
      }
      if domain != Managed || sleeping {
        return Err(LaunchOutsideActiveManaged);
      }
      if generation == 0 {
        return Err(ZeroGeneration(app));
      }
      if app in apps {
        if generation <= apps[app].token.generation {
          return Err(StaleGeneration(app, apps[app].token.generation, generation));
        }
        if !apps[app].phase.Terminal() {
          return Err(AppAlreadyRunning(app));
        }
      }
      var token := Token(app, generation, 0, None);
      Put(app, Instance(token, Starting, pid, "", "", None));
      return Ok(token);
    }

    method GrantForeground(app: AppId, generation: U64, epoch: U64, lease: U64) returns (r: Result<Token, Error>)
      modifies this
      ensures Did(Op.GrantForeground(app, generation, epoch, lease), r)
    {
      if revision == MAX_U64 {
        return Err(RevisionOverflow);
      }
      if domain != Managed || sleeping {
        return Err(LaunchOutsideActiveManaged);
      }
      if foreground.Some? {
        return Err(MultipleForegroundApps);
      }
      var current := Current(Now(), app, generation);
      if current.Err? {
        return Err(current.error);
      }
      var i := current.value;
      if i.phase !in {Starting, Background} {
        return Err(InvalidAppTransition(app, i.phase, Foreground));
      }
      if epoch == 0 || epoch <= i.token.epoch {
        return Err(StaleForegroundEpoch(app, i.token.epoch, epoch));
      }
      if lease == 0 {
        return Err(ZeroLease(app));
      }
      var token := i.token.(epoch := epoch, lease := Some(lease));
      foreground, last := Some(app), Some(app);
      Put(app, i.(token := token, phase := Foreground));
      return Ok(token);
    }

    method MarkBackgroundReady(app: AppId, generation: U64, title: string, subtitle: string)
      returns (r: Result<Token, Error>)
      modifies this
      ensures Did(Op.MarkBackgroundReady(app, generation, title, subtitle), r)
    {
      if revision == MAX_U64 {
        return Err(RevisionOverflow);
      }
      var current := Current(Now(), app, generation);
      if current.Err? {
        return Err(current.error);
      }
      var i := current.value;
      if i.phase != Starting {
        return Err(InvalidAppTransition(app, i.phase, Background));
      }
      Put(app, i.(phase := Background, title := title, subtitle := subtitle));
      return Ok(i.token);
    }

    method EnterBackground(app: AppId, generation: U64, epoch: U64) returns (r: Result<Token, Error>)
      modifies this
      ensures Did(Op.EnterBackground(app, generation, epoch), r)
    {
      if revision == MAX_U64 {
        return Err(RevisionOverflow);
      }
      var current := Current(Now(), app, generation);
      if current.Err? {
        return Err(current.error);
      }
      var i := current.value;
      if i.phase != Foreground || i.token.epoch != epoch {
        return Err(StaleForegroundEpoch(app, Previous(i.token.epoch), epoch));
      }
      var token := i.token.(lease := None);
      foreground, last := None, Some(app);
      Put(app, i.(token := token, phase := Background));
      return Ok(token);
    }

    method BeginStop(app: AppId, generation: U64) returns (r: Result<Token, Error>)
      modifies this
      ensures Did(Op.BeginStop(app, generation), r)
    {
      if revision == MAX_U64 {
        return Err(RevisionOverflow);
      }
      var current := Current(Now(), app, generation);
      if current.Err? {
        return Err(current.error);
      }
      var i := current.value;
      if i.phase.Terminal() || i.phase == Stopping {
        return Err(InvalidAppTransition(app, i.phase, Stopping));
      }
      var token := i.token.(lease := None);
      if foreground == Some(app) {
        foreground := None;
      }
      Put(app, i.(token := token, phase := Stopping));
      return Ok(token);
    }

    method FinishApp(app: AppId, generation: U64, crashed: bool, error: Option<string>) returns (r: Result<Token, Error>)
      modifies this
      ensures Did(Op.FinishApp(app, generation, crashed, error), r)
    {
      if revision == MAX_U64 {
        return Err(RevisionOverflow);
      }
      var current := Current(Now(), app, generation);
      if current.Err? {
        return Err(current.error);
      }
      var i, end := current.value, if crashed then Crashed else Exited;
      if i.phase.Terminal() {
        return Err(InvalidAppTransition(app, i.phase, end));
      }
      var token := i.token.(lease := None);
      if foreground == Some(app) {
        foreground := None;
      }
      Put(app, i.(token := token, phase := end, pid := None, lastError := error));
      return Ok(token);
    }

    method MarkUnresponsive(app: AppId, generation: U64, message: string) returns (r: Result<Token, Error>)
      modifies this
      ensures Did(Op.MarkUnresponsive(app, generation, message), r)
    {
      if revision == MAX_U64 {
        return Err(RevisionOverflow);
      }
      var current := Current(Now(), app, generation);
      if current.Err? {
        return Err(current.error);
      }
      var i := current.value;
      if i.phase.Terminal() || i.phase == Unresponsive {
        return Err(InvalidAppTransition(app, i.phase, Unresponsive));
      }
      var token := i.token.(lease := None);
      if foreground == Some(app) {
        foreground := None;
      }
      Put(app, i.(token := token, phase := Unresponsive, lastError := Some(message)));
      return Ok(token);
    }

    method ReleaseAll()
      modifies this`apps
      ensures apps == map id | id in old(apps) :: Release(old(apps)[id])
    {
      var start, rest := apps, apps.Keys;
      while rest != {}
        invariant rest <= start.Keys && apps.Keys == start.Keys
        invariant forall id :: id in start ==> apps[id] == if id in rest then start[id] else Release(start[id])
        decreases rest
      {
        var id :| id in rest;
        apps := apps[id := Release(apps[id])];
        rest := rest - {id};
      }
    }

    method TransitionDomain(next: Domain) returns (r: Option<Error>)
      modifies this
      ensures match Do(old(Now()), Op.TransitionDomain(next))
              case Ok(s) => Now() == s && r == None
              case Err(e) => Now() == old(Now()) && r == Some(e)
    {
      if revision == MAX_U64 {
        return Some(RevisionOverflow);
      }
      if !Edge(domain, next) {
        return Some(InvalidDomainTransition(domain, next));
      }
      if next == Stock && exists id :: id in apps && !apps[id].phase.Terminal() {
        return Some(RunningAppInStockDomain);
      }
      if next != Managed {
        sleeping, foreground := false, None;
        ReleaseAll();
      }
      domain, revision := next, revision + 1;
      return None;
    }

    method SetSleeping(sleeping: bool) returns (r: Option<Error>)
      modifies this
      ensures match Do(old(Now()), Op.SetSleeping(sleeping))
              case Ok(s) => Now() == s && r == None
              case Err(e) => Now() == old(Now()) && r == Some(e)
    {
      if revision == MAX_U64 {
        return Some(RevisionOverflow);
      }
      if domain != Managed {
        return Some(SleepOutsideManaged);
      }
      if sleeping && foreground.Some? {
        return Some(ForegroundWhileSleeping);
      }
      this.sleeping := sleeping;
      revision := revision + 1;
      return None;
    }
  }
}
