/** The older single-application state machine, and its conversions to and from the supervisor's. */
module Compatibility {
  import opened Wrappers
  import S = SupervisorModel

  type AppId = S.AppId

  datatype Domain =
    | System
    | EnteringManaged
    | Manager
    | Launching(app: AppId)
    | Foreground(app: AppId)
    | Parking(app: AppId)
    | RestoringSystem
    | Sleeping
    | Recovering

  datatype Legacy = Legacy(domain: Domain, last: Option<AppId>, sequence: S.U64)

  datatype Transition =
    | TriplePower
    | SinglePower
    | Launch(app: AppId)
    | AppReady(app: AppId)
    | AppParked(app: AppId)
    | AppRestored(app: AppId)
    | AppExited(app: AppId)
    | AppCrashed(app: AppId)
    | ManagedReady
    | SystemReady
    | Sleep
    | Wake
    | Failure

  const DEFAULT := Legacy(System, None, 0)

  // ----- The older machine -----

  function Next(m: Legacy, t: Transition): Option<Domain> {
    match (m.domain, t)
    case (System, TriplePower) => Some(EnteringManaged)
    case (EnteringManaged, ManagedReady) => Some(Manager)
    case (Manager, Launch(app)) => Some(Launching(app))
    case (Manager, SinglePower) => if m.last.Some? then Some(Launching(m.last.value)) else None
    case (Manager, TriplePower) => Some(RestoringSystem)
    case (Manager, Sleep) => Some(Sleeping)
    case (Sleeping, Wake) => Some(Manager)
    case (Launching(a), AppReady(b)) => if a == b then Some(Foreground(a)) else None
    case (Launching(a), AppExited(b)) => if a == b then Some(Manager) else None
    case (Launching(a), AppCrashed(b)) => if a == b then Some(Manager) else None
    case (Foreground(a), SinglePower) => Some(Parking(a))
    case (Foreground(a), TriplePower) => Some(Parking(a))
    case (Foreground(a), AppExited(b)) => if a == b then Some(Manager) else None
    case (Foreground(a), AppCrashed(b)) => if a == b then Some(Manager) else None
    case (Parking(a), AppParked(b)) => if a == b then Some(Manager) else None
    case (Parking(a), AppRestored(b)) => if a == b then Some(Foreground(a)) else None
    case (Parking(a), AppExited(b)) => if a == b then Some(Manager) else None
    case (Parking(a), AppCrashed(b)) => if a == b then Some(Manager) else None
    case (RestoringSystem, SystemReady) => Some(System)
    case (_, Failure) => Some(Recovering)
    case (Recovering, SystemReady) => Some(System)
    case _ => None
  }

  class ManagerState {
    var domain: Domain
    var last: Option<AppId>
    var sequence: S.U64

    constructor ()
      ensures Now() == DEFAULT
    {
      domain, last, sequence := System, None, 0;
    }

    function Now(): Legacy
      reads this
    {
      Legacy(domain, last, sequence)
    }

    /** A refused transition changes nothing; an accepted one remembers the application on screen
        and counts, wrapping round. */
    method Apply(t: Transition) returns (accepted: bool)
      modifies this
      ensures Now() == Applied(old(Now()), t) && (accepted <==> Next(old(Now()), t).Some?)
    {
      var next := Next(Now(), t);
      if next.None? {
        return false;
      }
      if next.value.Foreground? || next.value.Parking? {
        last := Some(next.value.app);
      }
      domain := next.value;
      sequence := (sequence + 1) % (S.MAX_U64 + 1);
      return true;
    }
  }

  function Applied(m: Legacy, t: Transition): Legacy {
    match Next(m, t)
    case None => m
    case Some(d) =>
      var last := if d.Foreground? || d.Parking? then Some(d.app) else m.last;
      Legacy(d, last, (m.sequence + 1) % (S.MAX_U64 + 1))
  }

  function Run(m: Legacy, ts: seq<Transition>): Legacy
    decreases |ts|
  {
    if ts == [] then m else Run(Applied(m, ts[0]), ts[1..])
  }

  predicate Remembers(m: Legacy) {
    m.domain.Foreground? || m.domain.Parking? ==> m.last == Some(m.domain.app)
  }

  lemma {:induction false} RunsRemember(m: Legacy, ts: seq<Transition>)
    requires Remembers(m)
    ensures Remembers(Run(m, ts))
    decreases |ts|
  {
    if ts != [] {
      RunsRemember(Applied(m, ts[0]), ts[1..]);
    }
  }

  lemma RunOfThree(m: Legacy, a: Transition, b: Transition, c: Transition)
    ensures Run(m, [a, b, c]) == Applied(Applied(Applied(m, a), b), c)
  {
    assert [a, b, c][1..] == [b, c] && [b, c][1..] == [c];
    var second := Applied(Applied(m, a), b);
    assert Run(second, [c]) == Applied(second, c);
    assert Run(Applied(m, a), [b, c]) == Run(second, [c]);
  }

  /** The power key brings back the application it parked, however the machine got there. */
  lemma PowerKeyReturns(ts: seq<Transition>, app: AppId)
    requires Run(DEFAULT, ts).domain == Foreground(app)
    ensures Run(Run(DEFAULT, ts), [SinglePower, AppParked(app), SinglePower]).domain == Launching(app)
  {
    RunsRemember(DEFAULT, ts);
    RunOfThree(Run(DEFAULT, ts), SinglePower, AppParked(app), SinglePower);
  }

  /** The transition is news about the application. */
  predicate Tells(t: Transition, app: AppId) {
    (t.AppReady? || t.AppParked? || t.AppRestored? || t.AppExited? || t.AppCrashed?) && t.app == app
  }

  /** Each domain, with all the ways into it.  Whatever is not listed is refused. */
  lemma ReachedExactly(m: Legacy, t: Transition, d: Domain)
    ensures Next(m, t) == Some(d) <==>
              match d {
                case System => t.SystemReady? && (m.domain.RestoringSystem? || m.domain.Recovering?)
                case EnteringManaged => t.TriplePower? && m.domain.System?
                case RestoringSystem => t.TriplePower? && m.domain.Manager?
                case Sleeping => t.Sleep? && m.domain.Manager?
                case Recovering => t.Failure?
                case Launching(a) =>
                  m.domain.Manager? && (t == Launch(a) || (t.SinglePower? && m.last == Some(a)))
                case Foreground(a) =>
                  (t == AppReady(a) && m.domain == Launching(a)) || (t == AppRestored(a) && m.domain == Parking(a))
                case Parking(a) => (t.SinglePower? || t.TriplePower?) && m.domain == Foreground(a)
                case Manager =>
                  || (t.ManagedReady? && m.domain.EnteringManaged?)
                  || (t.Wake? && m.domain.Sleeping?)
                  || ((t.AppExited? || t.AppCrashed?) && m.domain in {Launching(t.app), Foreground(t.app), Parking(t.app)})
                  || (t.AppParked? && m.domain == Parking(t.app))
              }
  {
  }

  /** An accepted transition moves there, counts, and remembers what it shows or parks; a refused one
      changes nothing. */
  lemma AppliedExactly(m: Legacy, t: Transition)
    ensures var n := Applied(m, t);
            if Next(m, t).None? then n == m
            else
              && Next(m, t) == Some(n.domain)
              && n.sequence == (if m.sequence == S.MAX_U64 then 0 else m.sequence + 1)
              && n.last == match n.domain {
                   case Foreground(a) => Some(a)
                   case Parking(a) => Some(a)
                   case _ => m.last
                 }
  {
  }

  // ----- To the fenced state -----

  function Upgraded(m: Legacy): S.State {
    var domain :=
      match m.domain
      case System => S.Stock
      case EnteringManaged => S.EnteringManaged
      case RestoringSystem => S.LeavingManaged
      case Recovering => S.Recovering
      case _ => S.Managed;
    var blank := S.State(domain, m.domain.Sleeping?, None, m.last, map[], m.sequence);
    match m.domain
    case Launching(a) => blank.(apps := map[a := Sentinel(a, S.Starting)])
    case Foreground(a) => blank.(apps := map[a := Sentinel(a, S.Foreground)], foreground := Some(a))
    case Parking(a) => blank.(apps := map[a := Sentinel(a, S.Stopping)])
    case _ => blank
  }

  /** Generation one, and an epoch and lease of one for the application on screen. */
  function Sentinel(app: AppId, phase: S.Phase): S.Instance {
    var front := phase.Foreground?;
    S.Instance(S.Token(app, 1, if front then 1 else 0, if front then Some(1) else None), phase, None, "", "", None)
  }

  method Upgrade(m: Legacy) returns (state: S.State)
    ensures state == Upgraded(m)
  {
    state := S.INITIAL.(revision := m.sequence, last := m.last);
    var shown: Option<(AppId, S.Phase)> :=
      match m.domain
      case Launching(a) => Some((a, S.Starting))
      case Foreground(a) => Some((a, S.Foreground))
      case Parking(a) => Some((a, S.Stopping))
      case _ => None;
    state := state.(sleeping := m.domain.Sleeping?);
    match m.domain {
      case System => state := state.(domain := S.Stock);
      case EnteringManaged => state := state.(domain := S.EnteringManaged);
      case RestoringSystem => state := state.(domain := S.LeavingManaged);
      case Recovering => state := state.(domain := S.Recovering);
      case _ => state := state.(domain := S.Managed);
    }
    if shown.Some? {
      var (app, phase) := shown.value;
      state := state.(apps := state.apps[app := Sentinel(app, phase)]);
      if phase.Foreground? {
        state := state.(foreground := Some(app));
      }
    }
  }

  lemma UpgradeIsSound(m: Legacy)
    ensures S.Invariant(Upgraded(m))
  {
  }

  /** The operation of the fenced supervisor that does the same as a transition, where there is one. */
  function Counterpart(m: Legacy, t: Transition): Option<S.Op> {
    match Next(m, t)
    case None => None
    case Some(d) =>
      match d {
        case EnteringManaged => Some(S.TransitionDomain(S.EnteringManaged))
        case RestoringSystem => Some(S.TransitionDomain(S.LeavingManaged))
        case System => Some(S.TransitionDomain(S.Stock))
        case Sleeping => Some(S.SetSleeping(true))
        case Launching(a) => Some(S.StartApp(a, 1, None))
        case Foreground(a) => if t.AppReady? then Some(S.GrantForeground(a, 1, 1, 1)) else None
        case Manager =>
          if t.ManagedReady? then Some(S.TransitionDomain(S.Managed))
          else if t.Wake? then Some(S.SetSleeping(false))
          else None
        case Recovering =>
          if m.domain.System? || m.domain.EnteringManaged? || m.domain.Manager? || m.domain.Sleeping?
             || m.domain.RestoringSystem? then Some(S.TransitionDomain(S.Recovering))
          else None
        case Parking(_) => None
      }
  }

  /** Converting and then doing it, or doing it and then converting, comes to the same state. */
  lemma ConversionCommutes(m: Legacy, t: Transition)
    requires m.sequence < S.MAX_U64 && Counterpart(m, t).Some?
    ensures S.Do(Upgraded(m), Counterpart(m, t).value) == Ok(Upgraded(Applied(m, t)))
  {
    var next := S.Do(Upgraded(m), Counterpart(m, t).value);
    assert next.Ok? ==> next.value.apps == Upgraded(Applied(m, t)).apps;
  }

  /** The domains of the two machines move together under every transition. */
  lemma DomainsFollow(m: Legacy, t: Transition)
    ensures var a, b := Upgraded(m).domain, Upgraded(Applied(m, t)).domain;
            (a == b || S.Edge(a, b)) && (b == S.Recovering <==> t.Failure? || (m.domain.Recovering? && !t.SystemReady?))
  {
  }

  // ----- And back -----

  predicate Moving(p: S.Phase) {
    p.Starting? || p.Stopping?
  }

  /** The application the older state can name: the one on screen, or else one that is starting or
      stopping; the walk over the applications decides which. */
  predicate Names(s: S.State, i: Option<S.Instance>) {
    if s.foreground.Some? && s.foreground.value in s.apps then i == Some(s.apps[s.foreground.value])
    else if exists id :: id in s.apps && Moving(s.apps[id].phase) then
      i.Some? && Moving(i.value.phase) && exists id :: id in s.apps && s.apps[id] == i.value
    else i == None
  }

  function Shown(i: Option<S.Instance>): Domain {
    if i.None? then Manager
    else match i.value.phase {
      case Starting => Launching(i.value.token.app)
      case Foreground => Foreground(i.value.token.app)
      case Stopping => Parking(i.value.token.app)
      case _ => Manager
    }
  }

  ghost predicate DowngradesTo(s: S.State, m: Legacy) {
    && m.last == s.last && m.sequence == s.revision
    && match s.domain {
         case Stock => m.domain == System
         case EnteringManaged => m.domain == EnteringManaged
         case LeavingManaged => m.domain == RestoringSystem
         case Recovering => m.domain == Recovering
         case Managed =>
           if s.sleeping then m.domain == Sleeping
           else exists i :: Names(s, i) && m.domain == Shown(i)
       }
  }

  method Downgrade(s: S.State) returns (m: Legacy)
    ensures DowngradesTo(s, m)
  {
    var domain;
    match s.domain {
      case Stock => domain := System;
      case EnteringManaged => domain := EnteringManaged;
      case LeavingManaged => domain := RestoringSystem;
      case Recovering => domain := Recovering;
      case Managed =>
        if s.sleeping {
          domain := Sleeping;
        } else {
          var active := None;
          if s.foreground.Some? && s.foreground.value in s.apps {
            active := Some(s.apps[s.foreground.value]);
          } else {
            var rest := s.apps.Keys;
            while rest != {} && active.None?
              invariant rest <= s.apps.Keys
              invariant active.None? ==> forall id :: id in s.apps.Keys - rest ==> !Moving(s.apps[id].phase)
              invariant active.Some? ==>
                          Moving(active.value.phase) && exists id :: id in s.apps && s.apps[id] == active.value
              decreases rest
            {
              var id :| id in rest;
              if Moving(s.apps[id].phase) {
                active := Some(s.apps[id]);
              }
              rest := rest - {id};
            }
          }
          assert Names(s, active);
          domain := Shown(active);
        }
    }
    m := Legacy(domain, s.last, s.revision);
  }

  /** Up and down again is the identity, and there is no other way down. */
  lemma RoundTrip(m: Legacy, back: Legacy)
    ensures DowngradesTo(Upgraded(m), back) <==> back == m
  {
    var s := Upgraded(m);
    var i: Option<S.Instance> :=
      if m.domain.Launching? || m.domain.Foreground? || m.domain.Parking? then Some(s.apps[m.domain.app]) else None;
    if s.domain == S.Managed && !s.sleeping {
      if i.Some? {
        assert m.domain.app in s.apps;
      }
      assert Names(s, i) && m.domain == Shown(i);
      forall other | Names(s, other)
        ensures other == i
      {
      }
    }
  }

  /** Of a valid fenced state, the older one shows an application exactly when it is on screen. */
  lemma DowngradeShowsForeground(s: S.State, m: Legacy, app: AppId)
    requires S.Invariant(s) && DowngradesTo(s, m)
    ensures m.domain == Foreground(app) <==> s.foreground == Some(app)
  {
    if s.domain == S.Managed && !s.sleeping {
      var i :| Names(s, i) && m.domain == Shown(i);
    }
  }

  /** The older counter wraps where the fenced one refuses: a converted state is frozen, refusing
      every operation, exactly at the last sequence number, where the older machine still moves. */
  lemma FrozenExactlyAtTheEnd(m: Legacy)
    ensures (forall op :: S.Do(Upgraded(m), op).Err?) <==> m.sequence == S.MAX_U64
    ensures Applied(m, Failure).domain == Recovering
    ensures m.sequence == S.MAX_U64 ==> Applied(m, Failure).sequence == 0
  {
    var s := Upgraded(m);
    var way := S.TransitionDomain(if s.domain == S.Recovering then S.Stock else S.Recovering);
    if m.sequence != S.MAX_U64 {
      assert S.Do(s, way).Ok?;
    }
  }
}
