/** The supervisor's state and what each of its operations makes of it: remagic-core's v2 state. */
module SupervisorModel {
  import opened Wrappers

  const MAX_U64 := 0xFFFF_FFFF_FFFF_FFFF

  type U64 = n: int | 0 <= n <= MAX_U64

  type AppId = string

  datatype Domain = Stock | EnteringManaged | Managed | LeavingManaged | Recovering

  datatype Phase = Starting | Foreground | Background | Stopping | Exited | Crashed | Unresponsive {
    predicate Terminal() {
      Exited? || Crashed?
    }
  }

  /** The fence on every message: generation against an old process, epoch and lease against stale
      foreground work of the same process. */
  datatype Token = Token(app: AppId, generation: U64, epoch: U64, lease: Option<U64>)

  datatype Instance = Instance(
    token: Token, phase: Phase, pid: Option<nat>, title: string, subtitle: string, lastError: Option<string>)

  datatype State = State(
    domain: Domain,
    sleeping: bool,
    foreground: Option<AppId>,
    last: Option<AppId>,
    apps: map<AppId, Instance>,
    revision: U64)

  datatype Error =
    | ZeroGeneration(app: AppId)
    | ZeroLease(app: AppId)
    | ForegroundWithoutLease(app: AppId)
    | LeaseOutsideForeground(app: AppId)
    | MismatchedAppKey(key: AppId, app: AppId)
    | MultipleForegroundApps
    | DuplicateLease(lease: U64)
    | ForegroundPointerMismatch
    | SleepOutsideManaged
    | ForegroundWhileSleeping
    | ForegroundOutsideManaged
    | RunningAppInStockDomain
    | InvalidDomainTransition(fromDomain: Domain, toDomain: Domain)
    | LaunchOutsideActiveManaged
    | AppAlreadyRunning(app: AppId)
    | UnknownApp(app: AppId)
    | StaleGeneration(app: AppId, expectedAfter: U64, actual: U64)
    | StaleForegroundEpoch(app: AppId, expectedAfter: U64, actual: U64)
    | InvalidAppTransition(app: AppId, fromPhase: Phase, toPhase: Phase)
    | RevisionOverflow

  datatype Op =
    | StartApp(app: AppId, generation: U64, pid: Option<nat>)
    | GrantForeground(app: AppId, generation: U64, epoch: U64, lease: U64)
    | MarkBackgroundReady(app: AppId, generation: U64, title: string, subtitle: string)
    | EnterBackground(app: AppId, generation: U64, epoch: U64)
    | BeginStop(app: AppId, generation: U64)
    | FinishApp(app: AppId, generation: U64, crashed: bool, error: Option<string>)
    | MarkUnresponsive(app: AppId, generation: U64, message: string)
    | TransitionDomain(next: Domain)
    | SetSleeping(sleeping: bool)

  const INITIAL := State(Stock, false, None, None, map[], 0)

  // ----- The declarative invariant -----

  predicate InstanceSound(id: AppId, i: Instance) {
    && i.token.app == id && i.token.generation != 0 && i.token.lease != Some(0)
    && (i.phase == Foreground <==> i.token.lease.Some?)
  }

  predicate Invariant(s: State) {
    && (forall id :: id in s.apps ==> InstanceSound(id, s.apps[id]))
    && (forall id :: id in s.apps ==> (s.apps[id].phase == Foreground <==> s.foreground == Some(id)))
    && (s.foreground.Some? ==> s.foreground.value in s.apps && s.domain == Managed && !s.sleeping)
    && (s.sleeping ==> s.domain == Managed)
    && (s.domain == Stock ==> forall id :: id in s.apps ==> s.apps[id].phase.Terminal())
  }

  // ----- Operations -----

  function Previous(n: U64): U64 {
    if n == 0 then 0 else n - 1
  }

  /** The running instance of a generation. */
  function Current(s: State, app: AppId, generation: U64): Result<Instance, Error> {
    if app !in s.apps then Err(UnknownApp(app))
    else if s.apps[app].token.generation != generation then
      Err(StaleGeneration(app, Previous(s.apps[app].token.generation), generation))
    else Ok(s.apps[app])
  }

  function Put(s: State, app: AppId, i: Instance): State
    requires s.revision < MAX_U64
  {
    s.(apps := s.apps[app := i], revision := s.revision + 1)
  }

  /** The state without the foreground, if it was this application's. */
  function Unfocus(s: State, app: AppId): State {
    if s.foreground == Some(app) then s.(foreground := None) else s
  }

  function Start(s: State, app: AppId, generation: U64, pid: Option<nat>): Result<State, Error>
    requires s.revision < MAX_U64
  {
    if s.domain != Managed || s.sleeping then Err(LaunchOutsideActiveManaged)
    else if generation == 0 then Err(ZeroGeneration(app))
    else if app in s.apps && generation <= s.apps[app].token.generation then
      Err(StaleGeneration(app, s.apps[app].token.generation, generation))
    else if app in s.apps && !s.apps[app].phase.Terminal() then Err(AppAlreadyRunning(app))
    else Ok(Put(s, app, Instance(Token(app, generation, 0, None), Starting, pid, "", "", None)))
  }

  function Grant(s: State, app: AppId, generation: U64, epoch: U64, lease: U64): Result<State, Error>
    requires s.revision < MAX_U64
  {
    if s.domain != Managed || s.sleeping then Err(LaunchOutsideActiveManaged)
    else if s.foreground.Some? then Err(MultipleForegroundApps)
    else match Current(s, app, generation) {
      case Err(e) => Err(e)
      case Ok(i) =>
        if i.phase !in {Starting, Background} then Err(InvalidAppTransition(app, i.phase, Foreground))
        else if epoch == 0 || epoch <= i.token.epoch then Err(StaleForegroundEpoch(app, i.token.epoch, epoch))
        else if lease == 0 then Err(ZeroLease(app))
        else
          var token := i.token.(epoch := epoch, lease := Some(lease));
          Ok(Put(s.(foreground := Some(app), last := Some(app)), app, i.(token := token, phase := Foreground)))
    }
  }

  function Ready(s: State, app: AppId, generation: U64, title: string, subtitle: string): Result<State, Error>
    requires s.revision < MAX_U64
  {
    match Current(s, app, generation) {
      case Err(e) => Err(e)
      case Ok(i) =>
        if i.phase != Starting then Err(InvalidAppTransition(app, i.phase, Background))
        else Ok(Put(s, app, i.(phase := Background, title := title, subtitle := subtitle)))
    }
  }

  function Park(s: State, app: AppId, generation: U64, epoch: U64): Result<State, Error>
    requires s.revision < MAX_U64
  {
    match Current(s, app, generation) {
      case Err(e) => Err(e)
      case Ok(i) =>
        if i.phase != Foreground || i.token.epoch != epoch then
          Err(StaleForegroundEpoch(app, Previous(i.token.epoch), epoch))
        else
          var parked := i.(token := i.token.(lease := None), phase := Background);
          Ok(Put(s.(foreground := None, last := Some(app)), app, parked))
    }
  }

  function Stop(s: State, app: AppId, generation: U64): Result<State, Error>
    requires s.revision < MAX_U64
  {
    match Current(s, app, generation) {
      case Err(e) => Err(e)
      case Ok(i) =>
        if i.phase.Terminal() || i.phase == Stopping then Err(InvalidAppTransition(app, i.phase, Stopping))
        else Ok(Put(Unfocus(s, app), app, i.(token := i.token.(lease := None), phase := Stopping)))
    }
  }

  function Finish(s: State, app: AppId, generation: U64, crashed: bool, error: Option<string>): Result<State, Error>
    requires s.revision < MAX_U64
  {
    var end := if crashed then Crashed else Exited;
    match Current(s, app, generation) {
      case Err(e) => Err(e)
      case Ok(i) =>
        if i.phase.Terminal() then Err(InvalidAppTransition(app, i.phase, end))
        else
          var ended := i.(token := i.token.(lease := None), phase := end, pid := None, lastError := error);
          Ok(Put(Unfocus(s, app), app, ended))
    }
  }

  function Hang(s: State, app: AppId, generation: U64, message: string): Result<State, Error>
    requires s.revision < MAX_U64
  {
    match Current(s, app, generation) {
      case Err(e) => Err(e)
      case Ok(i) =>
        if i.phase.Terminal() || i.phase == Unresponsive then Err(InvalidAppTransition(app, i.phase, Unresponsive))
        else
          var hung := i.(token := i.token.(lease := None), phase := Unresponsive, lastError := Some(message));
          Ok(Put(Unfocus(s, app), app, hung))
    }
  }

  predicate Edge(a: Domain, b: Domain) {
    (a, b) in {(Stock, EnteringManaged), (EnteringManaged, Managed), (Managed, LeavingManaged), (LeavingManaged, Stock),
               (Recovering, Stock), (Stock, Recovering), (EnteringManaged, Recovering), (Managed, Recovering),
               (LeavingManaged, Recovering)}
  }

  /** Outside the managed domain no instance keeps a lease, and a foreground one is stopping. */
  function Release(i: Instance): Instance {
    i.(token := i.token.(lease := None), phase := if i.phase == Foreground then Stopping else i.phase)
  }

  function Move(s: State, next: Domain): Result<State, Error>
    requires s.revision < MAX_U64
  {
    if !Edge(s.domain, next) then Err(InvalidDomainTransition(s.domain, next))
    else if next == Stock && exists id :: id in s.apps && !s.apps[id].phase.Terminal() then Err(RunningAppInStockDomain)
    else
      var moved := s.(domain := next, revision := s.revision + 1);
      if next == Managed then Ok(moved)
      else Ok(moved.(sleeping := false, foreground := None, apps := map id | id in s.apps :: Release(s.apps[id])))
  }

  function Sleep(s: State, sleeping: bool): Result<State, Error>
    requires s.revision < MAX_U64
  {
    if s.domain != Managed then Err(SleepOutsideManaged)
    else if sleeping && s.foreground.Some? then Err(ForegroundWhileSleeping)
    else Ok(s.(sleeping := sleeping, revision := s.revision + 1))
  }

  function Do(s: State, op: Op): Result<State, Error> {
    if s.revision == MAX_U64 then Err(RevisionOverflow)
    else match op {
      case StartApp(app, generation, pid) => Start(s, app, generation, pid)
      case GrantForeground(app, generation, epoch, lease) => Grant(s, app, generation, epoch, lease)
      case MarkBackgroundReady(app, generation, title, subtitle) => Ready(s, app, generation, title, subtitle)
      case EnterBackground(app, generation, epoch) => Park(s, app, generation, epoch)
      case BeginStop(app, generation) => Stop(s, app, generation)
      case FinishApp(app, generation, crashed, error) => Finish(s, app, generation, crashed, error)
      case MarkUnresponsive(app, generation, message) => Hang(s, app, generation, message)
      case TransitionDomain(next) => Move(s, next)
      case SetSleeping(sleeping) => Sleep(s, sleeping)
    }
  }

  // ----- What every operation keeps -----

  lemma OthersStand(s: State, t: State, app: AppId, i: Instance)
    requires Invariant(s) && i.token.lease.None? && i.phase != Foreground && InstanceSound(app, i)
    requires t.apps == s.apps[app := i] && t.foreground == Unfocus(s, app).foreground
    requires t.domain == s.domain && t.sleeping == s.sleeping
    requires s.domain == Stock ==> i.phase.Terminal()
    ensures Invariant(t)
  {
  }

  lemma GrantKeeps(s: State, app: AppId, generation: U64, epoch: U64, lease: U64)
    requires Invariant(s) && s.revision < MAX_U64 && Grant(s, app, generation, epoch, lease).Ok?
    ensures Invariant(Grant(s, app, generation, epoch, lease).value)
  {
  }

  lemma MoveKeeps(s: State, next: Domain)
    requires Invariant(s) && s.revision < MAX_U64 && Move(s, next).Ok?
    ensures Invariant(Move(s, next).value)
  {
  }

  lemma StartKeeps(s: State, app: AppId, generation: U64, pid: Option<nat>)
    requires Invariant(s) && s.revision < MAX_U64 && Start(s, app, generation, pid).Ok?
    ensures Invariant(Start(s, app, generation, pid).value)
  {
    var t := Start(s, app, generation, pid).value;
    OthersStand(s, t, app, t.apps[app]);
  }

  lemma ReadyKeeps(s: State, app: AppId, generation: U64, title: string, subtitle: string)
    requires Invariant(s) && s.revision < MAX_U64 && Ready(s, app, generation, title, subtitle).Ok?
    ensures Invariant(Ready(s, app, generation, title, subtitle).value)
  {
    var t := Ready(s, app, generation, title, subtitle).value;
    OthersStand(s, t, app, t.apps[app]);
  }

  lemma ParkKeeps(s: State, app: AppId, generation: U64, epoch: U64)
    requires Invariant(s) && s.revision < MAX_U64 && Park(s, app, generation, epoch).Ok?
    ensures Invariant(Park(s, app, generation, epoch).value)
  {
    var t := Park(s, app, generation, epoch).value;
    OthersStand(s, t, app, t.apps[app]);
  }

  lemma StopKeeps(s: State, app: AppId, generation: U64)
    requires Invariant(s) && s.revision < MAX_U64 && Stop(s, app, generation).Ok?
    ensures Invariant(Stop(s, app, generation).value)
  {
    var t := Stop(s, app, generation).value;
    OthersStand(s, t, app, t.apps[app]);
  }

  lemma FinishKeeps(s: State, app: AppId, generation: U64, crashed: bool, error: Option<string>)
    requires Invariant(s) && s.revision < MAX_U64 && Finish(s, app, generation, crashed, error).Ok?
    ensures Invariant(Finish(s, app, generation, crashed, error).value)
  {
    var t := Finish(s, app, generation, crashed, error).value;
    OthersStand(s, t, app, t.apps[app]);
  }

  lemma HangKeeps(s: State, app: AppId, generation: U64, message: string)
    requires Invariant(s) && s.revision < MAX_U64 && Hang(s, app, generation, message).Ok?
    ensures Invariant(Hang(s, app, generation, message).value)
  {
    var t := Hang(s, app, generation, message).value;
    OthersStand(s, t, app, t.apps[app]);
  }

  lemma OneRevision(s: State, op: Op)
    requires Do(s, op).Ok?
    ensures Do(s, op).value.revision == s.revision + 1
  {
  }

  /** Every accepted operation keeps the invariant and counts one revision. */
  lemma DoKeepsInvariant(s: State, op: Op)
    requires Invariant(s) && Do(s, op).Ok?
    ensures Invariant(Do(s, op).value) && Do(s, op).value.revision == s.revision + 1
  {
    OneRevision(s, op);
    match op
    case StartApp(app, generation, pid) => StartKeeps(s, app, generation, pid);
    case GrantForeground(app, generation, epoch, lease) => GrantKeeps(s, app, generation, epoch, lease);
    case MarkBackgroundReady(app, generation, title, subtitle) => ReadyKeeps(s, app, generation, title, subtitle);
    case EnterBackground(app, generation, epoch) => ParkKeeps(s, app, generation, epoch);
    case BeginStop(app, generation) => StopKeeps(s, app, generation);
    case FinishApp(app, generation, crashed, error) => FinishKeeps(s, app, generation, crashed, error);
    case MarkUnresponsive(app, generation, message) => HangKeeps(s, app, generation, message);
    case TransitionDomain(next) => MoveKeeps(s, next);
    case SetSleeping(_) =>
  }

  /** An operation on one application leaves every other application's record alone. */
  lemma DoIsLocal(s: State, op: Op, other: AppId)
    requires Do(s, op).Ok? && !op.TransitionDomain? && !op.SetSleeping? && other != op.app
    ensures var t := Do(s, op).value;
            (other in t.apps <==> other in s.apps) && (other in s.apps ==> t.apps[other] == s.apps[other])
  {
  }

  // ----- When an operation is accepted, and what becomes of the phase -----

  predicate Live(s: State, app: AppId, generation: U64) {
    app in s.apps && s.apps[app].token.generation == generation && !s.apps[app].phase.Terminal()
  }

  /** The guard of each operation, on a valid state. */
  predicate Enabled(s: State, op: Op) {
    match op
    case StartApp(app, generation, _) =>
      && s.domain == Managed && !s.sleeping && generation > 0
      && (app in s.apps ==> s.apps[app].phase.Terminal() && s.apps[app].token.generation < generation)
    case GrantForeground(app, generation, epoch, lease) =>
      && s.domain == Managed && !s.sleeping && s.foreground.None? && Live(s, app, generation)
      && s.apps[app].phase in {Starting, Background} && s.apps[app].token.epoch < epoch && lease > 0
    case MarkBackgroundReady(app, generation, _, _) => Live(s, app, generation) && s.apps[app].phase == Starting
    case EnterBackground(app, generation, epoch) =>
      s.foreground == Some(app) && Live(s, app, generation) && s.apps[app].token.epoch == epoch
    case BeginStop(app, generation) => Live(s, app, generation) && s.apps[app].phase != Stopping
    case FinishApp(app, generation, _, _) => Live(s, app, generation)
    case MarkUnresponsive(app, generation, _) => Live(s, app, generation) && s.apps[app].phase != Unresponsive
    case TransitionDomain(next) =>
      Edge(s.domain, next) && (next == Stock ==> forall id :: id in s.apps ==> s.apps[id].phase.Terminal())
    case SetSleeping(sleeping) => s.domain == Managed && !(sleeping && s.foreground.Some?)
  }

  /** Where an accepted operation on an application takes it. */
  function Destination(op: Op): Phase {
    match op
    case StartApp(_, _, _) => Starting
    case GrantForeground(_, _, _, _) => Foreground
    case MarkBackgroundReady(_, _, _, _) => Background
    case EnterBackground(_, _, _) => Background
    case BeginStop(_, _) => Stopping
    case FinishApp(_, _, crashed, _) => if crashed then Crashed else Exited
    case _ => Unresponsive
  }

  /** An operation is accepted exactly when it is enabled, and takes its application where it says. */
  lemma AcceptedExactly(s: State, op: Op)
    requires Invariant(s) && s.revision < MAX_U64
    ensures Do(s, op).Ok? <==> Enabled(s, op)
    ensures Do(s, op).Ok? && !op.TransitionDomain? && !op.SetSleeping? ==>
              op.app in Do(s, op).value.apps && Do(s, op).value.apps[op.app].phase == Destination(op)
  {
    match op
    case TransitionDomain(next) => MoveAcceptedExactly(s, next);
    case _ =>
  }

  lemma MoveAcceptedExactly(s: State, next: Domain)
    requires s.revision < MAX_U64
    ensures Do(s, TransitionDomain(next)).Ok? <==> Enabled(s, TransitionDomain(next))
  {
  }

  // ----- Fences -----

  predicate Older(a: Token, b: Token) {
    a.generation < b.generation || (a.generation == b.generation && a.epoch < b.epoch)
  }

  predicate SameFence(a: Token, b: Token) {
    a.generation == b.generation && a.epoch == b.epoch
  }

  /** No operation loses an application or moves its fence back; a start or a grant moves it
      strictly forward; and a lease appears only through a grant. */
  lemma FencesAdvance(s: State, op: Op, id: AppId)
    requires Do(s, op).Ok? && id in s.apps
    ensures var t := Do(s, op).value;
            && id in t.apps
            && (SameFence(s.apps[id].token, t.apps[id].token) || Older(s.apps[id].token, t.apps[id].token))
            && ((op.StartApp? || op.GrantForeground?) && op.app == id ==> Older(s.apps[id].token, t.apps[id].token))
            && (SameFence(s.apps[id].token, t.apps[id].token) && t.apps[id].token.lease.Some? ==>
                  t.apps[id].token.lease == s.apps[id].token.lease)
  {
  }

  // ----- Runs -----

  /** A refused operation leaves the state as it is. */
  function Run(s: State, ops: seq<Op>): State
    decreases |ops|
  {
    if ops == [] then s
    else Run(if Do(s, ops[0]).Ok? then Do(s, ops[0]).value else s, ops[1..])
  }

  lemma {:induction false} RunsKeepInvariant(s: State, ops: seq<Op>)
    requires Invariant(s)
    ensures Invariant(Run(s, ops)) && s.revision <= Run(s, ops).revision
    decreases |ops|
  {
    if ops != [] {
      if Do(s, ops[0]).Ok? {
        DoKeepsInvariant(s, ops[0]);
      }
      RunsKeepInvariant(if Do(s, ops[0]).Ok? then Do(s, ops[0]).value else s, ops[1..]);
    }
  }

  /** Whoever is on screen is the application to come back to; what has ended has no process; and
      what hangs says why. */
  predicate Tidy(s: State) {
    && (s.foreground.Some? ==> s.last == s.foreground)
    && forall id :: id in s.apps ==>
         && (s.apps[id].phase.Terminal() ==> s.apps[id].pid.None?)
         && (s.apps[id].phase.Unresponsive? ==> s.apps[id].lastError.Some?)
  }

  lemma EndingStaysTidy(s: State, op: Op)
    requires Tidy(s) && Do(s, op).Ok? && (op.BeginStop? || op.FinishApp? || op.MarkUnresponsive?)
    ensures Tidy(Do(s, op).value)
  {
  }

  lemma DoStaysTidy(s: State, op: Op)
    requires Tidy(s) && Do(s, op).Ok?
    ensures Tidy(Do(s, op).value)
  {
    if op.BeginStop? || op.FinishApp? || op.MarkUnresponsive? {
      EndingStaysTidy(s, op);
    }
  }

  lemma {:induction false} RunsStayTidy(s: State, ops: seq<Op>)
    requires Tidy(s)
    ensures Tidy(Run(s, ops))
    decreases |ops|
  {
    if ops != [] {
      if Do(s, ops[0]).Ok? {
        DoStaysTidy(s, ops[0]);
      }
      RunsStayTidy(if Do(s, ops[0]).Ok? then Do(s, ops[0]).value else s, ops[1..]);
    }
  }

  /** A foreground application that parks, and is then launched again as the last one, comes back in
      the same process with a newer epoch: leaving the screen and returning loses nothing but the lease. */
  lemma ParkAndReturn(s: State, app: AppId, epoch: U64, lease: U64)
    requires Invariant(s) && s.foreground == Some(app) && s.revision < MAX_U64 - 1
    requires epoch > s.apps[app].token.epoch && lease != 0
    ensures var parked := Do(s, EnterBackground(app, s.apps[app].token.generation, s.apps[app].token.epoch));
            && parked.Ok? && parked.value.foreground.None? && parked.value.last == Some(app)
            && var back := Do(parked.value, GrantForeground(app, s.apps[app].token.generation, epoch, lease));
               back.Ok? && back.value == s.(
                 apps := s.apps[app := s.apps[app].(token := s.apps[app].token.(epoch := epoch, lease := Some(lease)))],
                 last := Some(app), revision := s.revision + 2)
  {
    var parked := Do(s, EnterBackground(app, s.apps[app].token.generation, s.apps[app].token.epoch)).value;
    var back := Do(parked, GrantForeground(app, s.apps[app].token.generation, epoch, lease)).value;
    assert back.apps == s.apps[app := s.apps[app].(token := s.apps[app].token.(epoch := epoch, lease := Some(lease)))];
  }

  // ----- What an operation leaves, field by field -----

  predicate About(op: Op, id: AppId) {
    !op.TransitionDomain? && !op.SetSleeping? && op.app == id
  }

  /** An accepted domain change to anything but the managed one. */
  predicate Leaves(op: Op) {
    op.TransitionDomain? && !op.next.Managed?
  }

  lemma RecordStays(s: State, op: Op, id: AppId)
    requires Do(s, op).Ok? && id in Do(s, op).value.apps
    ensures id in s.apps || (op.StartApp? && op.app == id)
    ensures id in s.apps && !About(op, id) && !Leaves(op) ==> Do(s, op).value.apps[id] == s.apps[id]
    ensures id in s.apps && Leaves(op) ==>
              Do(s, op).value.apps[id] ==
              s.apps[id].(token := s.apps[id].token.(lease := None),
                          phase := if s.apps[id].phase.Foreground? then Stopping else s.apps[id].phase)
  {
  }

  /** A started application's record is new, whatever there was before. */
  lemma StartRecords(s: State, op: Op)
    requires Do(s, op).Ok? && op.StartApp?
    ensures op.app in Do(s, op).value.apps
    ensures Do(s, op).value.apps[op.app] == Instance(Token(op.app, op.generation, 0, None), Starting, op.pid, "", "", None)
  {
  }

  /** A grant gives the epoch and the lease; a first readiness the titles; an end takes the process and
      leaves the error; a hang leaves its message; and all but readiness and the grant take the lease. */
  lemma RecordChanges(s: State, op: Op)
    requires Invariant(s) && Do(s, op).Ok? && !op.StartApp? && !op.TransitionDomain? && !op.SetSleeping?
    ensures op.app in s.apps && op.app in Do(s, op).value.apps
    ensures var now, was := Do(s, op).value.apps[op.app], s.apps[op.app];
            && now.token == Token(op.app, was.token.generation, if op.GrantForeground? then op.epoch else was.token.epoch,
                                  if op.GrantForeground? then Some(op.lease) else None)
            && now.phase == Destination(op)
            && now.pid == (if op.FinishApp? then None else was.pid)
            && now.title == (if op.MarkBackgroundReady? then op.title else was.title)
            && now.subtitle == (if op.MarkBackgroundReady? then op.subtitle else was.subtitle)
            && now.lastError ==
               (if op.FinishApp? then op.error else if op.MarkUnresponsive? then Some(op.message) else was.lastError)
  {
  }

  /** The rest of the state: only a domain change moves the domain, only sleep, wake and leaving the
      managed domain the sleep; the foreground comes with a grant and goes with its application or with
      the domain; and the last application is the last one shown or parked. */
  lemma StateExactly(s: State, op: Op)
    requires Invariant(s) && Do(s, op).Ok?
    ensures var t := Do(s, op).value;
            && t.domain == (if op.TransitionDomain? then op.next else s.domain)
            && t.sleeping == (if op.SetSleeping? then op.sleeping else s.sleeping && !Leaves(op))
            && t.foreground ==
               (if op.GrantForeground? then Some(op.app)
                else if Leaves(op) then None
                else if s.foreground.Some? && About(op, s.foreground.value) then None
                else s.foreground)
            && t.last == (if op.GrantForeground? || op.EnterBackground? then Some(op.app) else s.last)
            && t.apps.Keys == s.apps.Keys + (if op.StartApp? then {op.app} else {})
  {
  }

  /** What the last writers of an application's record left there. */
  datatype Notes = Notes(pid: Option<nat>, title: string, subtitle: string, error: Option<string>)

  /** An accepted operation's own account of it. */
  function Noted(notes: Notes, op: Op, id: AppId): Notes {
    if !About(op, id) then notes
    else match op {
      case StartApp(_, _, pid) => Notes(pid, "", "", None)
      case MarkBackgroundReady(_, _, title, subtitle) => notes.(title := title, subtitle := subtitle)
      case FinishApp(_, _, _, error) => notes.(pid := None, error := error)
      case MarkUnresponsive(_, _, message) => notes.(error := Some(message))
      case _ => notes
    }
  }

  function Told(s: State, ops: seq<Op>, id: AppId, notes: Notes): Notes
    decreases |ops|
  {
    if ops == [] then notes
    else
      var r := Do(s, ops[0]);
      Told(if r.Ok? then r.value else s, ops[1..], id, if r.Ok? then Noted(notes, ops[0], id) else notes)
  }

  function NotesOf(i: Instance): Notes {
    Notes(i.pid, i.title, i.subtitle, i.lastError)
  }

  lemma NotesChange(s: State, op: Op, id: AppId)
    requires Invariant(s) && Do(s, op).Ok? && id in Do(s, op).value.apps
    ensures id in s.apps ==> NotesOf(Do(s, op).value.apps[id]) == Noted(NotesOf(s.apps[id]), op, id)
    ensures id !in s.apps ==> op.StartApp? && op.app == id && NotesOf(Do(s, op).value.apps[id]) == Notes(op.pid, "", "", None)
  {
    RecordStays(s, op, id);
    if About(op, id) {
      if op.StartApp? {
        StartRecords(s, op);
      } else {
        RecordChanges(s, op);
      }
    }
  }

  /** Over every run an application's process, titles and error are what it was last told. */
  lemma {:induction false} RunsRecord(s: State, ops: seq<Op>, id: AppId, notes: Notes)
    requires Invariant(s) && (id in s.apps ==> NotesOf(s.apps[id]) == notes)
    ensures id in Run(s, ops).apps ==> NotesOf(Run(s, ops).apps[id]) == Told(s, ops, id, notes)
    decreases |ops|
  {
    if ops != [] {
      var r := Do(s, ops[0]);
      if r.Ok? {
        DoKeepsInvariant(s, ops[0]);
        if id in r.value.apps {
          NotesChange(s, ops[0], id);
        }
        RunsRecord(r.value, ops[1..], id, Noted(notes, ops[0], id));
      } else {
        RunsRecord(s, ops[1..], id, notes);
      }
    }
  }

  /** What a refusal says is so. */
  predicate Cause(s: State, op: Op, e: Error) {
    match e
    case RevisionOverflow => s.revision == MAX_U64
    case LaunchOutsideActiveManaged => (op.StartApp? || op.GrantForeground?) && (!s.domain.Managed? || s.sleeping)
    case ZeroGeneration(app) => op.StartApp? && op.app == app && op.generation == 0
    case ZeroLease(app) => op.GrantForeground? && op.app == app && op.lease == 0
    case MultipleForegroundApps => op.GrantForeground? && s.foreground.Some?
    case UnknownApp(app) => About(op, app) && !op.StartApp? && app !in s.apps
    case AppAlreadyRunning(app) => op.StartApp? && op.app == app && app in s.apps && !s.apps[app].phase.Terminal()
    case StaleGeneration(app, after, actual) =>
      && About(op, app) && app in s.apps && actual == op.generation
      && (if op.StartApp? then after == s.apps[app].token.generation >= actual
          else s.apps[app].token.generation != actual && (after + 1 == s.apps[app].token.generation || after == 0))
    case StaleForegroundEpoch(app, after, actual) =>
      && About(op, app) && app in s.apps
      && (if op.GrantForeground? then actual == op.epoch && after == s.apps[app].token.epoch >= actual
          else op.EnterBackground? && actual == op.epoch
               && (!s.apps[app].phase.Foreground? || s.apps[app].token.epoch != actual)
               && (after + 1 == s.apps[app].token.epoch || after == 0))
    case InvalidAppTransition(app, was, to) =>
      About(op, app) && app in s.apps && was == s.apps[app].phase && to == Destination(op) && !op.EnterBackground?
    case InvalidDomainTransition(was, to) => op.TransitionDomain? && was == s.domain && to == op.next && !Edge(was, to)
    case RunningAppInStockDomain =>
      op.TransitionDomain? && op.next.Stock? && exists id :: id in s.apps && !s.apps[id].phase.Terminal()
    case SleepOutsideManaged => op.SetSleeping? && !s.domain.Managed?
    case ForegroundWhileSleeping => op.SetSleeping? && op.sleeping && s.foreground.Some?
    case _ => false
  }

  lemma ShowingRefused(s: State, op: Op)
    requires Do(s, op).Err? && (op.StartApp? || op.GrantForeground?)
    ensures Cause(s, op, Do(s, op).error)
  {
  }

  lemma HidingRefused(s: State, op: Op)
    requires Do(s, op).Err? && (op.MarkBackgroundReady? || op.EnterBackground? || op.BeginStop?)
    ensures Cause(s, op, Do(s, op).error)
  {
  }

  lemma EndingRefused(s: State, op: Op)
    requires Do(s, op).Err? && (op.FinishApp? || op.MarkUnresponsive?)
    ensures Cause(s, op, Do(s, op).error)
  {
  }

  lemma RefusalNamesCause(s: State, op: Op)
    requires Do(s, op).Err?
    ensures Cause(s, op, Do(s, op).error)
  {
    match op
    case StartApp(_, _, _) => ShowingRefused(s, op);
    case GrantForeground(_, _, _, _) => ShowingRefused(s, op);
    case MarkBackgroundReady(_, _, _, _) => HidingRefused(s, op);
    case EnterBackground(_, _, _) => HidingRefused(s, op);
    case BeginStop(_, _) => HidingRefused(s, op);
    case FinishApp(_, _, _, _) => EndingRefused(s, op);
    case MarkUnresponsive(_, _, _) => EndingRefused(s, op);
    case _ =>
  }

  /** The managed domain is entered through its own entry, left through its own exit, and recovery,
      which every other domain can fall into, leads back to the stock one. */
  lemma DomainsExactly(s: State, next: Domain)
    requires Invariant(s) && s.revision < MAX_U64
    ensures Do(s, TransitionDomain(next)).Ok? <==>
              match next {
                case EnteringManaged => s.domain.Stock?
                case Managed => s.domain.EnteringManaged?
                case LeavingManaged => s.domain.Managed?
                case Recovering => !s.domain.Recovering?
                case Stock =>
                  && (s.domain.LeavingManaged? || s.domain.Recovering?)
                  && forall id :: id in s.apps ==> s.apps[id].phase.Exited? || s.apps[id].phase.Crashed?
              }
  {
    MoveAcceptedExactly(s, next);
  }
}
