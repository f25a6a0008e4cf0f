/** The power manager: work leases, the idle deadline, and the reservation of an automatic sleep.
    Every method is one step; times are milliseconds of the monotonic clock. */
module PowerPolicy {
  import opened Wrappers

  type Time = nat

  datatype Phase = Awake | Quiescing | Suspended | Resuming | ExternallyBlocked

  datatype Workload = Idle | Interactive | ScheduledJob | Maintenance

  datatype Class = AgentTurn | Ocr | FileTransfer | PackageTransaction | StorageCommit | DisplayCommit {
    function Maximum(): Time {
      match this
      case AgentTurn | Ocr => 180_000
      case FileTransfer => 30_000
      case PackageTransaction => 900_000
      case StorageCommit | DisplayCommit => 10_000
    }

    function Load(): Workload {
      match this
      case PackageTransaction | FileTransfer => Maintenance
      case AgentTurn => ScheduledJob
      case _ => Interactive
    }
  }

  datatype Lease = Lease(owner: string, class_: Class, expires: Time)

  datatype Power = Power(
    managed: bool,
    revision: nat,
    phase: Phase,
    workload: Workload,
    last: Time,
    leases: map<nat, Lease>,
    nextLease: nat,
    idle: nat)

  datatype Op =
    | EnterManaged
    | EnterStock
    | NoteActivity
    | CancelQuiescing
    | BeginSuspend
    | Suspend
    | BlockExternally
    | Resume
    | RetainLock
    | BeginWork(owner: string, class_: Class, requested: nat)
    | FinishWork(owner: string, id: nat, visible: bool)
    | SetIdle(seconds: nat)
    | NextDeadline(blocked: bool)
    | Reserve(revision: nat, blocked: bool)
    | Snapshot

  function Loaded(now: Time, idle: nat): Power {
    Power(false, 1, Awake, Idle, now, map[], 1, idle)
  }

  // ----- What each step makes of the state -----

  predicate Allowed(seconds: nat) {
    seconds == 0 || 60 <= seconds <= 1800
  }

  function Live(leases: map<nat, Lease>, now: Time): map<nat, Lease> {
    map id | id in leases && leases[id].expires > now :: leases[id]
  }

  function Pruned(p: Power, now: Time): Power {
    var live := Live(p.leases, now);
    p.(leases := live, workload := if live == map[] && p.workload in {ScheduledJob, Maintenance} then Idle else p.workload)
  }

  function Clamp(requested: nat, class_: Class): Time {
    if requested < 1 then 1 else if requested > class_.Maximum() then class_.Maximum() else requested
  }

  function Begun(p: Power, owner: string, class_: Class, requested: nat, now: Time): Power {
    var lease := Lease(owner, class_, now + Clamp(requested, class_));
    p.(workload := class_.Load(), phase := if p.phase == Quiescing then Awake else p.phase,
       leases := p.leases[p.nextLease := lease], nextLease := p.nextLease + 1, revision := p.revision + 1)
  }

  predicate Removes(p: Power, owner: string, id: nat) {
    id in p.leases && p.leases[id].owner == owner
  }

  function Ended(p: Power, owner: string, id: nat, visible: bool, now: Time): Power {
    var removes := Removes(p, owner, id);
    var q := if removes then p.(leases := p.leases - {id}) else p;
    var r := if removes && q.leases == map[] then q.(workload := Idle, last := if visible then now else q.last) else q;
    r.(revision := if visible then r.revision + 1 else r.revision)
  }

  /** When an automatic sleep is due, and the revision it may be reserved at. */
  predicate Due(p: Power, blocked: bool) {
    p.managed && !blocked && p.idle != 0 && p.phase == Awake
  }

  predicate Reserves(p: Power, revision: nat, blocked: bool, now: Time) {
    && p.managed && p.revision == revision && !blocked && p.idle != 0
    && p.phase == Awake && Live(p.leases, now) == map[] && now - p.last >= p.idle * 1000
  }

  predicate Current(p: Power, revision: nat) {
    p.managed && p.revision == revision && p.phase == Quiescing
  }

  function Do(p: Power, op: Op, now: Time): Power {
    match op
    case EnterManaged =>
      p.(managed := true, revision := p.revision + 1, phase := Awake, workload := Idle, last := now, leases := map[])
    case EnterStock => p.(managed := false, revision := p.revision + 1, phase := Awake, workload := Idle, leases := map[])
    case NoteActivity =>
      if !p.managed then p
      else
        var q := p.(revision := p.revision + 1);
        if p.phase in {Awake, Quiescing, Resuming} then q.(phase := Awake, workload := Interactive, last := now) else q
    case CancelQuiescing =>
      var q := p.(revision := p.revision + 1);
      if p.phase == Quiescing then q.(phase := Awake, last := now) else q
    case BeginSuspend => p.(phase := Quiescing, workload := Idle)
    case Suspend => p.(phase := Suspended, workload := Idle)
    case BlockExternally => p.(phase := ExternallyBlocked)
    case Resume => p.(revision := p.revision + 1, phase := Awake, workload := Interactive, last := now)
    case RetainLock => p.(phase := Resuming, workload := Idle)
    case BeginWork(owner, class_, requested) => Begun(p, owner, class_, requested, now)
    case FinishWork(owner, id, visible) => Ended(p, owner, id, visible, now)
    case SetIdle(seconds) => if Allowed(seconds) then p.(idle := seconds, revision := p.revision + 1, last := now) else p
    case NextDeadline(blocked) => if p.managed && !blocked && p.idle != 0 then Pruned(p, now) else p
    case Reserve(revision, blocked) =>
      if !p.managed || p.revision != revision || blocked || p.idle == 0 then p
      else
        var q := Pruned(p, now);
        if Reserves(p, revision, blocked, now) then q.(phase := Quiescing, workload := Idle) else q
    case Snapshot => Pruned(p, now)
  }

  class PowerManager {
    var managed: bool
    var revision: nat
    var phase: Phase
    var workload: Workload
    var last: Time
    var leases: map<nat, Lease>
    var nextLease: nat
    var idle: nat

    constructor (now: Time, idle: nat)
      ensures Now() == Loaded(now, idle)
    {
      managed, revision, phase, workload, last := false, 1, Awake, Idle, now;
      leases, nextLease, this.idle := map[], 1, idle;
    }

    function Now(): Power
      reads this
    {
      Power(managed, revision, phase, workload, last, leases, nextLease, idle)
    }

    method PruneExpired(now: Time)
      modifies this
      ensures Now() == Pruned(old(Now()), now)
    {
      var rest := leases.Keys;
      while rest != {}
        invariant rest <= leases.Keys <= old(leases).Keys
        invariant forall id :: id in leases ==> leases[id] == old(leases)[id]
        invariant forall id :: id in old(leases) ==> (id in leases <==> id in rest || old(leases)[id].expires > now)
        invariant Now().(leases := old(leases)) == old(Now())
        decreases rest
      {
        var id :| id in rest;
        if leases[id].expires <= now {
          leases := leases - {id};
        }
        rest := rest - {id};
      }
      assert leases == Live(old(leases), now);
      if leases == map[] && workload in {ScheduledJob, Maintenance} {
        workload := Idle;
      }
    }

    /** The later of the idle time and the last lease to end. */
    method NextPolicyDeadline(blocked: bool, now: Time) returns (due: Option<(Time, nat)>)
      modifies this
      ensures Now() == Do(old(Now()), NextDeadline(blocked), now)
      ensures due.Some? <==> Due(old(Now()), blocked)
      ensures due.Some? ==> IsDeadline(Now(), due.value.0) && due.value.1 == revision
    {
      if !managed || blocked || idle == 0 {
        return None;
      }
      PruneExpired(now);
      if phase != Awake {
        return None;
      }
      var deadline := last + idle * 1000;
      var rest := leases.Keys;
      while rest != {}
        invariant rest <= leases.Keys
        invariant deadline >= last + idle * 1000
        invariant forall id :: id in leases.Keys - rest ==> deadline >= leases[id].expires
        invariant deadline == last + idle * 1000 || exists id :: id in leases && leases[id].expires == deadline
        decreases rest
      {
        var id :| id in rest;
        if leases[id].expires > deadline {
          deadline := leases[id].expires;
        }
        rest := rest - {id};
      }
      return Some((deadline, revision));
    }

    method ReserveAutoSleep(wanted: nat, blocked: bool, now: Time) returns (reserved: bool)
      modifies this
      ensures Now() == Do(old(Now()), Reserve(wanted, blocked), now)
      ensures reserved <==> Reserves(old(Now()), wanted, blocked, now)
    {
      if !managed || revision != wanted || blocked || idle == 0 {
        return false;
      }
      PruneExpired(now);
      if phase != Awake || leases != map[] {
        return false;
      }
      if now - last < idle * 1000 {
        return false;
      }
      phase, workload := Quiescing, Idle;
      return true;
    }

    method StartWork(owner: string, class_: Class, requested: nat, now: Time) returns (id: nat)
      modifies this
      ensures Now() == Do(old(Now()), BeginWork(owner, class_, requested), now)
      ensures id == old(nextLease) && id in leases && now < leases[id].expires <= now + class_.Maximum()
    {
      var ttl := requested;
      if ttl < 1 {
        ttl := 1;
      } else if ttl > class_.Maximum() {
        ttl := class_.Maximum();
      }
      id := nextLease;
      nextLease := nextLease + 1;
      workload := class_.Load();
      if phase == Quiescing {
        phase := Awake;
      }
      leases := leases[id := Lease(owner, class_, now + ttl)];
      revision := revision + 1;
    }

    method EndWork(owner: string, id: nat, visible: bool, now: Time) returns (removed: bool)
      modifies this
      ensures Now() == Do(old(Now()), FinishWork(owner, id, visible), now)
      ensures removed <==> Removes(old(Now()), owner, id)
    {
      removed := id in leases && leases[id].owner == owner;
      if removed {
        leases := leases - {id};
      }
      if removed && leases == map[] {
        workload := Idle;
        if visible {
          last := now;
        }
      }
      if visible {
        revision := revision + 1;
      }
    }

    method Activity(now: Time)
      modifies this
      ensures Now() == Do(old(Now()), NoteActivity, now)
    {
      if !managed {
        return;
      }
      revision := revision + 1;
      if phase in {Awake, Quiescing, Resuming} {
        phase, workload, last := Awake, Interactive, now;
      }
    }

    method Cancel(now: Time)
      modifies this
      ensures Now() == Do(old(Now()), CancelQuiescing, now)
    {
      if phase == Quiescing {
        phase, last := Awake, now;
      }
      revision := revision + 1;
    }

    method SetIdleSuspend(seconds: nat, now: Time) returns (accepted: bool)
      modifies this
      ensures Now() == Do(old(Now()), SetIdle(seconds), now) && (accepted <==> Allowed(seconds))
    {
      if seconds != 0 && !(60 <= seconds <= 1800) {
        return false;
      }
      idle := seconds;
      revision := revision + 1;
      last := now;
      return true;
    }

    method TakeManaged(now: Time)
      modifies this
      ensures Now() == Do(old(Now()), EnterManaged, now)
    {
      managed := true;
      revision := revision + 1;
      phase, workload, last, leases := Awake, Idle, now, map[];
    }

    method ReturnToStock(now: Time)
      modifies this
      ensures Now() == Do(old(Now()), EnterStock, now)
    {
      managed := false;
      revision := revision + 1;
      phase, workload, leases := Awake, Idle, map[];
    }

    /** The explicit suspend of the lock screen, in its steps; none of them counts as activity. */
    method MarkPhase(op: Op, now: Time)
      requires op in {BeginSuspend, Suspend, BlockExternally, RetainLock}
      modifies this
      ensures Now() == Do(old(Now()), op, now) && revision == old(revision) && last == old(last)
    {
      match op {
        case BeginSuspend => phase, workload := Quiescing, Idle;
        case Suspend => phase, workload := Suspended, Idle;
        case BlockExternally => phase := ExternallyBlocked;
        case RetainLock => phase, workload := Resuming, Idle;
      }
    }

    method MarkResumed(now: Time)
      modifies this
      ensures Now() == Do(old(Now()), Resume, now)
    {
      revision := revision + 1;
      phase, workload, last := Awake, Interactive, now;
    }

    method AutoSleepIsCurrent(wanted: nat) returns (current: bool)
      ensures current <==> Current(Now(), wanted)
    {
      current := managed && revision == wanted && phase == Quiescing;
    }
  }

  /** The deadline, independently of how it is found: the least time by which the idle interval is
      over and every lease has ended. */
  predicate IsDeadline(p: Power, d: Time) {
    && d >= p.last + p.idle * 1000
    && (forall id :: id in p.leases ==> d >= p.leases[id].expires)
    && (d == p.last + p.idle * 1000 || exists id :: id in p.leases && p.leases[id].expires == d)
  }

  // ----- Runs -----

  datatype Event = Event(op: Op, at: Time)

  /** Times never go back, starting from `now`. */
  predicate Monotone(now: Time, events: seq<Event>)
    decreases |events|
  {
    events != [] ==> now <= events[0].at && Monotone(events[0].at, events[1..])
  }

  function End(now: Time, events: seq<Event>): Time
    decreases |events|
  {
    if events == [] then now else End(events[0].at, events[1..])
  }

  function Run(p: Power, events: seq<Event>): Power
    decreases |events|
  {
    if events == [] then p else Run(Do(p, events[0].op, events[0].at), events[1..])
  }

  /** Nothing is later than now, and no lease outlives its class. */
  predicate Bounded(p: Power, now: Time) {
    && p.last <= now && Allowed(p.idle)
    && forall id :: id in p.leases ==> p.leases[id].expires <= now + p.leases[id].class_.Maximum()
  }

  lemma LeasesAreBounded(p: Power, before: Time, e: Event)
    requires Bounded(p, before) && before <= e.at
    ensures forall id :: id in Do(p, e.op, e.at).leases ==>
              Do(p, e.op, e.at).leases[id].expires <= e.at + Do(p, e.op, e.at).leases[id].class_.Maximum()
  {
    var q := Do(p, e.op, e.at);
    forall id | id in q.leases
      ensures q.leases[id].expires <= e.at + q.leases[id].class_.Maximum()
    {
      if e.op.BeginWork? && id == p.nextLease {
        assert q.leases[id].expires == e.at + Clamp(e.op.requested, e.op.class_);
      } else {
        assert id in p.leases && q.leases[id] == p.leases[id];
      }
    }
  }

  lemma StepIsBounded(p: Power, before: Time, e: Event)
    requires Bounded(p, before) && before <= e.at
    ensures Bounded(Do(p, e.op, e.at), e.at)
  {
    LeasesAreBounded(p, before, e);
  }

  lemma {:induction false} RunsAreBounded(p: Power, now: Time, events: seq<Event>)
    requires Bounded(p, now) && Monotone(now, events)
    ensures Bounded(Run(p, events), End(now, events))
    decreases |events|
  {
    if events != [] {
      StepIsBounded(p, now, events[0]);
      RunsAreBounded(Do(p, events[0].op, events[0].at), events[0].at, events[1..]);
    }
  }

  /** No work can keep the device awake for ever: in every run the deadline is at most thirty
      minutes away, or fifteen when the idle interval is over. */
  lemma DeadlineIsNear(start: Time, idle: nat, events: seq<Event>, d: Time)
    requires Allowed(idle) && Monotone(start, events) && IsDeadline(Run(Loaded(start, idle), events), d)
    ensures d <= End(start, events) + 1_800_000
    ensures var p := Run(Loaded(start, idle), events);
            p.last + p.idle * 1000 <= End(start, events) ==> d <= End(start, events) + 900_000
  {
    RunsAreBounded(Loaded(start, idle), start, events);
  }

  // ----- The deadline and the reservation -----

  /** Looking does not change anything that a later reservation depends on. */
  predicate Looks(events: seq<Event>) {
    forall k :: 0 <= k < |events| ==> events[k].op.NextDeadline? || events[k].op.Snapshot?
  }

  predicate SameAt(p: Power, q: Power, t: Time) {
    p.(workload := Idle, leases := map[]) == q.(workload := Idle, leases := map[]) && Live(p.leases, t) == Live(q.leases, t)
  }

  lemma LiveTwice(leases: map<nat, Lease>, a: Time, b: Time)
    requires a <= b
    ensures Live(Live(leases, a), b) == Live(leases, b)
  {
  }

  lemma {:induction false} LookingIsHarmless(p: Power, now: Time, events: seq<Event>, t: Time)
    requires Looks(events) && Monotone(now, events) && End(now, events) <= t
    ensures SameAt(p, Run(p, events), t)
    decreases |events|
  {
    if events != [] {
      EndIsLater(events[0].at, events[1..]);
      LiveTwice(p.leases, events[0].at, t);
      assert Looks(events[1..]);
      LookingIsHarmless(Do(p, events[0].op, events[0].at), events[0].at, events[1..], t);
    }
  }

  lemma {:induction false} EndIsLater(now: Time, events: seq<Event>)
    requires Monotone(now, events)
    ensures now <= End(now, events)
    decreases |events|
  {
    if events != [] {
      EndIsLater(events[0].at, events[1..]);
    }
  }

  /** The idle loop is exact: with only looks in between, a reservation at the deadline's revision
      succeeds at `t` if and only if the deadline has come.  It is never refused at the deadline,
      so the loop cannot spin, and never granted before, so the device cannot sleep early. */
  lemma ReservedExactlyWhenDue(p: Power, now: Time, d: Time, looks: seq<Event>, t: Time)
    requires Due(p, false) && IsDeadline(Pruned(p, now), d)
    requires Looks(looks) && Monotone(now, looks) && End(now, looks) <= t
    ensures Reserves(Run(Pruned(p, now), looks), p.revision, false, t) <==> t >= d
  {
    var q := Pruned(p, now);
    LookingIsHarmless(q, now, looks, t);
    if t >= d {
      assert Live(q.leases, t) == map[];
    } else if d != q.last + q.idle * 1000 {
      var id :| id in q.leases && q.leases[id].expires == d;
      assert id in Live(q.leases, t);
    }
  }

  // ----- Work keeps the device awake -----

  /** The lease is in force. */
  predicate InForce(p: Power, id: nat, lease: Lease) {
    id < p.nextLease && id in p.leases && p.leases[id] == lease
  }

  /** The steps that end a lease before its time: its owner's, and a change of ownership. */
  predicate Ends(op: Op, id: nat, lease: Lease) {
    op.EnterManaged? || op.EnterStock? || (op.FinishWork? && op.id == id && op.owner == lease.owner)
  }

  /** Nobody else ends it. */
  lemma StaysInForce(p: Power, e: Event, id: nat, lease: Lease)
    requires InForce(p, id, lease) && !Ends(e.op, id, lease) && e.at < lease.expires
    ensures InForce(Do(p, e.op, e.at), id, lease)
  {
  }

  /** From its beginning until it ends or expires, whatever else happens, no sleep is reserved. */
  lemma {:induction false} WorkKeepsAwake(
    p: Power, now: Time, events: seq<Event>, id: nat, lease: Lease, revision: nat, blocked: bool)
    requires InForce(p, id, lease) && Monotone(now, events) && End(now, events) < lease.expires
    requires forall k :: 0 <= k < |events| ==> !Ends(events[k].op, id, lease)
    ensures InForce(Run(p, events), id, lease) && !Reserves(Run(p, events), revision, blocked, End(now, events))
    decreases |events|
  {
    if events == [] {
      assert id in Live(p.leases, now);
    } else {
      EndIsLater(events[0].at, events[1..]);
      StaysInForce(p, events[0], id, lease);
      WorkKeepsAwake(Do(p, events[0].op, events[0].at), events[0].at, events[1..], id, lease, revision, blocked);
    }
  }

  // ----- What a current reservation has not seen -----

  /** The steps that count: activity, new or visibly finished work, and every change of ownership. */
  predicate Counts(p: Power, op: Op) {
    match op
    case NoteActivity => p.managed
    case EnterManaged | EnterStock | CancelQuiescing | Resume | BeginWork(_, _, _) => true
    case FinishWork(_, _, visible) => visible
    case SetIdle(seconds) => Allowed(seconds)
    case _ => false
  }

  function Counted(p: Power, events: seq<Event>): nat
    decreases |events|
  {
    if events == [] then 0
    else (if Counts(p, events[0].op) then 1 else 0) + Counted(Do(p, events[0].op, events[0].at), events[1..])
  }

  lemma {:induction false} RevisionCounts(p: Power, events: seq<Event>)
    ensures Run(p, events).revision == p.revision + Counted(p, events)
    ensures Counted(p, events) == 0 ==> Run(p, events).managed == p.managed
    decreases |events|
  {
    if events != [] {
      RevisionCounts(Do(p, events[0].op, events[0].at), events[1..]);
    }
  }

  /** A reservation is still current exactly when the manager is quiescing and nothing that counts
      has happened since, over any run and at any length. */
  lemma CurrentMeansUndisturbed(p: Power, r: nat, now: Time, events: seq<Event>)
    requires Reserves(p, r, false, now)
    ensures var q := Run(Do(p, Reserve(r, false), now), events);
            Current(q, r) <==> Counted(Do(p, Reserve(r, false), now), events) == 0 && q.phase == Quiescing
  {
    RevisionCounts(Do(p, Reserve(r, false), now), events);
  }

  /** A step that makes a reservation stale also wakes the manager, with two exceptions: work that
      finishes visibly, and a new idle setting, leave it quiescing at a revision nobody reserved. */
  lemma StaleButQuiescingExactly(p: Power, r: nat, op: Op, now: Time)
    requires Current(p, r)
    ensures var q := Do(p, op, now);
            q.phase == Quiescing && !Current(q, r) <==>
              (op.FinishWork? && op.visible) || (op.SetIdle? && Allowed(op.seconds))
  {
  }

  predicate Idles(op: Op) {
    op.NextDeadline? || op.Reserve? || op.Snapshot? || op.FinishWork? || op.SetIdle?
  }

  /** From there no deadline is ever due again until some other step happens. */
  lemma {:induction false} QuiescingIsNeverDue(p: Power, events: seq<Event>, blocked: bool)
    requires p.phase == Quiescing && forall k :: 0 <= k < |events| ==> Idles(events[k].op)
    ensures !Due(Run(p, events), blocked) && Run(p, events).phase == Quiescing
    decreases |events|
  {
    if events != [] {
      QuiescingIsNeverDue(Do(p, events[0].op, events[0].at), events[1..], blocked);
    }
  }

  // ----- The idle interval -----

  /** The steps after which the idle interval runs anew: a key or touch while the device is up, a
      resume, a sleep called off, a new idle setting, taking the device over, and a visible end of the
      last work. */
  predicate Restarts(p: Power, op: Op) {
    match op
    case NoteActivity => p.managed && !(p.phase.Suspended? || p.phase.ExternallyBlocked?)
    case Resume | EnterManaged => true
    case CancelQuiescing => p.phase.Quiescing?
    case SetIdle(seconds) => seconds == 0 || 60 <= seconds <= 1800
    case FinishWork(owner, id, visible) =>
      visible && id in p.leases && p.leases[id].owner == owner && forall other :: other in p.leases ==> other == id
    case _ => false
  }

  /** When the interval last began to run anew; `since` if it did not. */
  function LastRestart(p: Power, events: seq<Event>, since: Time): Time
    decreases |events|
  {
    if events == [] then since
    else
      var e := events[0];
      LastRestart(Do(p, e.op, e.at), events[1..], if Restarts(p, e.op) then e.at else since)
  }

  lemma LastWorkEnds(p: Power, owner: string, id: nat)
    requires id in p.leases
    ensures p.leases - {id} == map[] <==> forall other :: other in p.leases ==> other == id
  {
    if p.leases - {id} == map[] {
      forall other | other in p.leases
        ensures other == id
      {
        assert other != id ==> other in p.leases - {id};
      }
    }
  }

  lemma RestartsExactly(p: Power, e: Event)
    ensures Do(p, e.op, e.at).last == if Restarts(p, e.op) then e.at else p.last
  {
    if e.op.FinishWork? && e.op.id in p.leases {
      LastWorkEnds(p, e.op.owner, e.op.id);
    }
  }

  lemma {:induction false} LastIsRestart(p: Power, events: seq<Event>)
    ensures Run(p, events).last == LastRestart(p, events, p.last)
    decreases |events|
  {
    if events != [] {
      RestartsExactly(p, events[0]);
      LastIsRestart(Do(p, events[0].op, events[0].at), events[1..]);
    }
  }

  /** Over every run: a sleep can be reserved if and only if the device is managed, awake, not blocked
      and set to sleep, the revision is the present one, every lease is over, and the whole idle
      interval has passed since it last began to run. */
  lemma ReservedAfterIdleExactly(p: Power, events: seq<Event>, revision: nat, blocked: bool, now: Time)
    ensures var q := Run(p, events);
            Reserves(q, revision, blocked, now) <==>
              && q.managed && q.phase.Awake? && !blocked && q.idle > 0 && q.revision == revision
              && (forall id :: id in q.leases ==> q.leases[id].expires <= now)
              && now >= LastRestart(p, events, p.last) + 1000 * q.idle
  {
    LastIsRestart(p, events);
    var q := Run(p, events);
    forall id | id in q.leases
      ensures id in Live(q.leases, now) <==> q.leases[id].expires > now
    {
    }
  }

  /** By some time every lease is over. */
  lemma {:induction false} LeasesEnd(leases: map<nat, Lease>) returns (t: Time)
    ensures forall id :: id in leases ==> leases[id].expires <= t
    decreases |leases|
  {
    if leases == map[] {
      return 0;
    }
    var id :| id in leases;
    var rest := leases - {id};
    assert |rest.Keys| < |leases.Keys| by {
      assert rest.Keys == leases.Keys - {id};
    }
    t := LeasesEnd(rest);
    t := if t < leases[id].expires then leases[id].expires else t;
    forall other | other in leases
      ensures leases[other].expires <= t
    {
      assert other != id ==> other in rest;
    }
  }

  /** A deadline is given exactly when a reservation at the present revision would succeed at some
      time, so the policy loop waits for nothing else. */
  lemma DueExactly(p: Power, blocked: bool)
    ensures Due(p, blocked) <==> exists now: Time :: Reserves(p, p.revision, blocked, now)
  {
    if Due(p, blocked) {
      var t := LeasesEnd(p.leases);
      var now := t + p.last + p.idle * 1000;
      assert Live(p.leases, now) == map[];
      assert Reserves(p, p.revision, blocked, now);
    }
  }

  predicate KeepsSetting(events: seq<Event>) {
    forall k :: 0 <= k < |events| && events[k].op.SetIdle? ==> !Allowed(events[k].op.seconds)
  }

  lemma {:induction false} LastGrows(p: Power, t: Time, now: Time, events: seq<Event>)
    requires t <= p.last && t <= now && Monotone(now, events) && KeepsSetting(events)
    ensures t <= Run(p, events).last && Run(p, events).idle == p.idle
    decreases |events|
  {
    if events != [] {
      RestartsExactly(p, events[0]);
      assert KeepsSetting(events[1..]);
      LastGrows(Do(p, events[0].op, events[0].at), t, events[0].at, events[1..]);
    }
  }

  /** After such a step at `t` no sleep is reserved for a whole idle interval, whatever else happens
      but a change of the setting. */
  lemma NoSleepWithinIdle(p: Power, e: Event, more: seq<Event>, revision: nat, blocked: bool, now: Time)
    requires Restarts(p, e.op) && Monotone(e.at, more) && KeepsSetting(more)
    requires now < e.at + 1000 * Do(p, e.op, e.at).idle
    ensures !Reserves(Run(Do(p, e.op, e.at), more), revision, blocked, now)
  {
    RestartsExactly(p, e);
    LastGrows(Do(p, e.op, e.at), e.at, e.at, more);
  }

  // ----- Phases, ownership and leases -----

  /** Which steps lead into each phase from another. */
  lemma PhaseChangesExactly(p: Power, op: Op, now: Time)
    ensures var q := Do(p, op, now).phase;
            && (q != p.phase ==>
                  match q {
                    case Awake =>
                      || op.EnterManaged? || op.EnterStock? || op.Resume?
                      || (op.NoteActivity? && p.managed && (p.phase.Quiescing? || p.phase.Resuming?))
                      || (p.phase.Quiescing? && (op.CancelQuiescing? || op.BeginWork?))
                    case Quiescing => op.BeginSuspend? || (op.Reserve? && Reserves(p, op.revision, op.blocked, now))
                    case Suspended => op.Suspend?
                    case Resuming => op.RetainLock?
                    case ExternallyBlocked => op.BlockExternally?
                  })
            && (op.EnterManaged? || op.EnterStock? || op.Resume? ==> q.Awake?)
            && (p.phase.Quiescing? && (op.CancelQuiescing? || op.BeginWork?) ==> q.Awake?)
            && (op.NoteActivity? && p.managed && p.phase.Resuming? ==> q.Awake?)
            && (op.BeginSuspend? ==> q.Quiescing?) && (op.Suspend? ==> q.Suspended?)
            && (op.RetainLock? ==> q.Resuming?) && (op.BlockExternally? ==> q.ExternallyBlocked?)
            && (op.Reserve? && Reserves(p, op.revision, op.blocked, now) ==> q.Quiescing?)
    ensures Do(p, op, now).managed == (op.EnterManaged? || (p.managed && !op.EnterStock?))
    ensures Do(p, op, now).idle == if op.SetIdle? && Allowed(op.seconds) then op.seconds else p.idle
  {
  }

  /** Whether an expired lease is noticed: somebody looks at the leases. */
  predicate LooksAtLeases(p: Power, op: Op) {
    || op.Snapshot?
    || (op.NextDeadline? && p.managed && !op.blocked && p.idle != 0)
    || (op.Reserve? && p.managed && p.revision == op.revision && !op.blocked && p.idle != 0)
  }

  /** What the manager shows it is busy with after each step. */
  lemma WorkloadExactly(p: Power, op: Op, now: Time)
    ensures var q := Do(p, op, now);
            q.workload ==
            if op.EnterManaged? || op.EnterStock? || op.BeginSuspend? || op.Suspend? || op.RetainLock? then Idle
            else if op.Resume? || (op.NoteActivity? && Restarts(p, op)) then Interactive
            else if op.BeginWork? then
              (if op.class_.AgentTurn? then ScheduledJob
               else if op.class_.PackageTransaction? || op.class_.FileTransfer? then Maintenance
               else Interactive)
            else if op.Reserve? && Reserves(p, op.revision, op.blocked, now) then Idle
            else if op.FinishWork? && Removes(p, op.owner, op.id) && q.leases == map[] then Idle
            else if LooksAtLeases(p, op) && (forall id :: id in p.leases ==> p.leases[id].expires <= now)
                    && (p.workload.ScheduledJob? || p.workload.Maintenance?) then Idle
            else p.workload
  {
    assert Live(p.leases, now) == map[] <==> forall id :: id in p.leases ==> p.leases[id].expires <= now by {
      forall id | id in p.leases
        ensures id in Live(p.leases, now) <==> p.leases[id].expires > now
      {
      }
    }
  }

  /** A lease lasts as long as it was asked for, at least a millisecond and at most the maximum of its
      class: three minutes for a turn or a recognition, half a minute for a transfer, a quarter of an
      hour for a package, ten seconds for a commit.  Its number is new, and it shows what it is for. */
  lemma LeaseLastsAsAsked(p: Power, owner: string, class_: Class, requested: nat, now: Time)
    ensures var q := Do(p, BeginWork(owner, class_, requested), now);
            var most := match class_ {
              case AgentTurn | Ocr => 180_000
              case FileTransfer => 30_000
              case PackageTransaction => 900_000
              case StorageCommit | DisplayCommit => 10_000
            };
            && p.nextLease in q.leases && q.nextLease == p.nextLease + 1
            && q.leases[p.nextLease].owner == owner && q.leases[p.nextLease].class_ == class_
            && (1 <= requested <= most ==> q.leases[p.nextLease].expires == now + requested)
            && (requested == 0 ==> q.leases[p.nextLease].expires == now + 1)
            && (requested > most ==> q.leases[p.nextLease].expires == now + most)
            && (forall id :: id in p.leases && id != p.nextLease ==> id in q.leases && q.leases[id] == p.leases[id])
            && q.workload == match class_ {
                 case PackageTransaction | FileTransfer => Maintenance
                 case AgentTurn => ScheduledJob
                 case Ocr | StorageCommit | DisplayCommit => Interactive
               }
  {
  }

  /** A lease goes only by its owner's end of it, a change of ownership, or being over when somebody
      looks; and where a sleep could be reserved, none is left that is not over. */
  lemma LeasesGoExactly(p: Power, op: Op, now: Time, id: nat)
    requires id in p.leases && id < p.nextLease
    ensures var q := Do(p, op, now);
            id !in q.leases <==>
              || op.EnterManaged? || op.EnterStock?
              || (op.FinishWork? && op.id == id && op.owner == p.leases[id].owner)
              || (p.leases[id].expires <= now && LooksAtLeases(p, op))
    ensures id in Do(p, op, now).leases ==> Do(p, op, now).leases[id] == p.leases[id]
  {
  }

  /** Lease numbers are below the next one, and background work is shown only while it has a lease. */
  predicate Honest(p: Power) {
    && (forall id :: id in p.leases ==> id < p.nextLease)
    && (p.workload.ScheduledJob? || p.workload.Maintenance? ==> p.leases != map[])
  }

  lemma BegunIsHonest(p: Power, owner: string, class_: Class, requested: nat, now: Time)
    requires Honest(p)
    ensures Honest(Begun(p, owner, class_, requested, now))
  {
    assert p.nextLease in Begun(p, owner, class_, requested, now).leases;
  }

  lemma StepIsHonest(p: Power, e: Event)
    requires Honest(p)
    ensures Honest(Do(p, e.op, e.at))
  {
    if e.op.BeginWork? {
      BegunIsHonest(p, e.op.owner, e.op.class_, e.op.requested, e.at);
    }
  }

  lemma {:induction false} RunsAreHonest(p: Power, events: seq<Event>)
    requires Honest(p)
    ensures Honest(Run(p, events))
    decreases |events|
  {
    if events != [] {
      StepIsHonest(p, events[0]);
      RunsAreHonest(Do(p, events[0].op, events[0].at), events[1..]);
    }
  }
}
