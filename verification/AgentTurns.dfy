/** All interleavings of the agent daemon's requests, turns, cancellations and disconnections over
    one application's slot. */
module AgentTurns {
  import opened Wrappers
  import opened AgentSlot

  /** Where one start request has got to: seeking the slot, then driving its turn to the end. */
  datatype Place =
    | Observing
    | Signalling(channel: nat)
    | Waiting
    | Claiming
    | Owning(turn: Turn)
    | Spawning(turn: Turn)
    | Driving(turn: Turn)
    | Clearing(turn: Turn)
    | Over

  datatype Task = Task(conn: nat, request: Request, at: Place)

  /** `owned` is each connection's cell for the turn to cancel when it closes, `taken` what a closing
      connection took from it; `started` is every turn ever started, `granted` every authorization. */
  datatype World = World(
    app: App,
    tasks: seq<Task>,
    owned: map<nat, string>,
    taken: map<nat, string>,
    started: seq<Turn>,
    granted: set<(string, nat, string)>)

  const START := World(IDLE, [], map[], map[], [], {})

  datatype Event =
    | Arrive(conn: nat, request: Request)
    | Advance(i: nat, expired: bool, closed: bool, spawns: bool)
    | Cancel(id: string)
    | Take(conn: nat)
    | CancelTaken(conn: nat)
    | Reload(profile: Option<Profile>)
    | Authorize(principal: string, generation: nat, token: string)

  function At(w: World, i: nat, at: Place): World
    requires i < |w.tasks|
  {
    w.(tasks := w.tasks[i := w.tasks[i].(at := at)])
  }

  /** One critical section, or one wait, of a task. */
  function Advanced(w: World, i: nat, expired: bool, closed: bool, spawns: bool): (n: World)
    requires i < |w.tasks|
    ensures |n.tasks| == |w.tasks| && n.tasks == w.tasks[i := w.tasks[i].(at := n.tasks[i].at)]
    ensures n.app.principals == w.app.principals && n.granted == w.granted
  {
    var task := w.tasks[i];
    match task.at
    case Observing =>
      (match Observed(w.app, task.request.lane)
       case Free => At(w, i, Claiming)
       case Preempt(channel) => At(w, i, Signalling(channel))
       case Occupied => At(w, i, Over))
    case Signalling(channel) => At(w, i, Waiting).(app := w.app.(signalled := w.app.signalled + {channel}))
    case Waiting => if expired then At(w, i, Over) else if w.app.active.None? then At(w, i, Claiming) else w
    case Claiming =>
      var (app, outcome) := Claimed(w.app, task.request, closed, spawns);
      (match outcome
       case Started(turn, _) => At(w, i, Owning(turn)).(app := app, started := w.started + [turn])
       case Retry => At(w, i, Observing).(app := app)
       case Busy => At(w, i, Over).(app := app)
       case BackendFailed => At(w, i, Over).(app := app))
    case Owning(turn) => At(w, i, Spawning(turn)).(owned := w.owned[task.conn := turn.id])
    case Spawning(turn) => At(w, i, Driving(turn))
    case Driving(turn) => At(w, i, Clearing(turn)).(app := Finished(w.app, turn.id))
    case Clearing(turn) =>
      var mine := task.conn in w.owned && w.owned[task.conn] == turn.id;
      At(w, i, Over).(owned := if mine then w.owned - {task.conn} else w.owned)
    case Over => w
  }

  function Step(w: World, e: Event): World {
    match e
    case Arrive(conn, request) => w.(tasks := w.tasks + [Task(conn, request, Observing)])
    case Advance(i, expired, closed, spawns) => if i < |w.tasks| then Advanced(w, i, expired, closed, spawns) else w
    case Cancel(id) => w.(app := Cancelled(w.app, id))
    case Take(conn) =>
      if conn in w.owned then w.(owned := w.owned - {conn}, taken := w.taken[conn := w.owned[conn]]) else w
    case CancelTaken(conn) =>
      if conn in w.taken then w.(app := Cancelled(w.app, w.taken[conn]), taken := w.taken - {conn}) else w
    case Reload(profile) => w.(app := Reloaded(w.app, profile))
    case Authorize(principal, generation, token) =>
      var granted := if Admits(w.app, principal, generation, token) then {(principal, generation, token)} else {};
      w.(app := Authorized(w.app, principal, generation, token), granted := w.granted + granted)
  }

  function After(w: World, events: seq<Event>): World
    decreases |events|
  {
    if events == [] then w else After(Step(w, events[0]), events[1..])
  }

  // ----- One turn at a time -----

  /** Started and not finished. */
  predicate Running(p: Place) {
    p.Owning? || p.Spawning? || p.Driving?
  }

  function Unfinished(w: World): set<nat> {
    set i: nat | i < |w.tasks| && Running(w.tasks[i].at)
  }

  /** A running task holds the slot, its turn is what it asked for, and so is the worker. */
  predicate Holds(w: World, i: nat)
    requires i < |w.tasks| && Running(w.tasks[i].at)
  {
    var r, turn := w.tasks[i].request, w.tasks[i].at.turn;
    && w.app.active == Some(turn)
    && turn.id == r.id && turn.lane == r.lane && turn.principal == r.principal
    && w.app.profile == Some(r.profile) && w.app.prompt == r.prompt && w.app.worker == Some(Worker(r.profile, r.prompt))
  }

  predicate Numbered(w: World) {
    && w.app.channels == |w.started|
    && (forall c :: 0 <= c < |w.started| ==> w.started[c].channel == c)
    && (forall c :: c in w.app.signalled ==> c < |w.started|)
    && (w.app.active.Some? ==>
          w.app.active.value.channel < |w.started| && w.started[w.app.active.value.channel] == w.app.active.value)
  }

  /** A preempting task aims at the channel of a turn that is not interactive. */
  predicate Aimed(w: World, i: nat)
    requires i < |w.tasks|
  {
    w.tasks[i].at.Signalling? ==>
      && w.tasks[i].at.channel < |w.started| && w.started[w.tasks[i].at.channel].lane != Interactive
      && w.tasks[i].request.lane == Interactive
  }

  predicate Fitting(a: App) {
    a.worker.Some? ==> a.profile.Some? && a.worker.value == Worker(a.profile.value, a.prompt)
  }

  /** The one task whose turn is running, if any. */
  predicate Holder(w: World, h: Option<nat>) {
    && (h.Some? ==> h.value < |w.tasks| && Running(w.tasks[h.value].at) && Holds(w, h.value))
    && (forall i: nat :: i < |w.tasks| && Running(w.tasks[i].at) ==> h == Some(i))
    && (h.None? ==> w.app.active.None?)
  }

  ghost predicate Sound(w: World) {
    && Numbered(w) && Fitting(w.app)
    && (forall i: nat :: i < |w.tasks| ==> Aimed(w, i))
    && exists h :: Holder(w, h)
  }

  lemma ClaimIsNumbered(w: World, e: Event)
    requires Numbered(w) && e.Advance? && e.i < |w.tasks| && w.tasks[e.i].at.Claiming?
    ensures Numbered(Step(w, e)) && w.started <= Step(w, e).started
  {
  }

  lemma AdvanceIsNumbered(w: World, e: Event)
    requires Numbered(w) && e.Advance? && e.i < |w.tasks| && Aimed(w, e.i)
    ensures Numbered(Step(w, e)) && w.started <= Step(w, e).started
  {
    if w.tasks[e.i].at.Claiming? {
      ClaimIsNumbered(w, e);
    }
  }

  lemma ObserveIsAimed(w: World, e: Event)
    requires Numbered(w) && e.Advance? && e.i < |w.tasks| && Aimed(w, e.i)
    ensures Aimed(Step(w, e), e.i)
  {
  }

  lemma AdvanceIsAimed(w: World, e: Event, k: nat)
    requires Numbered(w) && e.Advance? && e.i < |w.tasks| && k < |w.tasks| && Aimed(w, k)
    ensures Aimed(Step(w, e), k)
  {
    if k == e.i {
      ObserveIsAimed(w, e);
    } else {
      assert Step(w, e).tasks[k] == w.tasks[k] && w.started <= Step(w, e).started;
    }
  }

  predicate SameSlot(a: App, b: App) {
    a.active == b.active && a.profile == b.profile && a.prompt == b.prompt && a.worker == b.worker
  }

  /** A task that moves without touching the slot leaves its holder. */
  lemma MoveIsHeld(w: World, n: World, i: nat, h: Option<nat>)
    requires Holder(w, h) && i < |w.tasks| == |n.tasks| && n.tasks == w.tasks[i := w.tasks[i].(at := n.tasks[i].at)]
    requires SameSlot(w.app, n.app)
    requires Running(n.tasks[i].at) <==> Running(w.tasks[i].at)
    requires Running(n.tasks[i].at) ==> n.tasks[i].at.turn == w.tasks[i].at.turn
    ensures Holder(n, h)
  {
    if h.Some? {
      assert Holds(n, h.value);
    }
  }

  lemma ClaimIsHeld(w: World, e: Event, h: Option<nat>) returns (g: Option<nat>)
    requires Holder(w, h) && Fitting(w.app) && e.Advance? && e.i < |w.tasks| && w.tasks[e.i].at.Claiming?
    ensures Holder(Step(w, e), g) && Fitting(Step(w, e).app)
  {
    var n := Step(w, e);
    if w.app.active.Some? {
      MoveIsHeld(w, n, e.i, h);
      g := h;
    } else {
      assert h.None?;
      g := if Running(n.tasks[e.i].at) then Some(e.i) else None;
    }
  }

  lemma FinishIsHeld(w: World, e: Event, h: Option<nat>)
    requires Holder(w, h) && Fitting(w.app) && e.Advance? && e.i < |w.tasks| && w.tasks[e.i].at.Driving?
    ensures Holder(Step(w, e), None) && Fitting(Step(w, e).app)
  {
    assert h == Some(e.i);
  }

  lemma AdvanceIsHeld(w: World, e: Event, h: Option<nat>) returns (g: Option<nat>)
    requires Holder(w, h) && Fitting(w.app) && e.Advance? && e.i < |w.tasks|
    ensures Holder(Step(w, e), g) && Fitting(Step(w, e).app)
  {
    if w.tasks[e.i].at.Claiming? {
      g := ClaimIsHeld(w, e, h);
    } else if w.tasks[e.i].at.Driving? {
      FinishIsHeld(w, e, h);
      g := None;
    } else {
      if Step(w, e) != w {
        MoveIsHeld(w, Step(w, e), e.i, h);
      }
      g := h;
    }
  }

  lemma CallIsAimed(w: World, e: Event, k: nat)
    requires Numbered(w) && !e.Advance? && k < |Step(w, e).tasks| && (k < |w.tasks| ==> Aimed(w, k))
    ensures Aimed(Step(w, e), k)
  {
  }

  lemma CallIsHeld(w: World, e: Event, h: Option<nat>)
    requires Numbered(w) && Fitting(w.app) && Holder(w, h) && !e.Advance?
    ensures Numbered(Step(w, e)) && Fitting(Step(w, e).app) && Holder(Step(w, e), h)
    ensures w.started == Step(w, e).started
  {
    if h.Some? {
      assert Holds(Step(w, e), h.value);
    }
  }

  lemma AllAimed(w: World, e: Event)
    requires Numbered(w) && forall k: nat :: k < |w.tasks| ==> Aimed(w, k)
    ensures forall k: nat :: k < |Step(w, e).tasks| ==> Aimed(Step(w, e), k)
  {
    forall k: nat | k < |Step(w, e).tasks|
      ensures Aimed(Step(w, e), k)
    {
      if e.Advance? && e.i < |w.tasks| {
        AdvanceIsAimed(w, e, k);
      } else if !e.Advance? {
        CallIsAimed(w, e, k);
      }
    }
  }

  lemma StepIsSound(w: World, e: Event)
    requires Sound(w)
    ensures Sound(Step(w, e)) && w.started <= Step(w, e).started
  {
    var h :| Holder(w, h);
    AllAimed(w, e);
    if e.Advance? && e.i < |w.tasks| {
      AdvanceIsNumbered(w, e);
      var g := AdvanceIsHeld(w, e, h);
    } else if !e.Advance? {
      CallIsHeld(w, e, h);
    }
  }

  lemma {:induction false} RunsAreSound(w: World, events: seq<Event>)
    requires Sound(w)
    ensures Sound(After(w, events)) && w.started <= After(w, events).started
    decreases |events|
  {
    if events != [] {
      StepIsSound(w, events[0]);
      RunsAreSound(Step(w, events[0]), events[1..]);
    }
  }

  lemma ReachedIsSound(events: seq<Event>) returns (h: Option<nat>)
    ensures Sound(After(START, events)) && Holder(After(START, events), h)
  {
    assert Holder(START, None);
    RunsAreSound(START, events);
    h :| Holder(After(START, events), h);
  }

  /** In every interleaving, whatever ids the clients choose, exactly one turn is started and not
      finished while the slot is active and none while it is free. */
  lemma OneUnfinishedTurn(events: seq<Event>)
    ensures var w := After(START, events); |Unfinished(w)| == if w.app.active.Some? then 1 else 0
  {
    var h := ReachedIsSound(events);
    var w := After(START, events);
    if h.Some? {
      assert Unfinished(w) == {h.value};
    } else {
      assert Unfinished(w) == {};
    }
  }

  /** An active turn leaves the slot only by its own driver's finish, which always frees it; so no
      start ever takes the slot from a turn, interactive or not. */
  lemma OnlyItsDriverEndsATurn(events: seq<Event>, e: Event)
    ensures var w := After(START, events);
            var n := Step(w, e);
            w.app.active.Some? ==>
              (n.app.active != w.app.active <==>
                 e.Advance? && e.i < |w.tasks| && w.tasks[e.i].at == Driving(w.app.active.value))
              && (n.app.active != w.app.active ==> n.app.active.None?)
  {
    var h := ReachedIsSound(events);
  }

  predicate Quiet(events: seq<Event>) {
    forall k :: 0 <= k < |events| ==> !events[k].Cancel? && !events[k].CancelTaken?
  }

  predicate Spares(w: World) {
    forall c :: c in w.app.signalled && c < |w.started| ==> w.started[c].lane != Interactive
  }

  lemma StepSparesInteractive(w: World, e: Event)
    requires Numbered(w) && Spares(w) && !e.Cancel? && !e.CancelTaken?
    requires e.Advance? && e.i < |w.tasks| ==> Aimed(w, e.i)
    ensures Spares(Step(w, e))
  {
  }

  /** Preemption alone never signals an interactive turn. */
  lemma {:induction false} PreemptionSparesInteractive(w: World, events: seq<Event>)
    requires Sound(w) && Spares(w) && Quiet(events)
    ensures Sound(After(w, events)) && Spares(After(w, events))
    decreases |events|
  {
    if events != [] {
      StepIsSound(w, events[0]);
      StepSparesInteractive(w, events[0]);
      assert Quiet(events[1..]);
      PreemptionSparesInteractive(Step(w, events[0]), events[1..]);
    }
  }

  // ----- Disconnection -----

  /** A request and the connection it arrives on. */
  datatype Asked = Asked(conn: nat, request: Request)

  predicate Among(events: seq<Event>, asked: set<Asked>) {
    forall k :: 0 <= k < |events| && events[k].Arrive? ==> Asked(events[k].conn, events[k].request) in asked
  }

  /** No request id is used on two connections; one connection may repeat its own. */
  predicate OneConnectionPerId(asked: set<Asked>) {
    forall x, y :: x in asked && y in asked && x.request.id == y.request.id ==> x.conn == y.conn
  }

  /** Cancelling what the closing connection took signals the turn that task `i` runs. */
  predicate Signals(w: World, conn: nat, i: nat) {
    && i < |w.tasks| && Running(w.tasks[i].at)
    && w.tasks[i].at.turn.channel !in w.app.signalled
    && w.tasks[i].at.turn.channel in Step(w, CancelTaken(conn)).app.signalled
  }

  ghost predicate SparesOthers(w: World) {
    forall conn: nat, i: nat :: Signals(w, conn, i) ==> w.tasks[i].conn == conn
  }

  ghost predicate Owns(tasks: seq<Task>, conn: nat, id: string) {
    exists i :: 0 <= i < |tasks| && tasks[i].conn == conn && tasks[i].request.id == id
  }

  /** What a connection may cancel is a turn it asked for. */
  ghost predicate Entitled(w: World) {
    && (forall conn :: conn in w.owned ==> Owns(w.tasks, conn, w.owned[conn]))
    && (forall conn :: conn in w.taken ==> Owns(w.tasks, conn, w.taken[conn]))
  }

  lemma TasksPersist(w: World, e: Event, i: nat)
    requires i < |w.tasks|
    ensures i < |Step(w, e).tasks| && Step(w, e).tasks[i].conn == w.tasks[i].conn
    ensures Step(w, e).tasks[i].request == w.tasks[i].request
  {
    if e.Advance? && e.i < |w.tasks| {
      assert Step(w, e).tasks == w.tasks[e.i := w.tasks[e.i].(at := Step(w, e).tasks[e.i].at)];
    }
  }

  lemma OwnsPersists(w: World, e: Event, conn: nat, id: string)
    requires Owns(w.tasks, conn, id)
    ensures Owns(Step(w, e).tasks, conn, id)
  {
    var i :| 0 <= i < |w.tasks| && w.tasks[i].conn == conn && w.tasks[i].request.id == id;
    TasksPersist(w, e, i);
  }

  predicate CellKept(w: World, n: World, conn: nat) {
    conn in n.owned ==> conn in w.owned && w.owned[conn] == n.owned[conn]
  }

  lemma CallKeepsCell(w: World, e: Event, conn: nat)
    requires !e.Advance?
    ensures CellKept(w, Step(w, e), conn)
  {
  }

  lemma AdvanceKeepsCell(w: World, e: Event, conn: nat)
    requires e.Advance? && (e.i < |w.tasks| ==> !w.tasks[e.i].at.Owning?)
    ensures CellKept(w, Step(w, e), conn)
  {
  }

  /** A cell is filled only by a task of its connection, with the id of its turn. */
  lemma CellsChange(w: World, e: Event, conn: nat)
    ensures || CellKept(w, Step(w, e), conn)
            || (&& e.Advance? && e.i < |w.tasks| && w.tasks[e.i].conn == conn && w.tasks[e.i].at.Owning?
                && conn in Step(w, e).owned && Step(w, e).owned[conn] == w.tasks[e.i].at.turn.id)
  {
    if !e.Advance? {
      CallKeepsCell(w, e, conn);
    } else if e.i >= |w.tasks| || !w.tasks[e.i].at.Owning? {
      AdvanceKeepsCell(w, e, conn);
    }
  }

  lemma TakingsChange(w: World, e: Event, conn: nat)
    requires conn in Step(w, e).taken && !(conn in w.taken && w.taken[conn] == Step(w, e).taken[conn])
    ensures conn in w.owned && w.owned[conn] == Step(w, e).taken[conn]
  {
  }

  lemma OwningIsEntitled(w: World, e: Event, conn: nat)
    requires Entitled(w) && conn in Step(w, e).owned
    requires forall i: nat :: i < |w.tasks| && Running(w.tasks[i].at) ==> Holds(w, i)
    ensures Owns(Step(w, e).tasks, conn, Step(w, e).owned[conn])
  {
    CellsChange(w, e, conn);
    if !CellKept(w, Step(w, e), conn) {
      assert Holds(w, e.i);
      assert Owns(w.tasks, conn, Step(w, e).owned[conn]);
    }
    OwnsPersists(w, e, conn, Step(w, e).owned[conn]);
  }

  lemma TakingIsEntitled(w: World, e: Event, conn: nat)
    requires Entitled(w) && conn in Step(w, e).taken
    ensures Owns(Step(w, e).tasks, conn, Step(w, e).taken[conn])
  {
    if !(conn in w.taken && w.taken[conn] == Step(w, e).taken[conn]) {
      TakingsChange(w, e, conn);
    }
    OwnsPersists(w, e, conn, Step(w, e).taken[conn]);
  }

  lemma StepIsEntitled(w: World, e: Event)
    requires Sound(w) && Entitled(w)
    ensures Entitled(Step(w, e))
  {
    var n := Step(w, e);
    forall conn | conn in n.owned
      ensures Owns(n.tasks, conn, n.owned[conn])
    {
      OwningIsEntitled(w, e, conn);
    }
    forall conn | conn in n.taken
      ensures Owns(n.tasks, conn, n.taken[conn])
    {
      TakingIsEntitled(w, e, conn);
    }
  }

  lemma {:induction false} RunsAreEntitled(w: World, events: seq<Event>)
    requires Sound(w) && Entitled(w)
    ensures Sound(After(w, events)) && Entitled(After(w, events))
    decreases |events|
  {
    if events != [] {
      StepIsSound(w, events[0]);
      StepIsEntitled(w, events[0]);
      RunsAreEntitled(Step(w, events[0]), events[1..]);
    }
  }

  lemma {:induction false} AfterSnoc(w: World, events: seq<Event>, e: Event)
    ensures After(w, events + [e]) == Step(After(w, events), e)
    decreases |events|
  {
    if events == [] {
      assert After(w, events + [e]) == After(Step(w, e), []);
    } else {
      assert (events + [e])[1..] == events[1..] + [e];
      AfterSnoc(Step(w, events[0]), events[1..], e);
    }
  }

  predicate AllAsked(w: World, asked: set<Asked>) {
    forall i :: 0 <= i < |w.tasks| ==> Asked(w.tasks[i].conn, w.tasks[i].request) in asked
  }

  lemma StepIsAsked(w: World, e: Event, asked: set<Asked>)
    requires AllAsked(w, asked) && (e.Arrive? ==> Asked(e.conn, e.request) in asked)
    ensures AllAsked(Step(w, e), asked)
  {
    var n := Step(w, e);
    forall i: nat | i < |n.tasks|
      ensures Asked(n.tasks[i].conn, n.tasks[i].request) in asked
    {
      if i < |w.tasks| {
        TasksPersist(w, e, i);
      } else {
        assert n.tasks == w.tasks + [Task(e.conn, e.request, Observing)];
      }
    }
  }

  lemma {:induction false} RunsAreAsked(w: World, events: seq<Event>, asked: set<Asked>)
    requires Among(events, asked) && AllAsked(w, asked)
    ensures AllAsked(After(w, events), asked)
    decreases |events|
  {
    if events != [] {
      StepIsAsked(w, events[0], asked);
      assert Among(events[1..], asked);
      RunsAreAsked(Step(w, events[0]), events[1..], asked);
    }
  }

  /** While no id is used on two connections, what a closing connection signals is its own turn. */
  lemma DisconnectSparesOthers(events: seq<Event>, asked: set<Asked>)
    requires Among(events, asked) && OneConnectionPerId(asked)
    ensures SparesOthers(After(START, events))
  {
    assert Holder(START, None);
    RunsAreEntitled(START, events);
    RunsAreAsked(START, events, asked);
    var w := After(START, events);
    forall conn: nat, i: nat | Signals(w, conn, i)
      ensures w.tasks[i].conn == conn
    {
      assert Holds(w, i) && w.taken[conn] == w.tasks[i].request.id;
      var j :| 0 <= j < |w.tasks| && w.tasks[j].conn == conn && w.tasks[j].request.id == w.taken[conn];
      assert Asked(w.tasks[i].conn, w.tasks[i].request) in asked && Asked(w.tasks[j].conn, w.tasks[j].request) in asked;
    }
  }

  /** A turn's id is its request's, which a client may reuse: a connection that has closed but not
      yet cancelled what it took then signals the turn of another connection. */
  lemma DisconnectHitsReusedId(w: World, conn: nat, other: nat, r: Request)
    requires Sound(w) && conn in w.taken && w.taken[conn] == r.id && w.app.active.None?
    ensures var i := |w.tasks|;
            var s := Step(Step(Step(w, Arrive(other, r)), Advance(i, false, false, true)), Advance(i, false, true, true));
            Signals(s, conn, i) && s.tasks[i].conn == other
  {
  }

  /** Such a connection is reached: its turn has finished, but its cell is not yet cleared. */
  lemma TakenWhileFree(x: Asked) returns (events: seq<Event>)
    ensures var w := After(START, events);
            Sound(w) && x.conn in w.taken && w.taken[x.conn] == x.request.id && w.app.active.None?
    ensures Among(events, {x})
  {
    var go := Advance(0, false, false, true);
    var r := x.request;
    var turn := Turn(r.id, r.lane, r.principal, 0);
    events := [Arrive(x.conn, r)];
    assert After(START, events) == Step(START, events[0]);
    ghost var places := [Claiming, Owning(turn), Spawning(turn), Driving(turn), Clearing(turn)];
    var k := 0;
    while k < 5
      invariant 0 <= k <= 5 && Among(events, {x})
      invariant After(START, events).tasks == [Task(x.conn, r, if k == 0 then Observing else places[k - 1])]
      invariant After(START, events).app.active == if 2 <= k <= 4 then Some(turn) else None
      invariant After(START, events).app.channels == if 2 <= k then 1 else 0
      invariant k <= 1 ==> After(START, events).app.worker.None?
      invariant After(START, events).owned == if 3 <= k then map[x.conn := r.id] else map[]
    {
      AfterSnoc(START, events, go);
      events := events + [go];
      k := k + 1;
    }
    AfterSnoc(START, events, Take(x.conn));
    events := events + [Take(x.conn)];
    var h := ReachedIsSound(events);
  }

  /** An id used on two connections: a run that signals the other connection's turn. */
  lemma ReusedIdIsHit(x: Asked, y: Asked, asked: set<Asked>) returns (events: seq<Event>)
    requires x in asked && y in asked && x.request.id == y.request.id && x.conn != y.conn
    ensures Among(events, asked) && !SparesOthers(After(START, events))
  {
    var before := TakenWhileFree(x);
    var w := After(START, before);
    var i := |w.tasks|;
    DisconnectHitsReusedId(w, x.conn, y.conn, y.request);
    AfterSnoc(START, before, Arrive(y.conn, y.request));
    var more := before + [Arrive(y.conn, y.request)];
    AfterSnoc(START, more, Advance(i, false, false, true));
    var even := more + [Advance(i, false, false, true)];
    AfterSnoc(START, even, Advance(i, false, true, true));
    events := even + [Advance(i, false, true, true)];
    assert Signals(After(START, events), x.conn, i);
  }

  /** Whatever the requests, closing a connection signals only that connection's turn, in every run
      over them, if and only if no id is used on two connections. */
  lemma DisconnectSparesOthersExactly(asked: set<Asked>)
    ensures (forall events :: Among(events, asked) ==> SparesOthers(After(START, events))) <==> OneConnectionPerId(asked)
  {
    if OneConnectionPerId(asked) {
      forall events | Among(events, asked)
        ensures SparesOthers(After(START, events))
      {
        DisconnectSparesOthers(events, asked);
      }
    } else {
      var x, y :| x in asked && y in asked && x.request.id == y.request.id && x.conn != y.conn;
      var events := ReusedIdIsHit(x, y, asked);
    }
  }

  // ----- Authorization -----

  /** No grant is newer than the record, and the record's generation has one token. */
  ghost predicate Bound(w: World) {
    && (forall p, g, t :: (p, g, t) in w.granted ==>
          g <= Known(w.app, p).generation && (g == Known(w.app, p).generation ==> t == Known(w.app, p).token))
    && (forall p, g, t, u :: (p, g, t) in w.granted && (p, g, u) in w.granted ==> t == u)
  }

  lemma StepIsBound(w: World, e: Event)
    requires Bound(w) && !e.Authorize?
    ensures Bound(Step(w, e)) && w.granted == Step(w, e).granted
  {
    assert Step(w, e).app.principals == w.app.principals;
  }

  lemma AuthorizeIsBound(w: World, e: Event)
    requires Bound(w) && e.Authorize?
    ensures Bound(Step(w, e)) && w.granted <= Step(w, e).granted
  {
  }

  lemma {:induction false} RunsAreBound(w: World, events: seq<Event>)
    requires Bound(w)
    ensures Bound(After(w, events)) && w.granted <= After(w, events).granted
    decreases |events|
  {
    if events != [] {
      if events[0].Authorize? {
        AuthorizeIsBound(w, events[0]);
      } else {
        StepIsBound(w, events[0]);
      }
      RunsAreBound(Step(w, events[0]), events[1..]);
    }
  }

  /** In every interleaving a principal's generation is bound to the first token it came with, it
      never goes back, and it does not move while that principal has the turn. */
  lemma TokensAreBound(events: seq<Event>, e: Event, p: string, g: nat, t: string, u: string)
    ensures var w := After(START, events);
            && ((p, g, t) in w.granted && (p, g, u) in w.granted ==> t == u)
            && Known(Step(w, e).app, p).generation >= Known(w.app, p).generation
            && (w.app.active.Some? && w.app.active.value.principal == p ==>
                  Known(Step(w, e).app, p) == Known(w.app, p))
  {
    RunsAreBound(START, events);
  }
}
