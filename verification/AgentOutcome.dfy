/** What becomes of each agent request: when it gets the slot, when it is given up, and what each of
    the daemon's calls leaves. */
module AgentOutcome {
  import opened Wrappers
  import opened AgentSlot
  import opened AgentTurns

  /** The turn in the slot makes way for the request. */
  predicate MakesWay(turn: Turn, r: Request) {
    r.lane == Interactive && turn.lane != Interactive
  }

  /** A seeking request over a taken slot goes after the turn that makes way for it, and is given up
      over any other; over a free slot it claims. */
  lemma SeeksExactly(w: World, i: nat, expired: bool, closed: bool, spawns: bool)
    requires i < |w.tasks| && w.tasks[i].at.Observing?
    ensures var n, active := Step(w, Advance(i, expired, closed, spawns)), w.app.active;
            && n.app == w.app
            && n.tasks[i].at ==
               if active.None? then Claiming
               else if MakesWay(active.value, w.tasks[i].request) then Signalling(active.value.channel)
               else Over
  {
  }

  /** The turn gone after is signalled, and nothing else changes; the request then waits until the slot
      is free or its time is over. */
  lemma PreemptsExactly(w: World, i: nat, expired: bool, closed: bool, spawns: bool)
    requires i < |w.tasks| && (w.tasks[i].at.Signalling? || w.tasks[i].at.Waiting?)
    ensures var n, task := Step(w, Advance(i, expired, closed, spawns)), w.tasks[i];
            if task.at.Signalling? then
              n.tasks[i].at == Waiting && n.app == w.app.(signalled := w.app.signalled + {task.at.channel})
            else
              n.app == w.app
              && n.tasks[i].at == if expired then Over else if w.app.active.None? then Claiming else Waiting
  {
  }

  /** A worker that already runs as the request asks. */
  predicate Fits(a: App, r: Request, closed: bool) {
    a.worker == Some(Worker(r.profile, r.prompt)) && !closed
  }

  /** A claim of a free slot succeeds if and only if a worker fits or one can be started.  The turn then
      has the request's id, lane and principal and a channel of its own that nobody has signalled. */
  lemma ClaimsExactly(w: World, i: nat, expired: bool, closed: bool, spawns: bool)
    requires Sound(w) && i < |w.tasks| && w.tasks[i].at.Claiming? && w.app.active.None?
    ensures var n, r := Step(w, Advance(i, expired, closed, spawns)), w.tasks[i].request;
            if Fits(w.app, r, closed) || spawns then
              && n.tasks[i].at == Owning(Turn(r.id, r.lane, r.principal, |w.started|))
              && n.app.active == Some(n.tasks[i].at.turn) && n.started == w.started + [n.tasks[i].at.turn]
              && |w.started| !in n.app.signalled && n.app.worker == Some(Worker(r.profile, r.prompt))
            else
              n.tasks[i].at == Over && n.app.active.None? && n.app.worker.None? && n.started == w.started
  {
  }

  /** A claim of a taken slot starts over against a turn that makes way, and is given up otherwise. */
  lemma LateClaim(w: World, i: nat, expired: bool, closed: bool, spawns: bool)
    requires i < |w.tasks| && w.tasks[i].at.Claiming? && w.app.active.Some?
    ensures var n := Step(w, Advance(i, expired, closed, spawns));
            n.app == w.app && n.tasks[i].at == if MakesWay(w.app.active.value, w.tasks[i].request) then Observing else Over
  {
  }

  predicate Seeking(p: Place) {
    p.Observing? || p.Signalling? || p.Waiting? || p.Claiming?
  }

  /** The step gives a request up: it was after the slot, and is over without a turn. */
  predicate GivesUp(w: World, e: Event, i: nat) {
    i < |w.tasks| && Seeking(w.tasks[i].at) && Step(w, e).tasks[i].at.Over?
  }

  lemma OthersStay(w: World, e: Event, i: nat)
    requires i < |w.tasks| && !(e.Advance? && e.i == i)
    ensures i < |Step(w, e).tasks| && Step(w, e).tasks[i] == w.tasks[i]
  {
  }

  /** Over every run a request is given up exactly when it meets a turn that does not make way, when
      its wait is over, or when it claims a free slot without a worker.  So an interactive request is
      given up only over an interactive turn, an expired wait or a worker that could not be started. */
  lemma GivenUpExactly(events: seq<Event>, e: Event, i: nat)
    requires i < |After(START, events).tasks|
    ensures i < |Step(After(START, events), e).tasks|
    ensures var w := After(START, events);
            var task, active := w.tasks[i], w.app.active;
            GivesUp(w, e, i) <==>
              && e.Advance? && e.i == i
              && match task.at {
                   case Observing => active.Some? && !MakesWay(active.value, task.request)
                   case Waiting => e.expired
                   case Claiming =>
                     if active.Some? then !MakesWay(active.value, task.request)
                     else !Fits(w.app, task.request, e.closed) && !e.spawns
                   case _ => false
                 }
    ensures var w := After(START, events);
            GivesUp(w, e, i) && w.tasks[i].request.lane == Interactive ==>
              || (w.app.active.Some? && w.app.active.value.lane == Interactive)
              || (w.tasks[i].at.Waiting? && e.expired)
              || (w.app.active.None? && !e.spawns)
  {
    var h := ReachedIsSound(events);
    var w := After(START, events);
    if !(e.Advance? && e.i == i) {
      OthersStay(w, e, i);
    } else {
      match w.tasks[i].at {
        case Observing => SeeksExactly(w, i, e.expired, e.closed, e.spawns);
        case Signalling(_) => PreemptsExactly(w, i, e.expired, e.closed, e.spawns);
        case Waiting => PreemptsExactly(w, i, e.expired, e.closed, e.spawns);
        case Claiming =>
          if w.app.active.Some? {
            LateClaim(w, i, e.expired, e.closed, e.spawns);
          } else {
            ClaimsExactly(w, i, e.expired, e.closed, e.spawns);
          }
        case _ =>
      }
    }
  }

  /** An interactive request does get the slot of a background turn: it has the turn signalled, waits
      for its driver to finish, and takes over. */
  lemma PreemptionSucceeds(w: World, j: nat, conn: nat, r: Request)
    requires Sound(w) && j < |w.tasks| && w.tasks[j].at.Driving? && w.app.active == Some(w.tasks[j].at.turn)
    requires MakesWay(w.app.active.value, r)
    ensures var i, go := |w.tasks|, Advance(|w.tasks|, false, false, true);
            var signalled := Step(Step(Step(w, Arrive(conn, r)), go), go);
            var n := Step(Step(Step(signalled, Advance(j, false, false, true)), go), go);
            && w.app.active.value.channel in signalled.app.signalled
            && n.tasks[i].at == Owning(n.app.active.value)
            && n.app.active.value.id == r.id && n.app.active.value.lane == Interactive
  {
    var i, go := |w.tasks|, Advance(|w.tasks|, false, false, true);
    var a := Step(w, Arrive(conn, r));
    SeeksExactly(a, i, false, false, true);
    var b := Step(a, go);
    PreemptsExactly(b, i, false, false, true);
    var c := Step(b, go);
    OthersStay(a, go, j);
    OthersStay(b, go, j);
    var d := Step(c, Advance(j, false, false, true));
    OthersStay(c, Advance(j, false, false, true), i);
    PreemptsExactly(d, i, false, false, true);
    var f := Step(d, go);
    StepIsSound(w, Arrive(conn, r));
    StepIsSound(a, go);
    StepIsSound(b, go);
    StepIsSound(c, Advance(j, false, false, true));
    StepIsSound(d, go);
    ClaimsExactly(f, i, false, false, true);
  }

  // ----- A turn from its start to its end -----

  /** A started turn is noted in its connection's cell, driven, and finished; its cell is cleared only
      if it still is the one noted there. */
  lemma DrivesExactly(w: World, i: nat, expired: bool, closed: bool, spawns: bool)
    requires i < |w.tasks| && !Seeking(w.tasks[i].at)
    ensures var n, at, conn := Step(w, Advance(i, expired, closed, spawns)), w.tasks[i].at, w.tasks[i].conn;
            match at {
              case Owning(turn) =>
                n.tasks[i].at == Spawning(turn) && n.app == w.app && n.owned == w.owned[conn := turn.id]
              case Spawning(turn) => n.tasks[i].at == Driving(turn) && n.app == w.app && n.owned == w.owned
              case Driving(turn) =>
                && n.tasks[i].at == Clearing(turn) && n.owned == w.owned
                && n.app.active == (if w.app.active.Some? && w.app.active.value.id == turn.id then None else w.app.active)
                && n.app.worker == w.app.worker
              case Clearing(turn) =>
                && n.tasks[i].at == Over && n.app == w.app
                && (conn in w.owned && w.owned[conn] == turn.id ==> conn !in n.owned)
                && (conn in w.owned && w.owned[conn] != turn.id ==> conn in n.owned && n.owned[conn] == w.owned[conn])
                && (forall other :: other != conn ==>
                      (other in n.owned <==> other in w.owned) && (other in w.owned ==> n.owned[other] == w.owned[other]))
              case _ => n == w
            }
  {
  }

  // ----- The other calls -----

  /** A cancellation signals the turn in the slot if it has that id, and nothing else. */
  lemma CancelsExactly(w: World, id: string, c: nat)
    ensures c in Step(w, Cancel(id)).app.signalled <==>
              c in w.app.signalled || (w.app.active.Some? && w.app.active.value.id == id && w.app.active.value.channel == c)
    ensures Step(w, Cancel(id)).app.active == w.app.active && Step(w, Cancel(id)).tasks == w.tasks
  {
  }

  /** A closing connection takes its noted turn once, and cancels exactly that. */
  lemma ClosesExactly(w: World, conn: nat, c: nat)
    requires conn in w.owned
    ensures var taken := Step(w, Take(conn));
            var n := Step(taken, CancelTaken(conn));
            && conn !in taken.owned && conn in taken.taken && taken.taken[conn] == w.owned[conn] && taken.app == w.app
            && conn !in n.taken
            && (c in n.app.signalled <==> c in Step(w, Cancel(w.owned[conn])).app.signalled)
  {
  }

  /** A reload is refused during a turn, keeps a worker of the same profile, and otherwise leaves none. */
  lemma ReloadsExactly(w: World, profile: Option<Profile>)
    ensures var n := Step(w, Reload(profile));
            if w.app.active.Some? then n.app == w.app
            else
              && n.app.worker == (if profile.Some? && profile == w.app.profile then w.app.worker else None)
              && n.app.profile == (if profile.Some? then profile else w.app.profile)
              && n.app.active.None? && n.app.prompt == w.app.prompt
  {
  }

  /** A principal is admitted with its known token, or with any token at a newer generation while it
      has no turn; then it is known by that token. */
  lemma AdmitsExactly(w: World, p: string, g: nat, t: string)
    ensures var n, known := Step(w, Authorize(p, g, t)), Known(w.app, p);
            var admitted := (g == known.generation && t == known.token)
                            || (g > known.generation && !(w.app.active.Some? && w.app.active.value.principal == p));
            && Known(n.app, p) == (if admitted then Auth(g, t) else known)
            && n.granted == w.granted + (if admitted then {(p, g, t)} else {})
            && forall q :: q != p ==> Known(n.app, q) == Known(w.app, q)
  {
  }
}
