/** The receiving end of the fence: an application's lifecycle client, and the supervisor that
    feeds it over a channel that may lose, repeat and reorder messages. */
module Fence {
  import opened Wrappers
  import opened SupervisorModel

  datatype Packet =
    | End
    | Garbage
    | Command(token: Token, start: bool, body: nat)

  datatype Refusal = Disconnected | Malformed | InvalidToken | StartRequired | StaleToken

  /** What the client makes of one packet: the token it then holds, or why it refuses. */
  function Accept(app: AppId, active: Option<Token>, p: Packet): Result<Token, Refusal> {
    match p
    case End => Err(Disconnected)
    case Garbage => Err(Malformed)
    case Command(t, start, _) =>
      if t.generation == 0 || t.lease == Some(0) then Err(Malformed)
      else if t.app != app then Err(InvalidToken)
      else match active {
        case None => if start && t.epoch > 0 && t.lease.Some? then Ok(t) else Err(StartRequired)
        case Some(a) => if t.generation != a.generation || t.epoch < a.epoch then Err(StaleToken) else Ok(t)
      }
  }

  /** The token held after a row of packets that were all accepted. */
  function Held(app: AppId, active: Option<Token>, packets: seq<Packet>): Option<Token> {
    if packets == [] then active
    else match Accept(app, Held(app, active, packets[..|packets| - 1]), packets[|packets| - 1]) {
      case Ok(t) => Some(t)
      case Err(_) => None
    }
  }

  predicate AllAccepted(app: AppId, active: Option<Token>, packets: seq<Packet>) {
    forall i :: 0 <= i < |packets| ==> Accept(app, Held(app, active, packets[..i]), packets[i]).Ok?
  }

  lemma AcceptedOneMore(app: AppId, active: Option<Token>, packets: seq<Packet>, n: nat)
    requires n < |packets| && AllAccepted(app, active, packets[..n])
    requires Accept(app, Held(app, active, packets[..n]), packets[n]).Ok?
    ensures AllAccepted(app, active, packets[..n + 1])
    ensures Held(app, active, packets[..n + 1]) == Some(Accept(app, Held(app, active, packets[..n]), packets[n]).value)
  {
    var more := packets[..n + 1];
    assert more[..n] == packets[..n];
    forall i | 0 <= i < |more|
      ensures Accept(app, Held(app, active, more[..i]), more[i]).Ok?
    {
      assert more[..i] == packets[..i];
      if i < n {
        assert packets[..n][..i] == packets[..i] && packets[..n][i] == more[i];
      }
    }
  }

  class LifecycleClient {
    const app: AppId
    var active: Option<Token>

    constructor (app: AppId)
      ensures this.app == app && active == None
    {
      this.app := app;
      active := None;
    }

    /** A refused packet changes nothing. */
    method AcceptToken(p: Packet) returns (error: Option<Refusal>)
      modifies this
      ensures match Accept(app, old(active), p)
              case Ok(t) => error == None && active == Some(t)
              case Err(e) => error == Some(e) && active == old(active)
    {
      if p.End? {
        return Some(Disconnected);
      }
      if p.Garbage? || p.token.generation == 0 || p.token.lease == Some(0) {
        return Some(Malformed);
      }
      if p.token.app != app {
        return Some(InvalidToken);
      }
      match active {
        case None =>
          if !(p.start && p.token.epoch > 0 && p.token.lease.Some?) {
            return Some(StartRequired);
          }
        case Some(a) =>
          if p.token.generation != a.generation || p.token.epoch < a.epoch {
            return Some(StaleToken);
          }
      }
      active := Some(p.token);
      return None;
    }

    /** Reads until the channel is empty or a packet is refused.  A refusal loses the commands
        already read in this call but not their tokens. */
    method Poll(inbox: seq<Packet>) returns (r: Result<seq<nat>, Refusal>, ghost k: nat)
      modifies this
      ensures k <= |inbox| && AllAccepted(app, old(active), inbox[..k])
      ensures active == Held(app, old(active), inbox[..k])
      ensures r.Ok? <==> k == |inbox|
      ensures r.Ok? ==> |r.value| == k && forall i :: 0 <= i < k ==> inbox[i].Command? && r.value[i] == inbox[i].body
      ensures r.Err? ==> Accept(app, active, inbox[k]) == Err(r.error)
    {
      var commands, n := [], 0;
      while n < |inbox|
        invariant n <= |inbox| && |commands| == n
        invariant AllAccepted(app, old(active), inbox[..n]) && active == Held(app, old(active), inbox[..n])
        invariant forall i :: 0 <= i < n ==> inbox[i].Command? && commands[i] == inbox[i].body
      {
        var refused := AcceptToken(inbox[n]);
        if refused.Some? {
          return Err(refused.value), n;
        }
        AcceptedOneMore(app, old(active), inbox, n);
        commands := commands + [inbox[n].body];
        n := n + 1;
      }
      assert inbox[..n] == inbox;
      return Ok(commands), n;
    }
  }

  /** A well-formed token of an application: its generation and any lease are not zero. */
  predicate WellFormed(t: Token, app: AppId) {
    t.app == app && t.generation != 0 && t.lease != Some(0)
  }

  /** A client with a token takes exactly the well-formed ones of its generation that are not of an
      earlier epoch; one without takes exactly those that come with a start, an epoch and a lease. */
  lemma AcceptsExactly(app: AppId, active: Option<Token>, t: Token, start: bool, body: nat)
    ensures Accept(app, active, Command(t, start, body)) == Ok(t) <==>
              && WellFormed(t, app)
              && (if active.Some? then t.generation == active.value.generation && t.epoch >= active.value.epoch
                  else start && t.epoch != 0 && t.lease.Some?)
    ensures Accept(app, active, Command(t, start, body)).Err? ==>
              match Accept(app, active, Command(t, start, body)).error {
                case Malformed => t.generation == 0 || t.lease == Some(0)
                case InvalidToken => t.app != app
                case StartRequired => active.None? && (!start || t.epoch == 0 || t.lease.None?)
                case StaleToken =>
                  active.Some? && (t.generation != active.value.generation || t.epoch < active.value.epoch)
                case Disconnected => false
              }
  {
  }

  // ----- Supervisor, channel and client together -----

  /** The history holds every token the supervisor ever held for the application, oldest first. */
  datatype World = World(supervisor: State, history: seq<Token>, client: Option<Token>)

  /** The channel may deliver any token of the history, at any time and any number of times. */
  datatype Event = Operate(op: Op) | Deliver(i: nat, start: bool)

  const START := World(INITIAL, [], None)

  function Step(app: AppId, w: World, e: Event): World {
    match e
    case Operate(op) =>
      (match Do(w.supervisor, op)
       case Err(_) => w
       case Ok(s) =>
         w.(supervisor := s, history := if app in s.apps then w.history + [s.apps[app].token] else w.history))
    case Deliver(i, start) =>
      if i >= |w.history| then w
      else match Accept(app, w.client, Command(w.history[i], start, 0)) {
        case Ok(t) => w.(client := Some(t))
        case Err(_) => w
      }
  }

  function After(app: AppId, w: World, events: seq<Event>): World
    decreases |events|
  {
    if events == [] then w else After(app, Step(app, w, events[0]), events[1..])
  }

  predicate Ordered(h: seq<Token>) {
    forall i, j :: 0 <= i < j < |h| ==>
      && (SameFence(h[i], h[j]) || Older(h[i], h[j]))
      && (SameFence(h[i], h[j]) && h[j].lease.Some? ==> h[j].lease == h[i].lease)
  }

  predicate Issued(app: AppId, t: Token) {
    t.app == app && t.generation != 0 && t.lease != Some(0)
  }

  predicate Sound(app: AppId, w: World) {
    && Invariant(w.supervisor) && Ordered(w.history)
    && (forall i :: 0 <= i < |w.history| ==> Issued(app, w.history[i]))
    && (w.history == [] <==> app !in w.supervisor.apps)
    && (w.history != [] ==> w.history[|w.history| - 1] == w.supervisor.apps[app].token)
    && (w.client.Some? ==> w.client.value in w.history)
  }

  /** A client never changes process and never goes back an epoch. */
  predicate Follows(before: Option<Token>, after: Option<Token>) {
    before.Some? ==>
      after.Some? && after.value.generation == before.value.generation && after.value.epoch >= before.value.epoch
  }

  lemma HistoryGrows(s: State, h: seq<Token>, op: Op, app: AppId)
    requires Do(s, op).Ok? && app in s.apps && Ordered(h) && h != [] && h[|h| - 1] == s.apps[app].token
    ensures app in Do(s, op).value.apps && Ordered(h + [Do(s, op).value.apps[app].token])
  {
    FencesAdvance(s, op, app);
    var t := Do(s, op).value.apps[app].token;
    forall i | 0 <= i < |h|
      ensures SameFence(h[i], t) || Older(h[i], t)
      ensures SameFence(h[i], t) && t.lease.Some? ==> t.lease == h[i].lease
    {
      assert i < |h| - 1 ==> SameFence(h[i], h[|h| - 1]) || Older(h[i], h[|h| - 1]);
    }
  }

  lemma FirstIsSound(app: AppId, w: World, op: Op)
    requires Sound(app, w) && Do(w.supervisor, op).Ok? && app !in w.supervisor.apps
    ensures Sound(app, Step(app, w, Operate(op)))
  {
    DoKeepsInvariant(w.supervisor, op);
    var s := Do(w.supervisor, op).value;
    assert app in s.apps ==> InstanceSound(app, s.apps[app]);
  }

  lemma NextIsSound(app: AppId, w: World, op: Op)
    requires Sound(app, w) && Do(w.supervisor, op).Ok? && app in w.supervisor.apps
    ensures Sound(app, Step(app, w, Operate(op)))
  {
    DoKeepsInvariant(w.supervisor, op);
    HistoryGrows(w.supervisor, w.history, op, app);
    var s := Do(w.supervisor, op).value;
    assert InstanceSound(app, s.apps[app]);
    assert w.client.Some? ==> w.client.value in w.history + [s.apps[app].token];
  }

  lemma OperateIsSound(app: AppId, w: World, op: Op)
    requires Sound(app, w)
    ensures Sound(app, Step(app, w, Operate(op))) && w.history <= Step(app, w, Operate(op)).history
  {
    if Do(w.supervisor, op).Ok? {
      if app in w.supervisor.apps {
        NextIsSound(app, w, op);
      } else {
        FirstIsSound(app, w, op);
      }
    }
  }

  lemma DeliverIsSound(app: AppId, w: World, i: nat, start: bool)
    requires Sound(app, w)
    ensures Sound(app, Step(app, w, Deliver(i, start))) && w.history == Step(app, w, Deliver(i, start)).history
    ensures Follows(w.client, Step(app, w, Deliver(i, start)).client)
  {
  }

  lemma StepIsSound(app: AppId, w: World, e: Event)
    requires Sound(app, w)
    ensures Sound(app, Step(app, w, e)) && w.history <= Step(app, w, e).history
    ensures Follows(w.client, Step(app, w, e).client)
  {
    match e
    case Operate(op) => OperateIsSound(app, w, op);
    case Deliver(i, start) => DeliverIsSound(app, w, i, start);
  }

  lemma {:induction false} RunsFollow(app: AppId, w: World, events: seq<Event>)
    requires Sound(app, w)
    ensures Sound(app, After(app, w, events)) && w.history <= After(app, w, events).history
    ensures Follows(w.client, After(app, w, events).client)
    decreases |events|
  {
    if events != [] {
      StepIsSound(app, w, events[0]);
      RunsFollow(app, Step(app, w, events[0]), events[1..]);
    }
  }

  /** The fence end to end.  Whatever the supervisor does and whatever the channel loses, repeats
      or reorders, a client that once held `c` keeps to its process and never regresses; what it
      holds was issued, is no newer than the supervisor's own token, and any lease in it is the one
      lease ever granted at its generation and epoch. */
  lemma EndToEnd(app: AppId, events: seq<Event>, more: seq<Event>)
    ensures var w := After(app, START, events);
            var later := After(app, w, more);
            && Follows(w.client, later.client)
            && (later.client.Some? ==>
                  && app in later.supervisor.apps && later.client.value in later.history
                  && var held, own := later.client.value, later.supervisor.apps[app].token;
                     && (SameFence(held, own) || Older(held, own))
                     && (held.lease.Some? ==> forall t ::
                           t in later.history && SameFence(t, held) && t.lease.Some? ==> t.lease == held.lease))
  {
    RunsFollow(app, START, events);
    RunsFollow(app, After(app, START, events), more);
    var later := After(app, After(app, START, events), more);
    if later.client.Some? {
      NewestIsLast(app, later, later.client.value);
      forall t | t in later.history && SameFence(t, later.client.value) && t.lease.Some? && later.client.value.lease.Some?
        ensures t.lease == later.client.value.lease
      {
        OneLease(later.history, t, later.client.value);
      }
    }
  }

  lemma OneLease(h: seq<Token>, t: Token, u: Token)
    requires Ordered(h) && t in h && u in h && SameFence(t, u) && t.lease.Some? && u.lease.Some?
    ensures t.lease == u.lease
  {
    var i :| 0 <= i < |h| && h[i] == t;
    var j :| 0 <= j < |h| && h[j] == u;
  }

  lemma NewestIsLast(app: AppId, w: World, t: Token)
    requires Sound(app, w) && t in w.history
    ensures app in w.supervisor.apps
    ensures SameFence(t, w.supervisor.apps[app].token) || Older(t, w.supervisor.apps[app].token)
  {
    var i :| 0 <= i < |w.history| && w.history[i] == t;
  }

  /** The client catches up.  After any run, hearing the supervisor's last token makes a client that has
      one hold exactly that if and only if it is still the same process; one without a token takes any
      token of the history if and only if it comes with a start and was on screen. */
  lemma CatchesUp(app: AppId, events: seq<Event>, i: nat, start: bool)
    ensures var w := After(app, START, events);
            && (w.client.Some? ==>
                  && w.history != [] && app in w.supervisor.apps
                  && (Step(app, w, Deliver(|w.history| - 1, start)).client == Some(w.supervisor.apps[app].token) <==>
                        w.client.value.generation == w.supervisor.apps[app].token.generation))
            && (w.client.None? && i < |w.history| ==>
                  Step(app, w, Deliver(i, start)).client ==
                  if start && w.history[i].epoch != 0 && w.history[i].lease.Some? then Some(w.history[i]) else None)
  {
    RunsFollow(app, START, events);
    var w := After(app, START, events);
    if w.client.Some? {
      NewestIsLast(app, w, w.client.value);
      assert Issued(app, w.history[|w.history| - 1]);
    } else if i < |w.history| {
      assert Issued(app, w.history[i]);
    }
  }

  /** And a grant that reaches it in order brings a parked or starting application to the screen: the
      supervisor's grant is recorded, delivered and held with its lease. */
  lemma GrantArrives(app: AppId, events: seq<Event>, generation: U64, epoch: U64, lease: U64)
    requires var w := After(app, START, events);
             && Do(w.supervisor, GrantForeground(app, generation, epoch, lease)).Ok?
             && (w.client.Some? ==> w.client.value.generation == generation)
    ensures var w := After(app, START, events);
            var granted := Step(app, w, Operate(GrantForeground(app, generation, epoch, lease)));
            Step(app, granted, Deliver(|w.history|, true)).client == Some(Token(app, generation, epoch, Some(lease)))
  {
    RunsFollow(app, START, events);
    var w := After(app, START, events);
    var op := GrantForeground(app, generation, epoch, lease);
    var granted := Step(app, w, Operate(op));
    OperateIsSound(app, w, op);
    assert granted.history == w.history + [granted.supervisor.apps[app].token];
    assert granted.supervisor.apps[app].token == Token(app, generation, epoch, Some(lease)) by {
      assert w.supervisor.apps[app].token.app == app;
    }
    assert Issued(app, granted.history[|w.history|]);
    if w.client.Some? {
      NewestIsLast(app, w, w.client.value);
    }
  }

  /** At an equal epoch the client takes any token, so it takes back a lease it has given up
      exactly when such a token of its own fence arrives; that message was issued before every copy
      of the one it holds, so a channel that keeps the order never causes it. */
  lemma LeaseRegainedExactly(app: AppId, w: World, i: nat, k: nat, start: bool)
    requires Sound(app, w) && i < |w.history| && k < |w.history|
    requires w.client == Some(w.history[k]) && w.history[k].lease.None?
    ensures var next := Step(app, w, Deliver(i, start)).client.value;
            && (SameFence(next, w.history[k]) && next.lease.Some? <==>
                  SameFence(w.history[i], w.history[k]) && w.history[i].lease.Some?)
            && (SameFence(next, w.history[k]) && next.lease.Some? ==> i < k)
  {
    assert Issued(app, w.history[i]);
  }

  lemma {:induction false} AfterConcat(app: AppId, w: World, a: seq<Event>, b: seq<Event>)
    ensures After(app, w, a + b) == After(app, After(app, w, a), b)
    decreases |a|
  {
    if a == [] {
      assert a + b == b;
    } else {
      assert (a + b)[1..] == a[1..] + b;
      AfterConcat(app, Step(app, w, a[0]), a[1..], b);
    }
  }

  lemma AfterTwo(app: AppId, w: World, a: Event, b: Event)
    ensures After(app, w, [a, b]) == Step(app, Step(app, w, a), b)
  {
    assert [a, b][1..] == [b];
    assert After(app, Step(app, w, a), [b]) == Step(app, Step(app, w, a), b);
  }

  /** The supervisor has started an application, shown it and parked it again. */
  function Parked(app: AppId): World {
    var idle := Instance(Token(app, 1, 1, None), Background, None, "", "", None);
    World(State(Managed, false, None, Some(app), map[app := idle], 5),
          [Token(app, 1, 0, None), Token(app, 1, 1, Some(7)), Token(app, 1, 1, None)], None)
  }

  lemma ParkedIsReached(app: AppId) returns (events: seq<Event>)
    ensures After(app, START, events) == Parked(app)
  {
    var enter := [Operate(TransitionDomain(EnteringManaged)), Operate(TransitionDomain(Managed))];
    var show := [Operate(StartApp(app, 1, None)), Operate(GrantForeground(app, 1, 1, 7))];
    var park := [Operate(EnterBackground(app, 1, 1))];
    var managed := World(State(Managed, false, None, None, map[], 2), [], None);
    var i := Instance(Token(app, 1, 1, Some(7)), Foreground, None, "", "", None);
    var shown := World(State(Managed, false, Some(app), Some(app), map[app := i], 4),
                       [Token(app, 1, 0, None), Token(app, 1, 1, Some(7))], None);
    assert After(app, START, enter) == managed;
    assert After(app, managed, show) == shown by {
      var started := Step(app, managed, show[0]);
      assert started.history == [Token(app, 1, 0, None)] && started.supervisor.revision == 3;
      assert Step(app, started, show[1]) == shown;
      AfterTwo(app, managed, show[0], show[1]);
    }
    assert After(app, shown, park) == Parked(app);
    AfterConcat(app, START, enter, show);
    AfterConcat(app, START, enter + show, park);
    events := enter + show + park;
  }

  /** It does happen: a parked application hears of its old grant once more and believes it. */
  lemma LeaseIsRegained(app: AppId) returns (events: seq<Event>)
    ensures var w := After(app, START, events);
            && app in w.supervisor.apps && w.supervisor.apps[app].token == Token(app, 1, 1, None)
            && w.client == Some(Token(app, 1, 1, None))
            && Step(app, w, Deliver(1, false)).client == Some(Token(app, 1, 1, Some(7)))
  {
    events := ParkedIsReached(app);
    var heard := [Deliver(1, true), Deliver(2, false)];
    AfterConcat(app, START, events, heard);
    AfterTwo(app, Parked(app), heard[0], heard[1]);
    assert After(app, Parked(app), heard) == Parked(app).(client := Some(Token(app, 1, 1, None)));
    events := events + heard;
  }
}
