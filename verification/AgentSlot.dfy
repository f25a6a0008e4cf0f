/** One application's entry in the agent daemon: the turn slot, the worker and the principals, and
    the critical sections that change them under the daemon's lock. */
module AgentSlot {
  import opened Wrappers

  datatype Lane = Interactive | Speculative | Scheduled

  datatype Profile = Profile(provider: string, model: string, thinking: string, tools: bool)

  /** A turn owns one cancellation channel; channels are numbered as they are opened. */
  datatype Turn = Turn(id: string, lane: Lane, principal: string, channel: nat)

  datatype Auth = Auth(generation: nat, token: string)

  /** A worker process runs with the profile and prompt it was started with. */
  datatype Worker = Worker(profile: Profile, prompt: string)

  datatype Request = Request(id: string, profile: Profile, prompt: string, lane: Lane, principal: string)

  datatype App = App(
    profile: Option<Profile>,
    prompt: string,
    worker: Option<Worker>,
    active: Option<Turn>,
    principals: map<string, Auth>,
    channels: nat,
    signalled: set<nat>)

  const IDLE := App(None, "", None, None, map[], 0, {})

  datatype Observation = Free | Preempt(channel: nat) | Occupied

  datatype Claim = Started(turn: Turn, worker: Worker) | Retry | Busy | BackendFailed

  /** What a starting request sees: only an interactive one may preempt, and never an interactive turn. */
  function Observed(a: App, lane: Lane): Observation {
    if a.active.None? then Free
    else if lane == Interactive && a.active.value.lane != Interactive then Preempt(a.active.value.channel)
    else Occupied
  }

  /** The free slot is taken by a new turn, on a worker that fits the request; `closed` says
      that the old worker's process is gone, `spawns` that a new one could be started. */
  function Claimed(a: App, r: Request, closed: bool, spawns: bool): (App, Claim) {
    if a.active.Some? then
      (a, if r.lane == Interactive && a.active.value.lane != Interactive then Retry else Busy)
    else
      var fits := a.worker.Some? && a.profile == Some(r.profile) && a.prompt == r.prompt && !closed;
      if !fits && !spawns then (a.(worker := None), BackendFailed)
      else
        var worker := if fits then a.worker.value else Worker(r.profile, r.prompt);
        var turn := Turn(r.id, r.lane, r.principal, a.channels);
        (a.(profile := Some(r.profile), prompt := r.prompt, worker := Some(worker), active := Some(turn),
            channels := a.channels + 1),
         Started(turn, worker))
  }

  function Finished(a: App, id: string): App {
    if a.active.Some? && a.active.value.id == id then a.(active := None) else a
  }

  function Cancelled(a: App, id: string): App {
    if a.active.Some? && a.active.value.id == id then a.(signalled := a.signalled + {a.active.value.channel}) else a
  }

  function Reloaded(a: App, profile: Option<Profile>): App {
    if a.active.Some? || (profile.Some? && profile == a.profile) then a
    else a.(worker := None, profile := if profile.Some? then profile else a.profile)
  }

  function Known(a: App, principal: string): Auth {
    if principal in a.principals then a.principals[principal] else Auth(0, "")
  }

  predicate Admits(a: App, principal: string, generation: nat, token: string) {
    var known := Known(a, principal);
    || (generation == known.generation && token == known.token)
    || (generation > known.generation && !(a.active.Some? && a.active.value.principal == principal))
  }

  /** Every call leaves a record of the principal; an admitted one binds the token to the generation. */
  function Authorized(a: App, principal: string, generation: nat, token: string): App {
    var auth := if Admits(a, principal, generation, token) then Auth(generation, token) else Known(a, principal);
    a.(principals := a.principals[principal := auth])
  }

  class AgentState {
    var profile: Option<Profile>
    var prompt: string
    var worker: Option<Worker>
    var active: Option<Turn>
    var principals: map<string, Auth>
    var channels: nat
    var signalled: set<nat>

    constructor ()
      ensures Now() == IDLE
    {
      profile, prompt, worker, active, principals, channels, signalled := None, "", None, None, map[], 0, {};
    }

    function Now(): App
      reads this
    {
      App(profile, prompt, worker, active, principals, channels, signalled)
    }

    method Observe(lane: Lane) returns (seen: Observation)
      ensures seen == Observed(Now(), lane)
    {
      if active.None? {
        return Free;
      }
      if lane == Interactive && active.value.lane != Interactive {
        return Preempt(active.value.channel);
      }
      return Occupied;
    }

    method Signal(channel: nat)
      modifies this`signalled
      ensures signalled == old(signalled) + {channel}
    {
      signalled := signalled + {channel};
    }

    method TryStart(r: Request, closed: bool, spawns: bool) returns (outcome: Claim)
      modifies this
      ensures (Now(), outcome) == Claimed(old(Now()), r, closed, spawns)
    {
      if active.Some? {
        if r.lane == Interactive && active.value.lane != Interactive {
          return Retry;
        }
        return Busy;
      }
      var changed := profile != Some(r.profile) || prompt != r.prompt || (worker.Some? && closed);
      if changed {
        worker := None;
      }
      if worker.None? {
        if !spawns {
          return BackendFailed;
        }
        worker := Some(Worker(r.profile, r.prompt));
      }
      var turn := Turn(r.id, r.lane, r.principal, channels);
      channels := channels + 1;
      profile, prompt, active := Some(r.profile), r.prompt, Some(turn);
      return Started(turn, worker.value);
    }

    method Finish(id: string)
      modifies this
      ensures Now() == Finished(old(Now()), id)
    {
      if active.Some? && active.value.id == id {
        active := None;
      }
    }

    method Cancel(id: string) returns (found: bool)
      modifies this
      ensures Now() == Cancelled(old(Now()), id)
      ensures found <==> active.Some? && active.value.id == id
    {
      if active.Some? && active.value.id == id {
        Signal(active.value.channel);
        return true;
      }
      return false;
    }

    method ReloadProfile(wanted: Option<Profile>) returns (accepted: bool)
      modifies this
      ensures Now() == Reloaded(old(Now()), wanted) && (accepted <==> active.None?)
    {
      if active.Some? {
        return false;
      }
      if wanted.Some? && wanted == profile {
        return true;
      }
      worker := None;
      if wanted.Some? {
        profile := wanted;
      }
      return true;
    }

    method Authorize(principal: string, generation: nat, token: string) returns (admitted: bool)
      modifies this
      ensures Now() == Authorized(old(Now()), principal, generation, token)
      ensures admitted <==> Admits(old(Now()), principal, generation, token)
    {
      var known := Known(Now(), principal);
      principals := principals[principal := known];
      if known.generation > generation {
        return false;
      }
      if known.generation == generation {
        return known.token == token;
      }
      if active.Some? && active.value.principal == principal {
        return false;
      }
      principals := principals[principal := Auth(generation, token)];
      return true;
    }
  }
}
