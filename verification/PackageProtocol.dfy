/** What remagic-package keeps on disk for one application, and its install, recovery and rollback
    as sequences of durable states. */
module PackageProtocol {
  import opened Wrappers

  /** A content id: the hash of the canonical bundle stream. */
  type Id = string

  /** A prepared bundle; `usable` tells whether its manifest can be bound to its release path and
      fits the device. */
  datatype Bundle = Bundle(id: Id, package: string, version: string, text: string, usable: bool)

  /** A registered manifest: the bundled text bound to the release it names. */
  datatype Manifest = Manifest(text: string, release: Id)

  /** A release directory, or what an interrupted removal left of it. */
  datatype Release = Whole(bundle: Bundle) | Torn(bundle: Bundle, readable: bool)

  datatype State = State(package: string, current: Id, previous: Option<Id>, version: string)

  /** What is registered for the application: link, manifest and state record. */
  datatype Triple = Triple(link: Option<Id>, manifest: Option<Manifest>, state: Option<State>)

  datatype Journal = Journal(target: Id, preexisted: bool, before: Triple)

  datatype Disk = Disk(now: Triple, journal: Option<Journal>, releases: map<Id, Release>)

  /** The outside world of one call: after how many durable steps publishing meets an input/output
      error (None: never), the order directories are listed in, and how tree removals progress. */
  datatype World = World(fails: Option<nat>, listing: seq<Id>, tears: map<Id, seq<bool>>)

  datatype Outcome = Installed | Refused | Failed

  datatype Run = Run(trail: seq<Disk>, outcome: Outcome)

  function Last<T>(first: T, trail: seq<T>): T {
    if trail == [] then first else trail[|trail| - 1]
  }

  function After(d: Disk, trail: seq<Disk>, stop: nat): Disk {
    if stop < |trail| then Last(d, trail[..stop]) else Last(d, trail)
  }

  function Materialize(b: Bundle): Manifest {
    Manifest(b.text, b.id)
  }

  // ----- Removing release trees -----

  function TearsOf(w: World, id: Id): seq<bool> {
    if id in w.tears then w.tears[id] else []
  }

  function TornStates(d: Disk, id: Id, tears: seq<bool>): seq<Disk>
    requires id in d.releases
  {
    seq(|tears|, i requires 0 <= i < |tears| =>
      d.(releases := d.releases[id := Torn(d.releases[id].bundle, tears[i])]))
  }

  function RemoveSteps(d: Disk, id: Id, w: World): seq<Disk> {
    if id !in d.releases then []
    else TornStates(d, id, TearsOf(w, id)) + [d.(releases := d.releases - {id})]
  }

  /** Remove every listed release that `keep` does not name. */
  function PruneSteps(d: Disk, keep: set<Id>, listing: seq<Id>, w: World): seq<Disk>
    decreases |listing|
  {
    if listing == [] then []
    else if listing[0] in keep then PruneSteps(d, keep, listing[1..], w)
    else
      var here := RemoveSteps(d, listing[0], w);
      here + PruneSteps(Last(d, here), keep, listing[1..], w)
  }

  // ----- Recovery -----

  /** Link, manifest, state record: the registration of a journal, put back. */
  function RecordSteps(d: Disk, before: Triple): seq<Disk> {
    var linked := d.(now := d.now.(link := before.link));
    var registered := linked.(now := linked.now.(manifest := before.manifest));
    [linked, registered, registered.(now := before)]
  }

  function RecoverSteps(d: Disk, w: World): seq<Disk> {
    if d.journal.None? then []
    else
      var j := d.journal.value;
      var recorded := d.(now := j.before);
      var removed := if j.preexisted then [] else RemoveSteps(recorded, j.target, w);
      RecordSteps(d, j.before) + removed + [Last(recorded, removed).(journal := None)]
  }

  // ----- Install -----

  /** The content id recovery would link: the state record's, and the link's own without one. */
  function PreviousId(t: Triple): Option<Id> {
    if t.state.Some? then Some(t.state.value.current) else t.link
  }

  function JournalFor(d: Disk, b: Bundle): Journal {
    Journal(b.id, b.id in d.releases, d.now.(link := PreviousId(d.now)))
  }

  function NewState(t: Triple, b: Bundle): State {
    State(b.package, b.id, if PreviousId(t) == Some(b.id) then None else PreviousId(t), b.version)
  }

  function NewTriple(t: Triple, b: Bundle): Triple {
    Triple(Some(b.id), Some(Materialize(b)), Some(NewState(t, b)))
  }

  function Keep(s: State): set<Id> {
    {s.current} + if s.previous.Some? then {s.previous.value} else {}
  }

  /** Publish a registration: manifest, link, state record. */
  function RegisterSteps(d: Disk, next: Triple): seq<Disk> {
    var registered := d.(now := d.now.(manifest := next.manifest));
    var linked := registered.(now := registered.now.(link := next.link));
    [registered, linked, linked.(now := linked.now.(state := next.state))]
  }

  /** From the written journal on: move the release in if it is new, publish the manifest, switch
      the link, write the state, remove the journal, prune. */
  function PublishSteps(d: Disk, t: Triple, b: Bundle, w: World): seq<Disk> {
    var moved := if b.id in d.releases then d else d.(releases := d.releases[b.id := Whole(b)]);
    var registered := RegisterSteps(moved, NewTriple(t, b));
    var committed := Last(moved, registered).(journal := None);
    (if b.id in d.releases then [] else [moved])
    + registered + [committed]
    + PruneSteps(committed, Keep(NewState(t, b)), w.listing, w)
  }

  /** Write the journal and publish; an error on the way hands over to recovery at once. */
  function TransactionRun(d: Disk, b: Bundle, w: World): Run {
    var journaled := d.(journal := Some(JournalFor(d, b)));
    if !b.usable then Run([journaled] + RecoverSteps(journaled, w), Failed)
    else
      var steps := PublishSteps(journaled, d.now, b, w);
      if w.fails.Some? && w.fails.value < |steps| then
        var done := steps[..w.fails.value];
        Run([journaled] + done + RecoverSteps(Last(journaled, done), w), Failed)
      else Run([journaled] + steps, Installed)
  }

  predicate IsCurrent(t: Triple, b: Bundle) {
    && t.state.Some? && t.link == Some(b.id)
    && t.state.value.current == b.id && t.state.value.version == b.version && t.state.value.package == b.package
  }

  function DecideRun(d: Disk, b: Bundle, w: World): Run {
    if b.id !in d.releases then TransactionRun(d, b, w)
    else if d.now.state.None? then Run([], Refused)
    else if IsCurrent(d.now, b) then
      if b.usable then Run([d.(now := d.now.(manifest := Some(Materialize(b))))], Installed) else Run([], Refused)
    else if d.releases[b.id] != Whole(b) then Run([], Refused)
    else TransactionRun(d, b, w)
  }

  function InstallRun(d: Disk, b: Bundle, w: World): Run {
    var recover := RecoverSteps(d, w);
    var decide := DecideRun(Last(d, recover), b, w);
    Run(recover + decide.trail, decide.outcome)
  }

  // ----- Rollback -----

  predicate HasVersion(d: Disk, id: Id, version: string) {
    id in d.releases && (d.releases[id].Torn? ==> d.releases[id].readable) && d.releases[id].bundle.version == version
  }

  function WithVersion(d: Disk, listing: seq<Id>, version: string): seq<Id> {
    if listing == [] then []
    else (if HasVersion(d, listing[0], version) then [listing[0]] else []) + WithVersion(d, listing[1..], version)
  }

  /** The release a rollback goes to: the recorded previous one, or the only one of a version. */
  function Target(d: Disk, version: Option<string>, w: World): Option<Id> {
    if d.now.state.None? then None
    else match version {
      case None => d.now.state.value.previous
      case Some(v) =>
        var found := WithVersion(d, w.listing, v);
        if |found| == 1 then Some(found[0]) else None
    }
  }

  function RolledBack(s: State, b: Bundle): Triple {
    Triple(Some(b.id), Some(Materialize(b)), Some(State(s.package, b.id, Some(s.current), b.version)))
  }

  function SwitchRun(d: Disk, version: Option<string>, w: World): Run {
    var target := Target(d, version, w);
    if target.None? || target.value !in d.releases || target.value == d.now.state.value.current then Run([], Refused)
    else
      var release := d.releases[target.value];
      if (release.Torn? && !release.readable) || !release.bundle.usable then Run([], Refused)
      else
        Run(RegisterSteps(d, RolledBack(d.now.state.value, release.bundle)), Installed)
  }

  /** A rollback has no journal of its own. */
  function RollbackRun(d: Disk, version: Option<string>, w: World): Run {
    var recover := RecoverSteps(d, w);
    var switch := SwitchRun(Last(d, recover), version, w);
    Run(recover + switch.trail, switch.outcome)
  }
}
