/** Rollback of a package, pruning, and the no-dangling invariant over all runs. */
module PackageRollback {
  import opened Wrappers
  import opened PackageProtocol
  import opened PackageSafety

  // ----- A rollback keeps names present exactly when its target is whole -----

  lemma {:induction false} FoundHasVersion(d: Disk, listing: seq<Id>, version: string, id: Id)
    requires id in WithVersion(d, listing, version)
    ensures HasVersion(d, id, version)
    decreases |listing|
  {
    if !HasVersion(d, listing[0], version) || id != listing[0] {
      FoundHasVersion(d, listing[1..], version, id);
    }
  }

  lemma SwitchIsSound(d: Disk, version: Option<string>, w: World)
    requires Inv(d) && d.journal.None? && SwitchRun(d, version, w).outcome == Installed
    ensures AllInv(SwitchRun(d, version, w).trail) <==> Present(d, Target(d, version, w).value)
    ensures version.None? ==> Present(d, Target(d, version, w).value)
    ensures version.Some? ==> HasVersion(d, Target(d, version, w).value, version.value)
  {
    var id := Target(d, version, w).value;
    var next := RolledBack(d.now.state.value, d.releases[id].bundle);
    if version.Some? {
      FoundHasVersion(d, w.listing, version.value, id);
    }
    if Present(d, id) {
      NowIsSound(d, d.now.(manifest := next.manifest));
      NowIsSound(d, d.now.(manifest := next.manifest, link := next.link));
      NowIsSound(d, next);
    } else {
      assert !Inv(SwitchRun(d, version, w).trail[0]);
    }
  }

  /** A rollback to the recorded previous release never dangles; one to a version never does when
      every release that still answers to that version is whole. */
  predicate WholeTarget(d: Disk, version: Option<string>) {
    version.Some? ==> forall id :: id in d.releases && HasVersion(d, id, version.value) ==> d.releases[id].Whole?
  }

  lemma RollbackIsSound(d: Disk, version: Option<string>, w: World)
    requires Inv(d) && WholeTarget(Settled(d, w), version)
    ensures var run := RollbackRun(d, version, w);
            AllInv(run.trail) && Last(d, run.trail).journal.None?
  {
    RecoverIsSound(d, w);
    var settled := Settled(d, w);
    if SwitchRun(settled, version, w).outcome == Installed {
      SwitchIsSound(settled, version, w);
      if version.Some? {
        FoundHasVersion(settled, w.listing, version.value, Target(settled, version, w).value);
      }
    }
    Concat(d, RecoverSteps(d, w), SwitchRun(settled, version, w).trail);
  }

  /** A directory listing: every release once, in any order. */
  predicate Lists(listing: seq<Id>, ids: set<Id>) {
    && (forall i, j :: 0 <= i < j < |listing| ==> listing[i] != listing[j])
    && (forall i :: 0 <= i < |listing| ==> listing[i] in ids)
    && (forall id :: id in ids ==> id in listing)
  }

  /** In the listing only `id` is stale, so pruning removes that release and no other. */
  lemma {:induction false} PrunesOnly(d: Disk, keep: set<Id>, listing: seq<Id>, id: Id, w: World)
    requires forall i, j :: 0 <= i < j < |listing| ==> listing[i] != listing[j]
    requires id !in keep && forall i :: 0 <= i < |listing| ==> listing[i] == id || listing[i] in keep
    ensures PruneSteps(d, keep, listing, w) == if id in listing then RemoveSteps(d, id, w) else []
    decreases |listing|
  {
    if listing != [] {
      var here := RemoveSteps(d, id, w);
      PrunesOnly(if listing[0] == id then Last(d, here) else d, keep, listing[1..], id, w);
      assert listing == [listing[0]] + listing[1..];
    }
  }

  lemma {:induction false} AnswersOnly(d: Disk, listing: seq<Id>, version: string, id: Id)
    requires forall i, j :: 0 <= i < j < |listing| ==> listing[i] != listing[j]
    requires forall i :: 0 <= i < |listing| ==> (HasVersion(d, listing[i], version) <==> listing[i] == id)
    ensures WithVersion(d, listing, version) == if id in listing then [id] else []
  {
    if listing != [] {
      AnswersOnly(d, listing[1..], version, id);
      assert listing == [listing[0]] + listing[1..];
    }
  }

  /** The disk of a fresh install interrupted while it prunes the release `id`. */
  function TornByPruning(d: Disk, b: Bundle, id: Id): Disk
    requires id in d.releases
  {
    Disk(NewTriple(d.now, b), None, d.releases[b.id := Whole(b)][id := Torn(d.releases[id].bundle, true)])
  }

  /** The seventh durable state of the install: journal, move, three records, removal of the journal,
      and one torn state of the only release to prune. */
  lemma PruningPassesTorn(d: Disk, b: Bundle, id: Id, w: World)
    requires d.journal.None? && b.usable && b.id !in d.releases && id in d.releases
    requires id !in Keep(NewState(d.now, b)) && w.fails.None? && TearsOf(w, id) == [true]
    requires Lists(w.listing, d.releases.Keys + {b.id})
    requires forall k :: k in d.releases && k != id ==> k in Keep(NewState(d.now, b))
    ensures After(d, InstallRun(d, b, w).trail, 7) == TornByPruning(d, b, id)
  {
    var journaled := d.(journal := Some(JournalFor(d, b)));
    var committed := Disk(NewTriple(d.now, b), None, d.releases[b.id := Whole(b)]);
    var steps := PublishSteps(journaled, d.now, b, w);
    PrunesOnly(committed, Keep(NewState(d.now, b)), w.listing, id, w);
    assert TornStates(committed, id, [true])[0] == TornByPruning(d, b, id);
    assert steps[5] == TornByPruning(d, b, id);
    assert InstallRun(d, b, w).trail == [journaled] + steps;
  }

  lemma TornIsPicked(d: Disk, id: Id, w: World)
    requires d.journal.None? && d.now.state.Some? && d.now.state.value.current != id
    requires id in d.releases && d.releases[id].Torn? && d.releases[id].readable
    requires d.releases[id].bundle.usable && d.releases[id].bundle.id == id
    requires Lists(w.listing, d.releases.Keys)
    requires forall k :: k in d.releases && k != id ==> !HasVersion(d, k, d.releases[id].bundle.version)
    ensures var run := RollbackRun(d, Some(d.releases[id].bundle.version), w);
            run.outcome == Installed && Last(d, run.trail).now.link == Some(id) && Last(d, run.trail).releases == d.releases
  {
    var version := d.releases[id].bundle.version;
    AnswersOnly(d, w.listing, version, id);
    assert RollbackRun(d, Some(version), w).trail == SwitchRun(d, Some(version), w).trail;
  }

  /** An interrupted pruning leaves a release whose manifest can still be read, and a rollback to
      its version registers what is left of it: so it does after every fresh install that leaves one
      release to prune, the only one of its version. */
  lemma TornReleaseIsPicked(d: Disk, b: Bundle, id: Id, w: World)
    requires Inv(d) && d.journal.None? && b.usable && b.id !in d.releases
    requires Present(d, id) && d.releases[id].bundle.usable
    requires id !in Keep(NewState(d.now, b)) && w.fails.None? && TearsOf(w, id) == [true]
    requires Lists(w.listing, d.releases.Keys + {b.id})
    requires forall k :: k in d.releases && k != id ==>
               k in Keep(NewState(d.now, b)) && d.releases[k].bundle.version != d.releases[id].bundle.version
    requires b.version != d.releases[id].bundle.version
    ensures var s := After(d, InstallRun(d, b, w).trail, 7);
            var run := RollbackRun(s, Some(d.releases[id].bundle.version), w);
            run.outcome == Installed && Last(s, run.trail).now.link == Some(id) && !Present(Last(s, run.trail), id)
  {
    PruningPassesTorn(d, b, id, w);
    assert TornByPruning(d, b, id).releases.Keys == d.releases.Keys + {b.id};
    TornIsPicked(TornByPruning(d, b, id), id, w);
  }

  /** The same on one concrete application: releases a and b installed, c being installed, and all
      three listed. */
  lemma TornReleaseExample() returns (d: Disk, c: Bundle, w: World)
    ensures var s := After(d, InstallRun(d, c, w).trail, 7);
            var run := RollbackRun(s, Some("1"), w);
            && Inv(d) && Lists(w.listing, s.releases.Keys) && run.outcome == Installed
            && Last(s, run.trail).now.link == Some("a") && !Present(Last(s, run.trail), "a")
  {
    var a, b := Bundle("a", "p", "1", "", true), Bundle("b", "p", "2", "", true);
    c := Bundle("c", "p", "3", "", true);
    d := Disk(
      Triple(Some("b"), Some(Materialize(b)), Some(State("p", "b", Some("a"), "2"))),
      None, map["a" := Whole(a), "b" := Whole(b)]);
    w := World(None, ["a", "b", "c"], map["a" := [true]]);
    ThreeListed(d, a, b, c, w);
    TornReleaseIsPicked(d, c, "a", w);
    PruningPassesTorn(d, c, "a", w);
  }

  lemma ThreeListed(d: Disk, a: Bundle, b: Bundle, c: Bundle, w: World)
    requires a.id == "a" && b.id == "b" && c.id == "c" && w.listing == ["a", "b", "c"]
    requires d.releases == map["a" := Whole(a), "b" := Whole(b)]
    ensures d.releases.Keys + {c.id} == {"a", "b", "c"} && Lists(w.listing, d.releases.Keys + {c.id})
  {
    assert w.listing[0] == "a" && w.listing[1] == "b" && w.listing[2] == "c";
  }

  // ----- Coherent registrations and the rollback round trip -----

  /** Link, manifest and state record all speak of one whole release and of its version. */
  predicate Coherent(d: Disk) {
    && d.journal.None? && d.now.state.Some?
    && var s := d.now.state.value;
       && Present(d, s.current)
       && var b := d.releases[s.current].bundle;
          b.usable && s.version == b.version && d.now.link == Some(b.id) && d.now.manifest == Some(Materialize(b))
  }

  /** No installed release shares the bundle's content id without being that bundle. */
  predicate ContentAddressed(d: Disk, b: Bundle) {
    Present(d, b.id) ==> d.releases[b.id].bundle == b
  }

  lemma DecisionIsCoherent(d: Disk, b: Bundle, w: World)
    requires Inv(d) && d.journal.None? && ContentAddressed(d, b) && DecideRun(d, b, w).outcome == Installed
    ensures var end := Last(d, DecideRun(d, b, w).trail);
            && Inv(end) && Coherent(end) && end.now.state.value.current == b.id && end.releases[b.id] == Whole(b)
            && (!IsCurrent(d.now, b) ==>
                  && end.now.state == Some(NewState(d.now, b))
                  && end.releases == Pruned(d.releases[b.id := Whole(b)], Keep(NewState(d.now, b)), w.listing)
                  && ((forall id :: id in d.releases || id == b.id ==> id in w.listing) ==>
                        end.releases.Keys == Keep(end.now.state.value)))
  {
    InstallIsSound(d, b, w);
    assert InstallRun(d, b, w).trail == DecideRun(d, b, w).trail;
    if !IsCurrent(d.now, b) {
      TransactionIsSound(d, b, w);
      MovedIsSound(d, b);
    }
  }

  /** A completed install is coherent, also one that first recovers from an earlier one.  Unless it
      refreshed the current release it records the one before it, which is the release recovery went
      back to, as previous, and keeps of the listed releases exactly these two. */
  lemma InstallIsCoherent(d: Disk, b: Bundle, w: World)
    requires Inv(d) && ContentAddressed(Settled(d, w), b) && InstallRun(d, b, w).outcome == Installed
    ensures var end, before, releases := Last(d, InstallRun(d, b, w).trail), Resolve(d), Settled(d, w).releases;
            && Inv(end) && Coherent(end) && end.now.state.value.current == b.id && end.releases[b.id] == Whole(b)
            && (!IsCurrent(before, b) ==>
                  && end.now.state == Some(NewState(before, b))
                  && end.releases == Pruned(releases[b.id := Whole(b)], Keep(NewState(before, b)), w.listing)
                  && ((forall id :: id in releases || id == b.id ==> id in w.listing) ==>
                        end.releases.Keys == Keep(end.now.state.value)))
  {
    RecoverIsSound(d, w);
    SettledInv(d, w);
    var settled := Settled(d, w);
    DecisionIsCoherent(settled, b, w);
    LastOfBoth(d, RecoverSteps(d, w), DecideRun(settled, b, w).trail);
  }

  lemma SettledInv(d: Disk, w: World)
    requires Inv(d)
    ensures Inv(Settled(d, w))
  {
    RecoverIsSound(d, w);
  }

  lemma LastOfBoth(d: Disk, first: seq<Disk>, second: seq<Disk>)
    ensures Last(d, first + second) == Last(Last(d, first), second)
  {
  }

  /** One rollback from a coherent registration swaps current and previous. */
  lemma RollbackSwaps(d: Disk, w: World)
    requires Inv(d) && Coherent(d) && d.now.state.value.previous.Some?
    requires d.releases[d.now.state.value.previous.value].bundle.usable
    ensures var run := RollbackRun(d, None, w);
            var end := Last(d, run.trail);
            var s := d.now.state.value;
            && run.outcome == Installed && Inv(end) && Coherent(end) && end.releases == d.releases
            && end.now.state.value.current == s.previous.value
            && end.now.state.value.previous == Some(s.current)
            && end.now.state.value.package == s.package
  {
    RollbackIsSound(d, None, w);
    assert RollbackRun(d, None, w).trail == SwitchRun(d, None, w).trail;
  }

  /** Two rollbacks give back link, manifest, state record and releases exactly. */
  lemma RollbackTwiceIsIdentity(d: Disk, w1: World, w2: World)
    requires Inv(d) && Coherent(d) && d.now.state.value.previous.Some?
    requires d.releases[d.now.state.value.previous.value].bundle.usable
    ensures var once := Last(d, RollbackRun(d, None, w1).trail);
            Last(once, RollbackRun(once, None, w2).trail) == d
  {
    RollbackSwaps(d, w1);
    var once := Last(d, RollbackRun(d, None, w1).trail);
    RollbackSwaps(once, w2);
    assert d.releases[d.now.state.value.current].bundle.id == d.now.state.value.current;
  }

  /** After installing A and then B, one rollback runs A again, with B to go back to. */
  lemma InstallTwiceThenRollback(d: Disk, a: Bundle, b: Bundle, w1: World, w2: World, w3: World)
    requires Inv(d) && ContentAddressed(Settled(d, w1), a) && a.id != b.id
    requires InstallRun(d, a, w1).outcome == Installed
    requires var one := Last(d, InstallRun(d, a, w1).trail);
             ContentAddressed(one, b) && InstallRun(one, b, w2).outcome == Installed
    ensures var one := Last(d, InstallRun(d, a, w1).trail);
            var two := Last(one, InstallRun(one, b, w2).trail);
            var back := Last(two, RollbackRun(two, None, w3).trail);
            && RollbackRun(two, None, w3).outcome == Installed && Coherent(back)
            && back.now.link == Some(a.id) && back.now.manifest == Some(Materialize(a))
            && back.now.state.value.current == a.id && back.now.state.value.previous == Some(b.id)
            && back.now.state.value.version == a.version
  {
    var one := Last(d, InstallRun(d, a, w1).trail);
    InstallIsCoherent(d, a, w1);
    var two := Last(one, InstallRun(one, b, w2).trail);
    InstallIsCoherent(one, b, w2);
    assert two.releases[a.id] == Whole(a);
    RollbackSwaps(two, w3);
  }

  // ----- All runs -----

  datatype Event =
    | Install(bundle: Bundle, world: World, stop: nat)
    | Rollback(version: Option<string>, world: World, stop: nat)
    | Recover(world: World, stop: nat)

  function Trail(d: Disk, e: Event): seq<Disk> {
    match e
    case Install(b, w, _) => InstallRun(d, b, w).trail
    case Rollback(version, w, _) => RollbackRun(d, version, w).trail
    case Recover(w, _) => RecoverSteps(d, w)
  }

  function RunEvents(d: Disk, events: seq<Event>): Disk
    decreases |events|
  {
    if events == [] then d else RunEvents(After(d, Trail(d, events[0]), events[0].stop), events[1..])
  }

  predicate WholeTargets(d: Disk, events: seq<Event>)
    decreases |events|
  {
    events == []
    || ((events[0].Rollback? ==> WholeTarget(Settled(d, events[0].world), events[0].version))
        && WholeTargets(After(d, Trail(d, events[0]), events[0].stop), events[1..]))
  }

  /** Over every run of installs, rollbacks and recoveries from a sound disk, each stopped after
      any number of durable steps, link, manifest, state record and whatever recovery would put
      back all name whole releases. */
  lemma {:induction false} RunsNeverDangle(d: Disk, events: seq<Event>)
    requires Inv(d) && WholeTargets(d, events)
    ensures Inv(RunEvents(d, events))
    decreases |events|
  {
    if events != [] {
      match events[0] {
        case Install(b, w, _) => InstallIsSound(d, b, w);
        case Rollback(version, w, _) => RollbackIsSound(d, version, w);
        case Recover(w, _) => RecoverIsSound(d, w);
      }
      RunsNeverDangle(After(d, Trail(d, events[0]), events[0].stop), events[1..]);
    }
  }

  const CLEAN := Disk(Triple(None, None, None), None, map[])

  lemma CleanRunsNeverDangle(events: seq<Event>)
    requires WholeTargets(CLEAN, events)
    ensures Inv(RunEvents(CLEAN, events))
  {
    RunsNeverDangle(CLEAN, events);
  }

  /** A rollback stopped between its records leaves link and state record disagreeing: the one way,
      for a coherent registration, to make the next interrupted install inexact. */
  lemma RollbackAgreesExactly(d: Disk, w: World, stop: nat)
    requires Inv(d) && Coherent(d) && RollbackRun(d, None, w).outcome == Installed
    ensures Agrees(After(d, RollbackRun(d, None, w).trail, stop).now) <==> stop != 2
  {
    assert RollbackRun(d, None, w).trail == SwitchRun(d, None, w).trail;
  }
}
