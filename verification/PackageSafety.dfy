/** Safety of package installation over all runs of interrupted installs, recoveries and rollbacks. */
module PackageSafety {
  import opened Wrappers
  import opened PackageProtocol

  predicate Present(d: Disk, id: Id) {
    id in d.releases && d.releases[id].Whole?
  }

  /** Everything a registration names is a whole release. */
  predicate Names(d: Disk, t: Triple) {
    && (t.link.Some? ==> Present(d, t.link.value))
    && (t.manifest.Some? ==> Present(d, t.manifest.value.release))
    && (t.state.Some? ==>
          && Present(d, t.state.value.current)
          && (t.state.value.previous.Some? ==>
                Present(d, t.state.value.previous.value) && t.state.value.previous.value != t.state.value.current))
  }

  predicate Mentions(t: Triple, id: Id) {
    || t.link == Some(id)
    || (t.manifest.Some? && t.manifest.value.release == id)
    || (t.state.Some? && id in Keep(t.state.value))
  }

  /** Nothing dangles: not now, and not after recovery. */
  predicate Inv(d: Disk) {
    && (forall id :: id in d.releases ==> d.releases[id].bundle.id == id)
    && Names(d, d.now)
    && (d.journal.Some? ==>
          var j := d.journal.value;
          && Names(d, j.before)
          && (if j.preexisted then Present(d, j.target) else !Mentions(j.before, j.target)))
  }

  predicate AllInv(trail: seq<Disk>) {
    forall k :: 0 <= k < |trail| ==> Inv(trail[k])
  }

  /** What the disk stands for: the registration recovery would leave. */
  function Resolve(d: Disk): Triple {
    if d.journal.Some? then d.journal.value.before else d.now
  }

  lemma Concat(d: Disk, first: seq<Disk>, second: seq<Disk>)
    requires AllInv(first) && AllInv(second)
    ensures AllInv(first + second) && Last(d, first + second) == Last(Last(d, first), second)
  {
  }

  // ----- Removal and pruning -----

  /** A removal may lose power over what is left of a release, its manifest readable or not. */
  lemma RemovalMayStopInside(d: Disk, id: Id, readable: bool, w: World)
    requires id in d.releases && TearsOf(w, id) == [readable]
    ensures d.(releases := d.releases[id := Torn(d.releases[id].bundle, readable)]) in RemoveSteps(d, id, w)
    ensures d.(releases := d.releases - {id}) in RemoveSteps(d, id, w)
  {
    var steps := RemoveSteps(d, id, w);
    assert steps[0] in steps && steps[1] in steps;
  }

  /** Nothing needs the release: neither the registration nor the journal's. */
  predicate Spareable(d: Disk, id: Id) {
    && !Mentions(d.now, id)
    && (d.journal.Some? ==>
          !Mentions(d.journal.value.before, id) && (d.journal.value.preexisted ==> d.journal.value.target != id))
  }

  lemma NamesWithout(d: Disk, t: Triple, releases: map<Id, Release>, id: Id)
    requires Names(d, t) && !Mentions(t, id)
    requires forall k :: k in d.releases && k != id ==> k in releases && releases[k] == d.releases[k]
    ensures Names(d.(releases := releases), t)
  {
  }

  /** Whatever becomes of a release that nothing needs, the rest stands. */
  lemma SpareableMayChange(d: Disk, id: Id, releases: map<Id, Release>)
    requires Inv(d) && Spareable(d, id)
    requires forall k :: k in releases ==> k in d.releases && releases[k].bundle == d.releases[k].bundle
    requires forall k :: k in d.releases && k != id ==> k in releases && releases[k] == d.releases[k]
    ensures Inv(d.(releases := releases))
  {
    NamesWithout(d, d.now, releases, id);
    if d.journal.Some? {
      NamesWithout(d, d.journal.value.before, releases, id);
    }
  }

  lemma RemoveIsSound(d: Disk, id: Id, w: World)
    requires Inv(d) && Spareable(d, id)
    ensures AllInv(RemoveSteps(d, id, w))
    ensures Last(d, RemoveSteps(d, id, w)) == d.(releases := d.releases - {id})
  {
    if id in d.releases {
      SpareableMayChange(d, id, d.releases - {id});
      var torn := TornStates(d, id, TearsOf(w, id));
      forall k | 0 <= k < |torn|
        ensures Inv(torn[k])
      {
        SpareableMayChange(d, id, torn[k].releases);
      }
    } else {
      assert d.releases - {id} == d.releases;
    }
  }

  function Pruned(releases: map<Id, Release>, keep: set<Id>, listing: seq<Id>): map<Id, Release> {
    map id | id in releases && (id in keep || id !in listing) :: releases[id]
  }

  lemma PrunedNext(releases: map<Id, Release>, keep: set<Id>, listing: seq<Id>)
    requires listing != []
    ensures Pruned(releases, keep, listing) ==
            Pruned(if listing[0] in keep then releases else releases - {listing[0]}, keep, listing[1..])
  {
    assert forall id :: id in listing <==> id == listing[0] || id in listing[1..];
  }

  predicate PrunesTo(d: Disk, steps: seq<Disk>, releases: map<Id, Release>) {
    && AllInv(steps)
    && (forall k :: 0 <= k < |steps| ==> steps[k].journal.None? && steps[k].now == d.now)
    && Last(d, steps) == d.(releases := releases)
  }

  lemma PrunesThen(d: Disk, first: seq<Disk>, middle: map<Id, Release>, second: seq<Disk>, releases: map<Id, Release>)
    requires PrunesTo(d, first, middle) && PrunesTo(d.(releases := middle), second, releases)
    ensures PrunesTo(d, first + second, releases)
  {
    Concat(d, first, second);
  }

  lemma RemovalPrunes(d: Disk, id: Id, w: World)
    requires Inv(d) && d.journal.None? && !Mentions(d.now, id)
    ensures PrunesTo(d, RemoveSteps(d, id, w), d.releases - {id})
  {
    RemoveIsSound(d, id, w);
  }

  lemma {:induction false} PruneIsSound(d: Disk, keep: set<Id>, listing: seq<Id>, w: World)
    requires Inv(d) && d.journal.None?
    requires forall id :: id !in keep ==> !Mentions(d.now, id)
    ensures PrunesTo(d, PruneSteps(d, keep, listing, w), Pruned(d.releases, keep, listing))
    decreases |listing|
  {
    if listing == [] {
      assert Pruned(d.releases, keep, listing) == d.releases;
    } else {
      PrunedNext(d.releases, keep, listing);
      if listing[0] in keep {
        PruneIsSound(d, keep, listing[1..], w);
      } else {
        var id, left := listing[0], d.releases - {listing[0]};
        RemovalPrunes(d, id, w);
        SpareableMayChange(d, id, left);
        PruneIsSound(d.(releases := left), keep, listing[1..], w);
        PrunesThen(d, RemoveSteps(d, id, w), left, PruneSteps(d.(releases := left), keep, listing[1..], w),
                   Pruned(d.releases, keep, listing));
      }
    }
  }

  // ----- Recovery -----

  lemma NowIsSound(d: Disk, t: Triple)
    requires Inv(d) && Names(d, t)
    ensures Inv(d.(now := t))
  {
  }

  /** The three records are put back one by one; in between, old and new names are all present. */
  lemma RecordsAreSound(d: Disk)
    requires Inv(d) && d.journal.Some?
    ensures var before := d.journal.value.before;
            && Inv(d.(now := d.now.(link := before.link)))
            && Inv(d.(now := d.now.(link := before.link, manifest := before.manifest)))
            && Inv(d.(now := before))
  {
    var before := d.journal.value.before;
    NowIsSound(d, d.now.(link := before.link));
    NowIsSound(d, d.now.(link := before.link, manifest := before.manifest));
    NowIsSound(d, before);
  }

  /** The target of a fresh install goes last, when nothing names it any more. */
  lemma TargetGoesLast(d: Disk, w: World)
    requires Inv(d) && d.journal.Some? && d.now == d.journal.value.before
    ensures var j := d.journal.value;
            var removed := if j.preexisted then [] else RemoveSteps(d, j.target, w);
            && AllInv(removed)
            && (forall k :: 0 <= k < |removed| ==> removed[k].journal == d.journal)
            && Last(d, removed) == (if j.preexisted then d else d.(releases := d.releases - {j.target}))
            && Inv(Last(d, removed).(journal := None))
  {
    var j := d.journal.value;
    if !j.preexisted {
      RemoveIsSound(d, j.target, w);
    }
  }

  lemma RecoverIsSound(d: Disk, w: World)
    requires Inv(d)
    ensures var steps := RecoverSteps(d, w);
            && AllInv(steps)
            && (forall k :: 0 <= k < |steps| ==> Resolve(steps[k]) == Resolve(d))
            && Last(d, steps).journal.None?
            && Last(d, steps).now == Resolve(d)
            && Last(d, steps).releases
               == if d.journal.Some? && !d.journal.value.preexisted then d.releases - {d.journal.value.target} else d.releases
  {
    if d.journal.Some? {
      RecoverRecords(d, w);
    }
  }

  lemma RecoverRecords(d: Disk, w: World)
    requires Inv(d) && d.journal.Some?
    ensures var j, steps := d.journal.value, RecoverSteps(d, w);
            && AllInv(steps)
            && (forall k :: 0 <= k < |steps| ==> Resolve(steps[k]) == j.before)
            && steps != []
            && steps[|steps| - 1] == Disk(j.before, None, if j.preexisted then d.releases else d.releases - {j.target})
  {
    var before := d.journal.value.before;
    var recorded := d.(now := before);
    var linked := d.(now := d.now.(link := before.link));
    var registered := d.(now := d.now.(link := before.link, manifest := before.manifest));
    var removed := if d.journal.value.preexisted then [] else RemoveSteps(recorded, d.journal.value.target, w);
    RecordsAreSound(d);
    TargetGoesLast(recorded, w);
    assert RecoverSteps(d, w) == ([linked, registered, recorded] + removed) + [Last(recorded, removed).(journal := None)];
  }

  // ----- Install -----

  /** The disk right after the journal of an install is written. */
  predicate Journaled(d: Disk, b: Bundle) {
    d.journal.None? && (b.id in d.releases ==> d.releases[b.id] == Whole(b))
  }

  lemma JournalIsSound(d: Disk, b: Bundle)
    requires Inv(d) && Journaled(d, b)
    ensures Inv(d.(journal := Some(JournalFor(d, b))))
  {
  }

  lemma MovedIsSound(d: Disk, b: Bundle)
    requires Inv(d) && Journaled(d, b)
    ensures var moved := Disk(d.now, Some(JournalFor(d, b)), d.releases[b.id := Whole(b)]);
            && Inv(moved) && Names(moved, NewTriple(d.now, b))
            && Inv(moved.(now := NewTriple(d.now, b), journal := None))
  {
  }

  /** The steps between the journal and its removal. */
  predicate Undoable(steps: seq<Disk>, journal: Option<Journal>) {
    AllInv(steps) && forall k :: 0 <= k < |steps| ==> steps[k].journal == journal
  }

  lemma RegisterIsSound(moved: Disk, next: Triple)
    requires Inv(moved) && Names(moved, next)
    ensures Undoable(RegisterSteps(moved, next), moved.journal)
    ensures Last(moved, RegisterSteps(moved, next)) == moved.(now := next)
  {
    NowIsSound(moved, moved.now.(manifest := next.manifest));
    NowIsSound(moved, moved.now.(manifest := next.manifest, link := next.link));
    NowIsSound(moved, next);
  }

  lemma KeptAreNamed(t: Triple, b: Bundle, id: Id)
    requires id !in Keep(NewState(t, b))
    ensures !Mentions(NewTriple(t, b), id)
  {
  }

  /** The steps of a publication, in three parts: the move, the records, and what follows the
      removal of the journal. */
  lemma PublishUnfolds(d: Disk, b: Bundle, w: World)
    requires Journaled(d, b)
    ensures var journaled := d.(journal := Some(JournalFor(d, b)));
            var next := NewTriple(d.now, b);
            var moved := Disk(d.now, Some(JournalFor(d, b)), d.releases[b.id := Whole(b)]);
            var committed := moved.(now := next, journal := None);
            PublishSteps(journaled, d.now, b, w) ==
            ((if b.id in d.releases then [] else [moved]) + RegisterSteps(moved, next))
            + ([committed] + PruneSteps(committed, Keep(NewState(d.now, b)), w.listing, w))
  {
    assert b.id in d.releases ==> d.releases[b.id := Whole(b)] == d.releases;
  }

  /** Up to the removal of the journal, publishing can be undone; from then on it stands. */
  lemma PublishIsSound(d: Disk, b: Bundle, w: World)
    requires Inv(d) && Journaled(d, b)
    ensures var journaled := d.(journal := Some(JournalFor(d, b)));
            var steps := PublishSteps(journaled, d.now, b, w);
            && AllInv(steps)
            && (forall k :: 0 <= k < |steps| ==>
                  if steps[k].journal.Some? then steps[k].journal == journaled.journal
                  else steps[k].now == NewTriple(d.now, b))
            && Last(journaled, steps).journal.None?
            && Last(journaled, steps).now == NewTriple(d.now, b)
            && Last(journaled, steps).releases == Pruned(d.releases[b.id := Whole(b)], Keep(NewState(d.now, b)), w.listing)
  {
    var journaled := d.(journal := Some(JournalFor(d, b)));
    var next := NewTriple(d.now, b);
    var moved := Disk(d.now, Some(JournalFor(d, b)), d.releases[b.id := Whole(b)]);
    var committed := moved.(now := next, journal := None);
    MovedIsSound(d, b);
    RegisterIsSound(moved, next);
    forall id | id !in Keep(NewState(d.now, b))
      ensures !Mentions(next, id)
    {
      KeptAreNamed(d.now, b, id);
    }
    PruneIsSound(committed, Keep(NewState(d.now, b)), w.listing, w);
    PublishUnfolds(d, b, w);
    var records := (if b.id in d.releases then [] else [moved]) + RegisterSteps(moved, next);
    var pruned := PruneSteps(committed, Keep(NewState(d.now, b)), w.listing, w);
    assert Undoable(records, journaled.journal);
    Concat(journaled, records, [committed] + pruned);
  }

  /** What recovery puts back: the registration as it was, with the link of the state record. */
  function Before(t: Triple): Triple {
    t.(link := PreviousId(t))
  }

  /** The registration an install leaves: of the installed release only the manifest is refreshed. */
  function NewRegistration(t: Triple, b: Bundle): Triple {
    if IsCurrent(t, b) then t.(manifest := Some(Materialize(b))) else NewTriple(t, b)
  }

  /** Every state stands for one of these registrations. */
  predicate StandsFor(trail: seq<Disk>, t: Triple, b: Bundle) {
    forall k :: 0 <= k < |trail| ==> Resolve(trail[k]) in {t, Before(t), NewRegistration(t, b)}
  }

  lemma FailedPublishIsUndone(d: Disk, b: Bundle, w: World, n: nat)
    requires Inv(d) && Journaled(d, b) && !IsCurrent(d.now, b)
    requires n < |PublishSteps(d.(journal := Some(JournalFor(d, b))), d.now, b, w)|
    ensures var journaled := d.(journal := Some(JournalFor(d, b)));
            var done := PublishSteps(journaled, d.now, b, w)[..n];
            var undo := RecoverSteps(Last(journaled, done), w);
            && AllInv(done + undo) && StandsFor(done + undo, d.now, b)
            && Last(journaled, done + undo).journal.None?
            && Last(journaled, done + undo).now in {Before(d.now), NewTriple(d.now, b)}
  {
    var journaled := d.(journal := Some(JournalFor(d, b)));
    JournalIsSound(d, b);
    PublishIsSound(d, b, w);
    var done := PublishSteps(journaled, d.now, b, w)[..n];
    var s := Last(journaled, done);
    assert Inv(s) && Resolve(s) in {Before(d.now), NewTriple(d.now, b)};
    RecoverIsSound(s, w);
    Concat(journaled, done, RecoverSteps(s, w));
  }

  lemma StandsForConcat(a: seq<Disk>, b: seq<Disk>, t: Triple, bundle: Bundle)
    requires StandsFor(a, t, bundle) && StandsFor(b, t, bundle)
    ensures StandsFor(a + b, t, bundle)
  {
  }

  lemma FollowsJournal(d: Disk, b: Bundle, rest: seq<Disk>)
    requires Inv(d) && Journaled(d, b) && AllInv(rest) && StandsFor(rest, d.now, b)
    ensures var journaled := d.(journal := Some(JournalFor(d, b)));
            && AllInv([journaled] + rest) && StandsFor([journaled] + rest, d.now, b)
            && Last(d, [journaled] + rest) == Last(journaled, rest)
  {
    var journaled := d.(journal := Some(JournalFor(d, b)));
    JournalIsSound(d, b);
    Concat(d, [journaled], rest);
    StandsForConcat([journaled], rest, d.now, b);
  }

  /** How a transaction goes on after its journal is written. */
  function AfterJournal(d: Disk, b: Bundle, w: World): seq<Disk> {
    var journaled := d.(journal := Some(JournalFor(d, b)));
    var steps := PublishSteps(journaled, d.now, b, w);
    if !b.usable then RecoverSteps(journaled, w)
    else if w.fails.Some? && w.fails.value < |steps| then
      steps[..w.fails.value] + RecoverSteps(Last(journaled, steps[..w.fails.value]), w)
    else steps
  }

  lemma TransactionUnfolds(d: Disk, b: Bundle, w: World)
    ensures TransactionRun(d, b, w).trail == [d.(journal := Some(JournalFor(d, b)))] + AfterJournal(d, b, w)
    ensures TransactionRun(d, b, w).outcome == Installed ==>
              AfterJournal(d, b, w) == PublishSteps(d.(journal := Some(JournalFor(d, b))), d.now, b, w)
  {
  }

  lemma AfterJournalIsSound(d: Disk, b: Bundle, w: World)
    requires Inv(d) && Journaled(d, b) && !IsCurrent(d.now, b)
    ensures AllInv(AfterJournal(d, b, w)) && StandsFor(AfterJournal(d, b, w), d.now, b)
    ensures Last(d.(journal := Some(JournalFor(d, b))), AfterJournal(d, b, w)).journal.None?
  {
    var journaled := d.(journal := Some(JournalFor(d, b)));
    JournalIsSound(d, b);
    if !b.usable {
      RecoverIsSound(journaled, w);
    } else if w.fails.Some? && w.fails.value < |PublishSteps(journaled, d.now, b, w)| {
      FailedPublishIsUndone(d, b, w, w.fails.value);
    } else {
      PublishIsSound(d, b, w);
    }
  }

  lemma TransactionIsSound(d: Disk, b: Bundle, w: World)
    requires Inv(d) && Journaled(d, b) && !IsCurrent(d.now, b)
    ensures var run := TransactionRun(d, b, w);
            && AllInv(run.trail) && StandsFor(run.trail, d.now, b)
            && Last(d, run.trail).journal.None?
            && (run.outcome == Installed ==>
                  && Last(d, run.trail).now == NewTriple(d.now, b)
                  && Last(d, run.trail).releases
                     == Pruned(d.releases[b.id := Whole(b)], Keep(NewState(d.now, b)), w.listing))
  {
    TransactionUnfolds(d, b, w);
    AfterJournalIsSound(d, b, w);
    FollowsJournal(d, b, AfterJournal(d, b, w));
    if TransactionRun(d, b, w).outcome == Installed {
      PublishIsSound(d, b, w);
    }
  }

  lemma DecideIsSound(d: Disk, b: Bundle, w: World)
    requires Inv(d) && d.journal.None?
    ensures var run := DecideRun(d, b, w);
            && AllInv(run.trail) && StandsFor(run.trail, d.now, b)
            && Last(d, run.trail).journal.None?
            && (run.outcome == Installed ==> Last(d, run.trail).now == NewRegistration(d.now, b))
  {
    if b.id !in d.releases || (d.now.state.Some? && !IsCurrent(d.now, b) && d.releases[b.id] == Whole(b)) {
      TransactionIsSound(d, b, w);
    } else if d.now.state.Some? && IsCurrent(d.now, b) && b.usable {
      NowIsSound(d, d.now.(manifest := Some(Materialize(b))));
    }
  }

  /** The disk an install or a rollback decides on, once recovery is through. */
  function Settled(d: Disk, w: World): Disk {
    Last(d, RecoverSteps(d, w))
  }

  /** One install, with recovery of an earlier one before it and any failure in it: nothing ever
      dangles, and every durable state stands for the old registration or for the new one. */
  lemma InstallIsSound(d: Disk, b: Bundle, w: World)
    requires Inv(d)
    ensures var run := InstallRun(d, b, w);
            && AllInv(run.trail) && StandsFor(run.trail, Resolve(d), b)
            && Last(d, run.trail).journal.None?
            && (run.outcome == Installed ==> Last(d, run.trail).now == NewRegistration(Resolve(d), b))
  {
    RecoverIsSound(d, w);
    var recover, settled := RecoverSteps(d, w), Settled(d, w);
    DecideIsSound(settled, b, w);
    Concat(d, recover, DecideRun(settled, b, w).trail);
    StandsForConcat(recover, DecideRun(settled, b, w).trail, Resolve(d), b);
  }

  // ----- Atomicity -----

  /** One attempt at recovery: how its removals progress, and where it loses power. */
  datatype Attempt = Attempt(world: World, stop: nat)

  function Attempts(d: Disk, attempts: seq<Attempt>): Disk
    decreases |attempts|
  {
    if attempts == [] then d
    else Attempts(After(d, RecoverSteps(d, attempts[0].world), attempts[0].stop), attempts[1..])
  }

  lemma {:induction false} AttemptsKeepResolution(d: Disk, attempts: seq<Attempt>)
    requires Inv(d)
    ensures Inv(Attempts(d, attempts)) && Resolve(Attempts(d, attempts)) == Resolve(d)
    decreases |attempts|
  {
    if attempts != [] {
      RecoverIsSound(d, attempts[0].world);
      AttemptsKeepResolution(After(d, RecoverSteps(d, attempts[0].world), attempts[0].stop), attempts[1..]);
    }
  }

  /** Link and state record agree on the current release. */
  predicate Agrees(t: Triple) {
    t.state.Some? ==> t.link == Some(t.state.value.current)
  }

  /** What is registered after an install lost power at `stop`, recovery was itself interrupted any
      number of times, and then ran to its end. */
  function Finally(d: Disk, b: Bundle, w: World, stop: nat, attempts: seq<Attempt>, last: World): Disk {
    Settled(Attempts(After(d, InstallRun(d, b, w).trail, stop), attempts), last)
  }

  /** An install is atomic over crashes of itself and of its recoveries: what is registered in the
      end is what was there before, up to the link of the state record, or the new registration. */
  lemma InstallIsAtomic(d: Disk, b: Bundle, w: World, stop: nat, attempts: seq<Attempt>, last: World)
    requires Inv(d)
    ensures var end := Finally(d, b, w, stop, attempts, last);
            && Inv(end) && end.journal.None?
            && end.now in {Resolve(d), Before(Resolve(d)), NewRegistration(Resolve(d), b)}
            && (Agrees(Resolve(d)) ==> end.now in {Resolve(d), NewRegistration(Resolve(d), b)})
  {
    InstallIsSound(d, b, w);
    var s := After(d, InstallRun(d, b, w).trail, stop);
    AttemptsKeepResolution(s, attempts);
    RecoverIsSound(Attempts(s, attempts), last);
  }

  /** Whether an install gets as far as its journal: the release is new, or it is whole and another
      registration stands. */
  predicate Starts(d: Disk, b: Bundle) {
    || b.id !in d.releases
    || (d.now.state.Some? && !IsCurrent(d.now, b) && d.releases[b.id] == Whole(b))
  }

  ghost predicate Atomic(d: Disk, b: Bundle) {
    forall w, stop, attempts, last ::
      Finally(d, b, w, stop, attempts, last).now in {d.now, NewRegistration(d.now, b)}
  }

  /** The first state of a started install stands for the state record's link. */
  lemma JournalLosesLink(d: Disk, b: Bundle)
    requires Inv(d) && d.journal.None? && Starts(d, b)
    ensures var w := World(None, [], map[]); Finally(d, b, w, 1, [], w).now == Before(d.now)
  {
    var w := World(None, [], map[]);
    var journaled := d.(journal := Some(JournalFor(d, b)));
    assert InstallRun(d, b, w).trail[..1] == [journaled];
    JournalIsSound(d, b);
    RecoverIsSound(journaled, w);
  }

  /** An install that does not get to its journal changes nothing, or link and state agree. */
  lemma UnstartedIsAtomic(d: Disk, b: Bundle, w: World)
    requires Inv(d) && d.journal.None? && !Starts(d, b)
    ensures Agrees(d.now) || InstallRun(d, b, w).trail == []
  {
  }

  /** Any crashes of an install and of its recoveries leave exactly the old registration or the new
      one, if and only if link and state record agreed before it, or putting the state's link back
      is the new registration already, or the install is refused before it writes its journal.  For
      a release that is not installed yet only the first remains. */
  lemma AtomicExactly(d: Disk, b: Bundle)
    requires Inv(d) && d.journal.None?
    ensures Atomic(d, b) <==> Agrees(d.now) || Before(d.now) == NewRegistration(d.now, b) || !Starts(d, b)
    ensures b.id !in d.releases ==> (Atomic(d, b) <==> Agrees(d.now))
  {
    var w := World(None, [], map[]);
    if Starts(d, b) {
      JournalLosesLink(d, b);
    }
    if Agrees(d.now) || Before(d.now) == NewRegistration(d.now, b) || !Starts(d, b) {
      forall w, stop, attempts, last
        ensures Finally(d, b, w, stop, attempts, last).now in {d.now, NewRegistration(d.now, b)}
      {
        InstallIsAtomic(d, b, w, stop, attempts, last);
        if !Agrees(d.now) && !Starts(d, b) {
          UnstartedIsAtomic(d, b, w);
          AttemptsKeepResolution(d, attempts);
          RecoverIsSound(Attempts(d, attempts), last);
        }
      }
    } else {
      assert Finally(d, b, w, 1, [], w).now == Before(d.now) != d.now;
    }
  }
}
