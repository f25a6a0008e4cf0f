/** When an install or a rollback succeeds, told from its inputs, and in what order it registers. */
module PackageOutcome {
  import opened Wrappers
  import opened PackageProtocol
  import opened PackageSafety
  import opened PackageRollback

  // ----- Installing -----

  /** Link and state record already are those of this very bundle. */
  predicate Registered(t: Triple, b: Bundle) {
    && t.link == Some(b.id) && t.state.Some?
    && t.state.value.current == b.id && t.state.value.version == b.version && t.state.value.package == b.package
  }

  /** A release on disk is taken up again only with a state record, and then as it is registered or
      because it is whole. */
  predicate Refusable(d: Disk, b: Bundle) {
    && b.id in d.releases
    && (|| d.now.state.None?
        || (if Registered(d.now, b) then !b.usable else d.releases[b.id] != Whole(b)))
  }

  /** How an install ends, from the disk recovery leaves.  Without a disk error it succeeds if and only
      if the bundle is usable and not refused; a refused one changes nothing; installing the registered
      release again renews its manifest in one step. */
  lemma InstallEndsExactly(d: Disk, b: Bundle, w: World)
    requires Inv(d)
    ensures var run, s := InstallRun(d, b, w), Settled(d, w);
            && (run.outcome == Refused <==> Refusable(s, b))
            && (run.outcome == Installed ==> b.usable && !Refusable(s, b))
            && (w.fails.None? ==> (run.outcome == Installed <==> b.usable && !Refusable(s, b)))
            && (run.outcome == Refused ==> Last(d, run.trail) == s)
            && (b.id in s.releases && Registered(s.now, b) && b.usable ==>
                  && run.outcome == Installed
                  && run.trail == RecoverSteps(d, w) + [s.(now := s.now.(manifest := Some(Manifest(b.text, b.id))))])
  {
    RecoverIsSound(d, w);
  }

  /** Where a registration has got to: the manifest first, then the link, then the state record. */
  predicate InOrder(before: Triple, now: Triple, id: Id) {
    && (now.link != before.link ==> now.link == Some(id) && now.manifest.Some? && now.manifest.value.release == id)
    && (now.state != before.state ==> now.link == Some(id) && now.state.Some? && now.state.value.current == id
                                      && now.manifest.Some? && now.manifest.value.release == id)
  }

  lemma RegisterInOrder(d: Disk, next: Triple, id: Id)
    requires next.link == Some(id) && next.manifest.Some? && next.manifest.value.release == id
    requires next.state.Some? && next.state.value.current == id
    ensures forall k :: 0 <= k < 3 ==> InOrder(d.now, RegisterSteps(d, next)[k].now, id)
    ensures RegisterSteps(d, next)[2].now == next
  {
  }

  lemma {:induction false} PruningKeepsRecords(d: Disk, keep: set<Id>, listing: seq<Id>, w: World, k: nat)
    requires k < |PruneSteps(d, keep, listing, w)|
    ensures PruneSteps(d, keep, listing, w)[k].now == d.now && PruneSteps(d, keep, listing, w)[k].journal == d.journal
    decreases |listing|
  {
    if listing[0] in keep {
      PruningKeepsRecords(d, keep, listing[1..], w, k);
    } else {
      var here := RemoveSteps(d, listing[0], w);
      if k >= |here| {
        PruningKeepsRecords(Last(d, here), keep, listing[1..], w, k - |here|);
      }
    }
  }

  /** What a state of a publication may look like: the release is there before anything names it, the
      records come in order, and the journal goes when all three are new. */
  predicate PublishedInOrder(before: Triple, s: Disk, b: Bundle) {
    && InOrder(before, s.now, b.id)
    && (s.now != before && s.journal.Some? ==> b.id in s.releases)
    && (s.journal.None? ==>
          var was := if before.state.Some? then Some(before.state.value.current) else before.link;
          s.now == Triple(
            Some(b.id), Some(Manifest(b.text, b.id)),
            Some(State(b.package, b.id, if was == Some(b.id) then None else was, b.version))))
  }

  lemma PublishIsInOrder(d: Disk, b: Bundle, w: World, k: nat)
    requires d.journal.Some? && k < |PublishSteps(d, d.now, b, w)|
    ensures PublishedInOrder(d.now, PublishSteps(d, d.now, b, w)[k], b)
  {
    var moved := if b.id in d.releases then d else d.(releases := d.releases[b.id := Whole(b)]);
    var registered := RegisterSteps(moved, NewTriple(d.now, b));
    var committed := Last(moved, registered).(journal := None);
    var head := (if b.id in d.releases then [] else [moved]) + registered + [committed];
    RegisterInOrder(moved, NewTriple(d.now, b), b.id);
    if k >= |head| {
      PruningKeepsRecords(committed, Keep(NewState(d.now, b)), w.listing, w, k - |head|);
    }
  }

  /** So in a completed install that is not a renewal, from a disk without a journal: the first state
      is the journal's alone, and from then on the release, manifest, link and state record come in
      this order. */
  lemma InstallRegistersInOrder(d: Disk, b: Bundle, w: World, k: nat)
    requires Inv(d) && d.journal.None? && InstallRun(d, b, w).outcome == Installed
    requires !(b.id in d.releases && Registered(d.now, b)) && k < |InstallRun(d, b, w).trail|
    ensures PublishedInOrder(d.now, InstallRun(d, b, w).trail[k], b)
    ensures InstallRun(d, b, w).trail[0].now == d.now && InstallRun(d, b, w).trail[0].releases == d.releases
  {
    var journaled := d.(journal := Some(JournalFor(d, b)));
    assert InstallRun(d, b, w).trail == [journaled] + PublishSteps(journaled, d.now, b, w);
    if k > 0 {
      PublishIsInOrder(journaled, b, w, k - 1);
    }
  }

  /** A recovery puts back the link, then the manifest, then the state record; only then it removes a
      release that was new, and only then the journal. */
  lemma RecoveryIsInOrder(d: Disk, w: World, k: nat)
    requires d.journal.Some? && k < |RecoverSteps(d, w)|
    ensures var j, s := d.journal.value, RecoverSteps(d, w)[k];
            && s.now.link == j.before.link
            && (s.now.manifest == j.before.manifest || s.now.manifest == d.now.manifest)
            && (s.now.state != d.now.state ==> s.now == j.before)
            && (s.releases != d.releases ==> s.now == j.before)
            && (s.journal.None? ==> s.now == j.before && (!j.preexisted ==> j.target !in s.releases))
            && (s.journal.Some? ==> s.journal == d.journal)
  {
    var j := d.journal.value;
    var recorded := d.(now := j.before);
    var removed := if j.preexisted then [] else RemoveSteps(recorded, j.target, w);
    var records := RecordSteps(d, j.before);
    assert RecoverSteps(d, w) == records + removed + [Last(recorded, removed).(journal := None)];
    assert records[2] == recorded;
  }

  // ----- Rolling back -----

  /** The release's manifest can be read, and names the version. */
  predicate Answers(d: Disk, id: Id, version: string) {
    id in d.releases && (d.releases[id].Whole? || d.releases[id].readable) && d.releases[id].bundle.version == version
  }

  /** The recorded previous release, or the only entry of the listing that answers to the version. */
  predicate Chosen(d: Disk, version: Option<string>, w: World, id: Id) {
    && d.now.state.Some?
    && match version {
         case None => d.now.state.value.previous == Some(id)
         case Some(v) =>
           exists i | 0 <= i < |w.listing| ::
             && w.listing[i] == id && Answers(d, id, v)
             && forall j | 0 <= j < |w.listing| && j != i :: !Answers(d, w.listing[j], v)
       }
  }

  lemma {:induction false} NoneFound(d: Disk, listing: seq<Id>, v: string)
    ensures WithVersion(d, listing, v) == [] <==> forall j | 0 <= j < |listing| :: !Answers(d, listing[j], v)
    decreases |listing|
  {
    if listing != [] {
      NoneFound(d, listing[1..], v);
      assert forall j | 0 < j < |listing| :: listing[1..][j - 1] == listing[j];
      if WithVersion(d, listing, v) == [] {
        forall j | 0 <= j < |listing|
          ensures !Answers(d, listing[j], v)
        {
          if j > 0 {
            assert !Answers(d, listing[1..][j - 1], v);
          }
        }
      }
    }
  }

  predicate Only(d: Disk, listing: seq<Id>, v: string, i: nat)
    requires i < |listing|
  {
    Answers(d, listing[i], v) && forall j | 0 <= j < |listing| && j != i :: !Answers(d, listing[j], v)
  }

  lemma {:induction false} OneFound(d: Disk, listing: seq<Id>, v: string, i: nat)
    requires i < |listing| && Only(d, listing, v, i)
    ensures WithVersion(d, listing, v) == [listing[i]]
    decreases |listing|
  {
    if i == 0 {
      NoneFound(d, listing[1..], v);
      forall j | 0 <= j < |listing| - 1
        ensures !Answers(d, listing[1..][j], v)
      {
        assert listing[1..][j] == listing[j + 1];
      }
    } else {
      assert !Answers(d, listing[0], v);
      assert Only(d, listing[1..], v, i - 1) by {
        forall j | 0 <= j < |listing| - 1 && j != i - 1
          ensures !Answers(d, listing[1..][j], v)
        {
          assert listing[1..][j] == listing[j + 1];
        }
      }
      OneFound(d, listing[1..], v, i - 1);
    }
  }

  lemma {:induction false} FoundIsOnly(d: Disk, listing: seq<Id>, v: string) returns (i: nat)
    requires |WithVersion(d, listing, v)| == 1
    ensures i < |listing| && Only(d, listing, v, i)
    decreases |listing|
  {
    if Answers(d, listing[0], v) {
      i := 0;
      NoneFound(d, listing[1..], v);
      forall j | 0 < j < |listing|
        ensures !Answers(d, listing[j], v)
      {
        assert listing[j] == listing[1..][j - 1];
      }
    } else {
      var k := FoundIsOnly(d, listing[1..], v);
      i := k + 1;
      forall j | 0 <= j < |listing| && j != i
        ensures !Answers(d, listing[j], v)
      {
        if j > 0 {
          assert listing[j] == listing[1..][j - 1];
        }
      }
    }
  }

  lemma TargetExactly(d: Disk, version: Option<string>, w: World, id: Id)
    ensures Target(d, version, w) == Some(id) <==> Chosen(d, version, w, id)
  {
    if d.now.state.Some? && version.Some? {
      if Target(d, version, w) == Some(id) {
        var i := FoundIsOnly(d, w.listing, version.value);
        OneFound(d, w.listing, version.value, i);
      }
      if Chosen(d, version, w, id) {
        var i :| 0 <= i < |w.listing| && w.listing[i] == id && Only(d, w.listing, version.value, i);
        OneFound(d, w.listing, version.value, i);
      }
    }
  }

  /** A release one can go to: on disk, with a manifest that can be read and used, and not current. */
  predicate Reachable(d: Disk, id: Id) {
    && id in d.releases && (d.releases[id].Whole? || d.releases[id].readable) && d.releases[id].bundle.usable
    && (d.now.state.Some? ==> id != d.now.state.value.current)
  }

  /** A rollback succeeds if and only if a release is chosen and can be gone to.  Then link, manifest
      and state record are that release's, the one left is the previous, and the package and the
      releases stay; otherwise nothing changes. */
  lemma RollbackEndsExactly(d: Disk, version: Option<string>, w: World)
    requires Inv(d)
    ensures var run, s := RollbackRun(d, version, w), Settled(d, w);
            && (run.outcome == Installed <==> exists id :: Chosen(s, version, w, id) && Reachable(s, id))
            && (run.outcome != Installed ==> run.outcome == Refused && Last(d, run.trail) == s)
            && forall id :: Chosen(s, version, w, id) && Reachable(s, id) ==>
                 var b, left := s.releases[id].bundle, s.now.state.value;
                 Last(d, run.trail) == s.(now := Triple(
                   Some(id), Some(Manifest(b.text, id)), Some(State(left.package, id, Some(left.current), b.version))))
  {
    RecoverIsSound(d, w);
    var s := Settled(d, w);
    var t := Target(s, version, w);
    if t.Some? {
      TargetExactly(s, version, w, t.value);
    }
    forall id | Chosen(s, version, w, id)
      ensures t == Some(id)
    {
      TargetExactly(s, version, w, id);
    }
    SettledIds(d, w);
  }

  lemma SettledIds(d: Disk, w: World)
    requires Inv(d)
    ensures forall id :: id in Settled(d, w).releases ==> Settled(d, w).releases[id].bundle.id == id
  {
    SettledInv(d, w);
  }

  /** And its records come in order too. */
  lemma RollbackRegistersInOrder(d: Disk, version: Option<string>, w: World, k: nat)
    requires Inv(d) && d.journal.None? && RollbackRun(d, version, w).outcome == Installed
    requires k < |RollbackRun(d, version, w).trail|
    ensures exists id :: Chosen(d, version, w, id) && InOrder(d.now, RollbackRun(d, version, w).trail[k].now, id)
  {
    var id := Target(d, version, w).value;
    TargetExactly(d, version, w, id);
    RegisterInOrder(d, RolledBack(d.now.state.value, d.releases[id].bundle), id);
    assert RollbackRun(d, version, w).trail == SwitchRun(d, version, w).trail;
  }
}
