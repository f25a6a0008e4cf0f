/** Installing, recovering and rolling back a package as the package manager does it: records and
    release trees changed in place, one durable step at a time.  `trail` records every durable
    state in the order it is reached; `left` is how many more steps the disk accepts before it
    reports an error. */
module PackageStore {
  import opened Wrappers
  import opened PackageProtocol

  /** The part of `steps` carried out before the disk reports an error. */
  function Done(left: Option<nat>, steps: seq<Disk>): seq<Disk> {
    if left.Some? && left.value < |steps| then steps[..left.value] else steps
  }

  function Remaining(left: Option<nat>, steps: seq<Disk>): Option<nat> {
    if left.Some? then Some(if left.value < |steps| then 0 else left.value - |steps|) else None
  }

  predicate Completes(left: Option<nat>, steps: seq<Disk>) {
    left.Some? ==> |steps| <= left.value
  }

  lemma DoneConcat(d: Disk, left: Option<nat>, a: seq<Disk>, b: seq<Disk>)
    ensures !Completes(left, a) ==>
              !Completes(left, a + b) && Done(left, a + b) == Done(left, a) && Remaining(left, a + b) == Remaining(left, a)
    ensures Completes(left, a) ==>
              && Done(left, a + b) == a + Done(Remaining(left, a), b)
              && Remaining(left, a + b) == Remaining(Remaining(left, a), b)
              && (Completes(left, a + b) <==> Completes(Remaining(left, a), b))
              && Last(d, Done(left, a + b)) == Last(Last(d, a), Done(Remaining(left, a), b))
  {
  }

  /** Where a store is on its way: its disk, its trail, and how many steps the disk still accepts. */
  datatype Progress = Progress(now: Disk, trail: seq<Disk>, left: Option<nat>)

  predicate Took(before: Progress, steps: seq<Disk>, after: Progress, ok: bool) {
    && ok == Completes(before.left, steps)
    && after.trail == before.trail + Done(before.left, steps)
    && after.now == Last(before.now, Done(before.left, steps))
    && after.left == Remaining(before.left, steps)
  }

  lemma TookThen(first: Progress, a: seq<Disk>, middle: Progress, b: seq<Disk>, after: Progress, ok: bool)
    requires Took(first, a, middle, true) && Took(middle, b, after, ok)
    ensures Took(first, a + b, after, ok)
  {
    DoneConcat(first.now, first.left, a, b);
  }

  lemma TookNoMore(first: Progress, a: seq<Disk>, after: Progress, b: seq<Disk>)
    requires Took(first, a, after, false)
    ensures Took(first, a + b, after, false)
  {
    DoneConcat(first.now, first.left, a, b);
  }

  /** The next of a row of steps: after it one more is taken, or the disk has refused the rest. */
  lemma TookOneMore(first: Progress, all: seq<Disk>, i: nat, middle: Progress, after: Progress, ok: bool)
    requires i < |all| && Took(first, all[..i], middle, true) && Took(middle, [all[i]], after, ok)
    ensures if ok then Took(first, all[..i + 1], after, true) else Took(first, all, after, false)
  {
    TookThen(first, all[..i], middle, [all[i]], after, ok);
    assert all[..i] + [all[i]] == all[..i + 1];
    if !ok {
      TookNoMore(first, all[..i + 1], after, all[i + 1..]);
      assert all[..i + 1] + all[i + 1..] == all;
    }
  }

  /** The steps of a removal, one by one. */
  lemma RemoveStep(d: Disk, id: Id, w: World, i: nat)
    requires id in d.releases && i <= |TearsOf(w, id)|
    ensures var steps, tears := RemoveSteps(d, id, w), TearsOf(w, id);
            && |steps| == |tears| + 1
            && steps[i] == d.(releases := if i < |tears| then d.releases[id := Torn(d.releases[id].bundle, tears[i])]
                                          else d.releases - {id})
            && (i == |tears| ==> steps[..i + 1] == steps)
  {
  }

  /** One round of the pruning loop, on the steps taken so far. */
  lemma PruneRound(d: Disk, keep: set<Id>, listing: seq<Id>, i: nat, w: World, gone: seq<Disk>, all: seq<Disk>)
    requires i < |listing| && all == gone + PruneSteps(d, keep, listing[i..], w)
    ensures listing[i] in keep ==> all == gone + PruneSteps(d, keep, listing[i + 1..], w)
    ensures var here := RemoveSteps(d, listing[i], w);
            listing[i] !in keep ==> all == (gone + here) + PruneSteps(Last(d, here), keep, listing[i + 1..], w)
  {
    assert listing[i..][0] == listing[i] && listing[i..][1..] == listing[i + 1..];
  }

  class Store {
    var link: Option<Id>
    var manifest: Option<Manifest>
    var state: Option<State>
    var journal: Option<Journal>
    var releases: map<Id, Release>
    var left: Option<nat>
    ghost var trail: seq<Disk>

    constructor (d: Disk)
      ensures Now() == d && left == None && trail == []
    {
      link, manifest, state := d.now.link, d.now.manifest, d.now.state;
      journal, releases, left, trail := d.journal, d.releases, None, [];
    }

    function Now(): Disk
      reads this
    {
      Disk(Triple(link, manifest, state), journal, releases)
    }

    ghost function Where(): Progress
      reads this
    {
      Progress(Now(), trail, left)
    }

    /** What a method has done by way of the given steps, from the state it was called in. */
    twostate predicate Did(steps: seq<Disk>, ok: bool)
      reads this
    {
      Took(old(Where()), steps, Where(), ok)
    }

    // ----- Single durable steps -----

    method SwitchLink(next: Option<Id>) returns (ok: bool)
      modifies this
      ensures Did([old(Now()).(now := old(Now()).now.(link := next))], ok)
    {
      ok := left != Some(0);
      if ok {
        link := next;
        trail := trail + [Now()];
        left := if left.Some? then Some(left.value - 1) else None;
      }
    }

    method WriteManifest(next: Option<Manifest>) returns (ok: bool)
      modifies this
      ensures Did([old(Now()).(now := old(Now()).now.(manifest := next))], ok)
    {
      ok := left != Some(0);
      if ok {
        manifest := next;
        trail := trail + [Now()];
        left := if left.Some? then Some(left.value - 1) else None;
      }
    }

    method WriteState(next: Option<State>) returns (ok: bool)
      modifies this
      ensures Did([old(Now()).(now := old(Now()).now.(state := next))], ok)
    {
      ok := left != Some(0);
      if ok {
        state := next;
        trail := trail + [Now()];
        left := if left.Some? then Some(left.value - 1) else None;
      }
    }

    method WriteJournal(next: Option<Journal>) returns (ok: bool)
      modifies this
      ensures Did([old(Now()).(journal := next)], ok)
    {
      ok := left != Some(0);
      if ok {
        journal := next;
        trail := trail + [Now()];
        left := if left.Some? then Some(left.value - 1) else None;
      }
    }

    method ChangeReleases(next: map<Id, Release>) returns (ok: bool)
      modifies this
      ensures Did([old(Now()).(releases := next)], ok)
    {
      ok := left != Some(0);
      if ok {
        releases := next;
        trail := trail + [Now()];
        left := if left.Some? then Some(left.value - 1) else None;
      }
    }

    // ----- Trees -----

    method RemoveTree(id: Id, w: World) returns (ok: bool)
      modifies this
      ensures Did(RemoveSteps(old(Now()), id, w), ok)
    {
      if id !in releases {
        return true;
      }
      ghost var first, all := Where(), RemoveSteps(Now(), id, w);
      var tears, start, i := TearsOf(w, id), releases, 0;
      while i < |tears|
        invariant 0 <= i <= |tears| && Took(first, all[..i], Where(), true)
        invariant Now() == first.now.(releases := releases)
      {
        RemoveStep(first.now, id, w, i);
        ghost var middle := Where();
        ok := ChangeReleases(start[id := Torn(start[id].bundle, tears[i])]);
        TookOneMore(first, all, i, middle, Where(), ok);
        if !ok {
          return;
        }
        i := i + 1;
      }
      RemoveStep(first.now, id, w, i);
      ghost var middle := Where();
      ok := ChangeReleases(start - {id});
      TookOneMore(first, all, i, middle, Where(), ok);
    }

    method RemoveStaleReleases(keep: set<Id>, w: World) returns (ok: bool)
      modifies this
      ensures Did(PruneSteps(old(Now()), keep, w.listing, w), ok)
    {
      ghost var first, all := Where(), PruneSteps(Now(), keep, w.listing, w);
      ghost var gone: seq<Disk> := [];
      var i := 0;
      ok := true;
      while i < |w.listing|
        invariant 0 <= i <= |w.listing| && ok
        invariant Took(first, gone, Where(), true)
        invariant all == gone + PruneSteps(Now(), keep, w.listing[i..], w)
      {
        PruneRound(Now(), keep, w.listing, i, w, gone, all);
        if w.listing[i] !in keep {
          ghost var middle, here := Where(), RemoveSteps(Now(), w.listing[i], w);
          ok := RemoveTree(w.listing[i], w);
          TookThen(first, gone, middle, here, Where(), ok);
          if !ok {
            TookNoMore(first, gone + here, Where(), PruneSteps(Last(middle.now, here), keep, w.listing[i + 1..], w));
            return;
          }
          gone := gone + here;
        }
        i := i + 1;
      }
      assert all == gone;
    }

    // ----- Recovery -----

    /** Put the recorded registration back: link, manifest, state record. */
    method RestoreRecords(before: Triple)
      requires left == None
      modifies this
      ensures Did(RecordSteps(old(Now()), before), true)
    {
      var _ := SwitchLink(before.link);
      var _ := WriteManifest(before.manifest);
      var _ := WriteState(before.state);
    }

    /** Recovery: what it finds in the journal, it undoes. */
    method RecoverJournal(w: World)
      requires left == None
      modifies this
      ensures Did(RecoverSteps(old(Now()), w), true)
    {
      if journal.None? {
        return;
      }
      ghost var first := Where();
      var j := journal.value;
      RestoreRecords(j.before);
      ghost var records, middle := RecordSteps(first.now, j.before), Where();
      ghost var removed := if j.preexisted then [] else RemoveSteps(Now(), j.target, w);
      if !j.preexisted {
        var _ := RemoveTree(j.target, w);
      }
      TookThen(first, records, middle, removed, Where(), true);
      middle := Where();
      var ok := WriteJournal(None);
      TookThen(first, records + removed, middle, [middle.now.(journal := None)], Where(), ok);
    }

    // ----- Install -----

    /** Manifest, link, state record: the three records of a registration, in that order. */
    method Register(next: Triple) returns (ok: bool)
      modifies this
      ensures Did(RegisterSteps(old(Now()), next), ok)
    {
      ghost var first, all := Where(), RegisterSteps(Now(), next);
      ok := WriteManifest(next.manifest);
      assert all[..0] == [] && Took(first, all[..0], first, true);
      TookOneMore(first, all, 0, first, Where(), ok);
      if !ok {
        return;
      }
      ghost var middle := Where();
      ok := SwitchLink(next.link);
      TookOneMore(first, all, 1, middle, Where(), ok);
      if !ok {
        return;
      }
      middle := Where();
      ok := WriteState(next.state);
      TookOneMore(first, all, 2, middle, Where(), ok);
      assert all[..3] == all;
    }

    /** Commit a registered release and prune what it leaves behind. */
    method CommitAndPrune(keep: set<Id>, w: World) returns (ok: bool)
      modifies this
      ensures Did([old(Now()).(journal := None)] + PruneSteps(old(Now()).(journal := None), keep, w.listing, w), ok)
    {
      ghost var first, committed := Where(), Now().(journal := None);
      ok := WriteJournal(None);
      if !ok {
        TookNoMore(first, [committed], Where(), PruneSteps(committed, keep, w.listing, w));
        return;
      }
      ghost var middle := Where();
      ok := RemoveStaleReleases(keep, w);
      TookThen(first, [committed], middle, PruneSteps(committed, keep, w.listing, w), Where(), ok);
    }

    method Publish(t: Triple, b: Bundle, w: World) returns (ok: bool)
      modifies this
      ensures Did(PublishSteps(old(Now()), t, b, w), ok)
    {
      ghost var first, all := Where(), PublishSteps(Now(), t, b, w);
      var next, keep := NewTriple(t, b), Keep(NewState(t, b));
      ghost var moved := if b.id in releases then Now() else Now().(releases := releases[b.id := Whole(b)]);
      ghost var a := if b.id in releases then [] else [moved];
      ghost var r := RegisterSteps(moved, next);
      ghost var registered := Last(moved, r);
      ghost var c := [registered.(journal := None)] + PruneSteps(registered.(journal := None), keep, w.listing, w);
      assert all == (a + r) + c;
      ok := true;
      if b.id !in releases {
        ok := ChangeReleases(releases[b.id := Whole(b)]);
      }
      if !ok {
        TookNoMore(first, a, Where(), r);
        TookNoMore(first, a + r, Where(), c);
        return;
      }
      ghost var middle := Where();
      ok := Register(next);
      TookThen(first, a, middle, r, Where(), ok);
      if !ok {
        TookNoMore(first, a + r, Where(), c);
        return;
      }
      middle := Where();
      ok := CommitAndPrune(keep, w);
      TookThen(first, a + r, middle, c, Where(), ok);
    }

    /** Publish under a journal; an error on the way hands over to recovery at once. */
    method PublishOrRecover(t: Triple, b: Bundle, w: World) returns (ok: bool)
      requires left == None
      modifies this
      ensures var steps := PublishSteps(old(Now()), t, b, w);
              ok == Completes(w.fails, steps)
      ensures var steps := PublishSteps(old(Now()), t, b, w);
              var done := Done(w.fails, steps);
              Did(if ok then steps else done + RecoverSteps(Last(old(Now()), done), w), true)
    {
      ghost var first := Where();
      ghost var done := Done(w.fails, PublishSteps(Now(), t, b, w));
      left := w.fails;
      ok := Publish(t, b, w);
      left := None;
      assert Took(first, done, Where(), true);
      if !ok {
        ghost var middle := Where();
        RecoverJournal(w);
        TookThen(first, done, middle, RecoverSteps(middle.now, w), Where(), true);
      }
    }

    /** Write the journal, publish, and report whether the new registration was installed. */
    method Transaction(b: Bundle, w: World) returns (outcome: Outcome)
      requires left == None
      modifies this
      ensures var run := TransactionRun(old(Now()), b, w);
              outcome == run.outcome && Did(run.trail, true)
    {
      ghost var first := Where();
      var before := Now().now;
      var _ := WriteJournal(Some(JournalFor(Now(), b)));
      ghost var middle := Where();
      if !b.usable {
        RecoverJournal(w);
        TookThen(first, [middle.now], middle, RecoverSteps(middle.now, w), Where(), true);
        return Failed;
      }
      var ok := PublishOrRecover(before, b, w);
      ghost var steps := PublishSteps(middle.now, before, b, w);
      ghost var done := Done(w.fails, steps);
      ghost var rest := if ok then steps else done + RecoverSteps(Last(middle.now, done), w);
      TookThen(first, [middle.now], middle, rest, Where(), true);
      assert !ok ==> [middle.now] + done + RecoverSteps(Last(middle.now, done), w) == [middle.now] + rest;
      return if ok then Installed else Failed;
    }

    method Decide(b: Bundle, w: World) returns (outcome: Outcome)
      requires left == None
      modifies this
      ensures var run := DecideRun(old(Now()), b, w);
              outcome == run.outcome && Did(run.trail, true)
    {
      if b.id !in releases {
        outcome := Transaction(b, w);
      } else if state.None? {
        outcome := Refused;
      } else if IsCurrent(Now().now, b) {
        if !b.usable {
          return Refused;
        }
        var _ := WriteManifest(Some(Materialize(b)));
        outcome := Installed;
      } else if releases[b.id] != Whole(b) {
        outcome := Refused;
      } else {
        outcome := Transaction(b, w);
      }
    }

    /** One install goes through exactly the durable states of `InstallRun`. */
    method Install(b: Bundle, w: World) returns (outcome: Outcome)
      requires left == None
      modifies this
      ensures var run := InstallRun(old(Now()), b, w);
              outcome == run.outcome && Did(run.trail, true)
    {
      ghost var first := Where();
      RecoverJournal(w);
      ghost var middle := Where();
      outcome := Decide(b, w);
      TookThen(first, RecoverSteps(first.now, w), middle, DecideRun(middle.now, b, w).trail, Where(), true);
    }

    // ----- Rollback -----

    /** The one release of a version, if there is exactly one. */
    method ReleaseForVersion(version: string, w: World) returns (id: Option<Id>)
      ensures var found := WithVersion(Now(), w.listing, version);
              id == if |found| == 1 then Some(found[0]) else None
    {
      var matches: seq<Id>, i := [], 0;
      while i < |w.listing|
        invariant 0 <= i <= |w.listing|
        invariant matches + WithVersion(Now(), w.listing[i..], version) == WithVersion(Now(), w.listing, version)
      {
        assert w.listing[i..][0] == w.listing[i] && w.listing[i..][1..] == w.listing[i + 1..];
        if HasVersion(Now(), w.listing[i], version) {
          matches := matches + [w.listing[i]];
        }
        i := i + 1;
      }
      id := if |matches| == 1 then Some(matches[0]) else None;
    }

    method Switch(version: Option<string>, w: World) returns (outcome: Outcome)
      requires left == None
      modifies this
      ensures var run := SwitchRun(old(Now()), version, w);
              outcome == run.outcome && Did(run.trail, true)
    {
      if state.None? {
        return Refused;
      }
      var target := state.value.previous;
      if version.Some? {
        target := ReleaseForVersion(version.value, w);
      }
      if target.None? || target.value !in releases || target.value == state.value.current {
        return Refused;
      }
      var release := releases[target.value];
      if (release.Torn? && !release.readable) || !release.bundle.usable {
        return Refused;
      }
      var _ := Register(RolledBack(state.value, release.bundle));
      return Installed;
    }

    /** One rollback goes through exactly the durable states of `RollbackRun`. */
    method Rollback(version: Option<string>, w: World) returns (outcome: Outcome)
      requires left == None
      modifies this
      ensures var run := RollbackRun(old(Now()), version, w);
              outcome == run.outcome && Did(run.trail, true)
    {
      ghost var first := Where();
      RecoverJournal(w);
      ghost var middle := Where();
      outcome := Switch(version, w);
      TookThen(first, RecoverSteps(first.now, w), middle, SwitchRun(middle.now, version, w).trail, Where(), true);
    }
  }
}
