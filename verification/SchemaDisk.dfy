/** What the data-schema transaction of remagic-runner keeps on disk, and the steps of putting a
    snapshot back.  The application data is one map from paths to entries, so that a backup path
    stands for its whole subtree; the managed records are the remaining fields of `Disk`. */
module SchemaDisk {
  import opened Wrappers

  /** The components of a path: "/" first when it is absolute, ".." for a parent component. */
  type Path = seq<string>

  datatype Entry = Directory | File(content: string) | Symlink(target: string)

  type Data = map<Path, Entry>

  /** A snapshot is named after its transaction, as in "from-1-to-2". */
  datatype Name = Name(from: Option<nat>, to: nat)

  datatype Snapshot = Snapshot(from: Option<nat>, to: nat, paths: seq<Path>, content: Data)

  datatype Applied = Applied(version: nat, backup: Name)

  datatype Pending = Pending(from: Option<nat>, to: nat, backup: Name, paths: seq<Path>)

  datatype Disk = Disk(
    data: Data,
    snapshots: map<Name, Snapshot>,
    pending: Option<Pending>,
    applied: Option<Applied>,
    ready: Option<nat>)

  // ----- Subtrees of the data -----

  predicate Under(p: Path, root: Path) {
    root <= p
  }

  predicate Inside(p: Path, roots: seq<Path>) {
    exists i :: 0 <= i < |roots| && Under(p, roots[i])
  }

  function Subtree(data: Data, root: Path): Data {
    map p | p in data && Under(p, root) :: data[p]
  }

  function Within(data: Data, roots: seq<Path>): Data {
    map p | p in data && Inside(p, roots) :: data[p]
  }

  function Without(data: Data, roots: seq<Path>): Data {
    map p | p in data && !Inside(p, roots) :: data[p]
  }

  /** The data with the whole subtree at `root` exchanged for `tree`. */
  function Replace(data: Data, root: Path, tree: Data): Data {
    (map p | p in data && !Under(p, root) :: data[p]) + tree
  }

  /** A removal of the subtree at `root` that has so far spared only the paths of `survivors`. */
  function Spare(data: Data, root: Path, survivors: set<Path>): Data {
    map p | p in data && (!Under(p, root) || p in survivors) :: data[p]
  }

  /** The data as its snapshot recorded it, and as it is now outside the backup paths. */
  function Restored(data: Data, snap: Snapshot): Data {
    Without(data, snap.paths) + snap.content
  }

  // ----- Path rules -----

  predicate SafeAbsolute(p: Path) {
    |p| > 0 && p[0] == "/" && ".." !in p
  }

  predicate Overlaps(root: Path, source: Path) {
    Under(root, source) || Under(source, root)
  }

  predicate Recursive(root: Path, paths: seq<Path>) {
    exists i :: 0 <= i < |paths| && Overlaps(root, paths[i])
  }

  // ----- Putting a snapshot back -----

  function Last<T>(first: T, trail: seq<T>): T {
    if trail == [] then first else trail[|trail| - 1]
  }

  function At(removals: seq<seq<set<Path>>>, i: nat): seq<set<Path>> {
    if i < |removals| then removals[i] else []
  }

  /** The durable states of restoring one backup path.  A source recorded as absent is removed
      entry by entry; a recorded one is renamed in, after the present one is renamed away. */
  function SourceSteps(data: Data, root: Path, content: Data, survivors: seq<set<Path>>): (steps: seq<Data>)
    ensures steps != []
  {
    var tree := Subtree(content, root);
    if tree == map[] then
      seq(|survivors|, j requires 0 <= j < |survivors| => Spare(data, root, survivors[j]))
      + [Replace(data, root, map[])]
    else if Subtree(data, root) != map[] then
      [Replace(data, root, map[]), Replace(data, root, tree)]
    else
      [Replace(data, root, tree)]
  }

  /** A removal may lose power with any entries left, and a replacement with nothing there. */
  lemma RestoreMayStopInside(data: Data, root: Path, content: Data, left: set<Path>)
    ensures Subtree(content, root) == map[] ==> Spare(data, root, left) in SourceSteps(data, root, content, [left])
    ensures Subtree(content, root) != map[] && Subtree(data, root) != map[] ==>
              Replace(data, root, map[]) in SourceSteps(data, root, content, [left])
    ensures Replace(data, root, Subtree(content, root)) in SourceSteps(data, root, content, [left])
  {
    var steps := SourceSteps(data, root, content, [left]);
    assert steps[0] in steps && steps[|steps| - 1] in steps;
  }

  /** Every directory above a path is there, so that the path can be synced or written. */
  predicate Reachable(data: Data, p: Path) {
    forall k :: 1 < k < |p| ==> p[..k] in data && data[p[..k]] == Directory
  }

  predicate AllReachable(data: Data, paths: seq<Path>) {
    forall i :: 0 <= i < |paths| ==> Reachable(data, paths[i])
  }

  /** Something above the path is there and is not a directory; a capture refuses such a path. */
  predicate PathBlocked(data: Data, p: Path) {
    exists k :: 1 < k < |p| && p[..k] in data && data[p[..k]] != Directory
  }

  predicate Blocked(data: Data, paths: seq<Path>) {
    exists i :: 0 <= i < |paths| && PathBlocked(data, paths[i])
  }

  lemma ReachableIsNotBlocked(data: Data, paths: seq<Path>)
    requires AllReachable(data, paths)
    ensures !Blocked(data, paths)
  {
    forall i | 0 <= i < |paths|
      ensures !PathBlocked(data, paths[i])
    {
      assert Reachable(data, paths[i]);
    }
  }

  /** The durable states of restoring the backup paths from number `i` on, up to the first that
      cannot be reached. */
  function RestoreSteps(data: Data, snap: Snapshot, i: nat, removals: seq<seq<set<Path>>>): seq<Data>
    requires i <= |snap.paths|
    decreases |snap.paths| - i
  {
    if i == |snap.paths| || !Reachable(data, snap.paths[i]) then []
    else
      var here := SourceSteps(data, snap.paths[i], snap.content, At(removals, i));
      here + RestoreSteps(Last(data, here), snap, i + 1, removals)
  }

  /** The restore comes to its end: each path can be reached when its turn comes. */
  predicate Restorable(data: Data, snap: Snapshot, i: nat)
    requires i <= |snap.paths|
    decreases |snap.paths| - i
  {
    i == |snap.paths|
    || (Reachable(data, snap.paths[i])
        && Restorable(Replace(data, snap.paths[i], Subtree(snap.content, snap.paths[i])), snap, i + 1))
  }

  /** No backup path lies below another, as manifests are validated to declare them. */
  predicate Separate(paths: seq<Path>) {
    forall i, j :: 0 <= i < j < |paths| ==> !Overlaps(paths[i], paths[j])
  }

  predicate WellCaptured(snap: Snapshot) {
    forall p :: p in snap.content ==> Inside(p, snap.paths)
  }

  /** Backup paths before number `i` hold what the snapshot recorded. */
  predicate Placed(data: Data, snap: Snapshot, i: nat)
    requires i <= |snap.paths|
  {
    forall j :: 0 <= j < i ==> Subtree(data, snap.paths[j]) == Subtree(snap.content, snap.paths[j])
  }

  lemma SourceEnd(data: Data, root: Path, content: Data, survivors: seq<set<Path>>)
    ensures Last(data, SourceSteps(data, root, content, survivors)) == Replace(data, root, Subtree(content, root))
  {
  }

  lemma SourceStepsKeepOutside(data: Data, snap: Snapshot, i: nat, survivors: seq<set<Path>>, k: nat)
    requires i < |snap.paths| && k < |SourceSteps(data, snap.paths[i], snap.content, survivors)|
    ensures Without(SourceSteps(data, snap.paths[i], snap.content, survivors)[k], snap.paths) == Without(data, snap.paths)
  {
    var root := snap.paths[i];
    var s := SourceSteps(data, root, snap.content, survivors)[k];
    forall p | !Inside(p, snap.paths)
      ensures (p in s <==> p in data) && (p in s ==> s[p] == data[p])
    {
      assert !Under(p, root);
    }
  }

  lemma SourceEndIsPlaced(data: Data, snap: Snapshot, i: nat, survivors: seq<set<Path>>)
    requires i < |snap.paths| && Placed(data, snap, i)
    ensures Placed(Last(data, SourceSteps(data, snap.paths[i], snap.content, survivors)), snap, i + 1)
  {
    var root := snap.paths[i];
    var tree := Subtree(snap.content, root);
    var end := Last(data, SourceSteps(data, root, snap.content, survivors));
    assert end == Replace(data, root, tree);
    forall j | 0 <= j < i + 1
      ensures Subtree(end, snap.paths[j]) == Subtree(snap.content, snap.paths[j])
    {
      if j < i {
        forall p | Under(p, snap.paths[j])
          ensures p in end <==> p in snap.content
          ensures p in end ==> end[p] == snap.content[p]
        {
          if !Under(p, root) {
            assert p in data <==> p in Subtree(data, snap.paths[j]);
            assert p in snap.content <==> p in Subtree(snap.content, snap.paths[j]);
          }
        }
      }
    }
  }

  lemma PlacedIsRestored(data: Data, snap: Snapshot)
    requires WellCaptured(snap) && Placed(data, snap, |snap.paths|)
    ensures data == Restored(data, snap)
  {
    var r := Restored(data, snap);
    forall p
      ensures (p in data <==> p in r) && (p in data ==> data[p] == r[p])
    {
      if Inside(p, snap.paths) {
        var j :| 0 <= j < |snap.paths| && Under(p, snap.paths[j]);
        assert p in data <==> p in Subtree(data, snap.paths[j]);
        assert p in snap.content <==> p in Subtree(snap.content, snap.paths[j]);
      }
    }
  }

  /** A restore changes nothing outside the backup paths. */
  lemma {:induction false} RestoreStepsKeepOutside(
    data: Data, snap: Snapshot, i: nat, removals: seq<seq<set<Path>>>, k: nat)
    requires i <= |snap.paths| && k < |RestoreSteps(data, snap, i, removals)|
    ensures Without(RestoreSteps(data, snap, i, removals)[k], snap.paths) == Without(data, snap.paths)
    decreases |snap.paths| - i
  {
    var here := SourceSteps(data, snap.paths[i], snap.content, At(removals, i));
    if k < |here| {
      SourceStepsKeepOutside(data, snap, i, At(removals, i), k);
    } else {
      SourceStepsKeepOutside(data, snap, i, At(removals, i), |here| - 1);
      RestoreStepsKeepOutside(Last(data, here), snap, i + 1, removals, k - |here|);
    }
  }

  /** However far a restore has come, what it is restoring to has not moved. */
  lemma RestoreStepsKeepRestored(data: Data, snap: Snapshot, i: nat, removals: seq<seq<set<Path>>>, k: nat)
    requires i <= |snap.paths| && k < |RestoreSteps(data, snap, i, removals)|
    ensures Restored(RestoreSteps(data, snap, i, removals)[k], snap) == Restored(data, snap)
  {
    RestoreStepsKeepOutside(data, snap, i, removals, k);
  }

  /** A restore that runs to its end leaves exactly the recorded data in the backup paths and
      exactly the present data outside them, from whatever torn state it started. */
  lemma {:induction false} RestoreEndsRestored(data: Data, snap: Snapshot, i: nat, removals: seq<seq<set<Path>>>)
    requires i <= |snap.paths| && WellCaptured(snap) && Placed(data, snap, i) && Restorable(data, snap, i)
    ensures Last(data, RestoreSteps(data, snap, i, removals)) == Restored(data, snap)
    decreases |snap.paths| - i
  {
    if i == |snap.paths| {
      PlacedIsRestored(data, snap);
    } else {
      var here := SourceSteps(data, snap.paths[i], snap.content, At(removals, i));
      var next := Last(data, here);
      SourceEnd(data, snap.paths[i], snap.content, At(removals, i));
      SourceEndIsPlaced(data, snap, i, At(removals, i));
      SourceStepsKeepOutside(data, snap, i, At(removals, i), |here| - 1);
      RestoreEndsRestored(next, snap, i + 1, removals);
      var rest := RestoreSteps(next, snap, i + 1, removals);
      assert RestoreSteps(data, snap, i, removals) == here + rest;
      assert Last(data, here + rest) == Last(next, rest);
    }
  }

  // ----- When a restore comes to its end -----

  lemma AboveAncestor(p: Path, k: nat, root: Path)
    requires k <= |p| && Under(p[..k], root)
    ensures Under(p, root) && |root| <= k
  {
  }

  lemma AncestorIsOutside(paths: seq<Path>, i: nat, k: nat)
    requires Separate(paths) && i < |paths| && k < |paths[i]|
    ensures !Inside(paths[i][..k], paths)
  {
    forall j | 0 <= j < |paths|
      ensures !Under(paths[i][..k], paths[j])
    {
      if Under(paths[i][..k], paths[j]) {
        AboveAncestor(paths[i], k, paths[j]);
      }
    }
  }

  /** Whether separate backup paths can be reached is decided outside all of them. */
  lemma ReachIsOutside(a: Data, b: Data, paths: seq<Path>, i: nat)
    requires Separate(paths) && i < |paths| && Without(a, paths) == Without(b, paths) && Reachable(a, paths[i])
    ensures Reachable(b, paths[i])
  {
    var p := paths[i];
    forall k | 1 < k < |p|
      ensures p[..k] in b && b[p[..k]] == Directory
    {
      AncestorIsOutside(paths, i, k);
      assert p[..k] in Without(a, paths) && Without(a, paths)[p[..k]] == Directory;
    }
  }

  lemma ReplaceKeepsOutside(data: Data, snap: Snapshot, i: nat)
    requires i < |snap.paths|
    ensures Without(Replace(data, snap.paths[i], Subtree(snap.content, snap.paths[i])), snap.paths)
            == Without(data, snap.paths)
  {
    SourceEnd(data, snap.paths[i], snap.content, []);
    SourceStepsKeepOutside(data, snap, i, [], |SourceSteps(data, snap.paths[i], snap.content, [])| - 1);
  }

  /** A restore of separate paths comes to its end if and only if all of them can be reached when it
      begins, or at any other time since their snapshot. */
  lemma {:induction false} RestorableExactly(data: Data, other: Data, snap: Snapshot, i: nat)
    requires Separate(snap.paths) && Without(data, snap.paths) == Without(other, snap.paths) && i <= |snap.paths|
    ensures Restorable(data, snap, i) <==> forall j :: i <= j < |snap.paths| ==> Reachable(other, snap.paths[j])
    decreases |snap.paths| - i
  {
    if i < |snap.paths| {
      var next := Replace(data, snap.paths[i], Subtree(snap.content, snap.paths[i]));
      ReplaceKeepsOutside(data, snap, i);
      RestorableExactly(next, other, snap, i + 1);
      if Reachable(data, snap.paths[i]) {
        ReachIsOutside(data, other, snap.paths, i);
      }
      if Reachable(other, snap.paths[i]) {
        ReachIsOutside(other, data, snap.paths, i);
      }
    }
  }

  /** Capturing and then restoring over any data that differs only inside the paths is exact. */
  lemma CaptureThenRestore(before: Data, torn: Data, snap: Snapshot)
    requires snap.content == Within(before, snap.paths)
    requires Without(torn, snap.paths) == Without(before, snap.paths)
    ensures Restored(torn, snap) == before
  {
    forall p
      ensures p in before <==> p in Restored(torn, snap)
      ensures p in before ==> before[p] == Restored(torn, snap)[p]
    {
      assert p in before && !Inside(p, snap.paths) <==> p in Without(torn, snap.paths);
    }
  }

  /** Two roots that both contain a path lie on one line. */
  lemma DisjointSubtrees(root: Path, source: Path, p: Path)
    requires !Overlaps(root, source) && Under(p, root)
    ensures !Under(p, source)
  {
  }

  lemma SourceStepsSpareDirectory(
    data: Data, source: Path, content: Data, survivors: seq<set<Path>>, root: Path, k: nat)
    requires !Overlaps(root, source) && k < |SourceSteps(data, source, content, survivors)|
    ensures Subtree(SourceSteps(data, source, content, survivors)[k], root) == Subtree(data, root)
  {
    var step := SourceSteps(data, source, content, survivors)[k];
    forall p | Under(p, root)
      ensures p in step <==> p in data
      ensures p in data ==> step[p] == data[p]
    {
      DisjointSubtrees(root, source, p);
    }
  }

  /** A restore whose backup paths pass the recursion check never touches the managed directory,
      at any of its steps. */
  lemma {:induction false} RestoreSparesDirectory(
    data: Data, snap: Snapshot, i: nat, removals: seq<seq<set<Path>>>, root: Path, k: nat)
    requires i <= |snap.paths| && !Recursive(root, snap.paths)
    requires k < |RestoreSteps(data, snap, i, removals)|
    ensures Subtree(RestoreSteps(data, snap, i, removals)[k], root) == Subtree(data, root)
    decreases |snap.paths| - i
  {
    var source := snap.paths[i];
    assert !Overlaps(root, source);
    var here := SourceSteps(data, source, snap.content, At(removals, i));
    if k < |here| {
      SourceStepsSpareDirectory(data, source, snap.content, At(removals, i), root, k);
    } else {
      SourceStepsSpareDirectory(data, source, snap.content, At(removals, i), root, |here| - 1);
      RestoreSparesDirectory(Last(data, here), snap, i + 1, removals, root, k - |here|);
    }
  }
}
