/** Damage the panel could not take at once: gathered per lease until it is taken or discarded. */
module Damage {
  import opened Wrappers
  import opened Scaling
  import opened DisplayGeometry

  datatype Intent = Ink | MonoQuality | Ui | Content | Full {
    function Rank(): nat {
      match this
      case Ink => 0
      case MonoQuality => 1
      case Ui => 2
      case Content => 3
      case Full => 4
    }

    function Stronger(other: Intent): Intent {
      if other.Rank() > Rank() then other else this
    }
  }

  datatype PanelLease = PanelLease(key: I32, generation: nat, epoch: nat)

  datatype Deferred = Deferred(rect: Rect, intent: Intent)

  function Merged(a: Deferred, b: Deferred): Deferred {
    Deferred(a.rect.Union(b.rect), a.intent.Stronger(b.intent))
  }

  /** What a row of deferred damages adds up to. */
  function Gathered(ds: seq<Deferred>): Deferred
    requires ds != []
  {
    if |ds| == 1 then ds[0] else Merged(Gathered(ds[..|ds| - 1]), ds[|ds| - 1])
  }

  class PanelTelemetry {
    var deferred: map<PanelLease, Deferred>

    constructor ()
      ensures deferred == map[]
    {
      deferred := map[];
    }

    method DeferDamage(lease: PanelLease, rect: Rect, intent: Intent)
      modifies this
      ensures deferred == Step(old(deferred), Defer(lease, Deferred(rect, intent)))
    {
      if lease in deferred {
        var damage := deferred[lease];
        damage := damage.(rect := damage.rect.Union(rect));
        damage := damage.(intent := damage.intent.Stronger(intent));
        deferred := deferred[lease := damage];
      } else {
        deferred := deferred[lease := Deferred(rect, intent)];
      }
    }

    method TakeDeferredDamage(lease: PanelLease) returns (damage: Option<Deferred>)
      modifies this
      ensures deferred == Step(old(deferred), Remove(lease))
      ensures damage == if lease in old(deferred) then Some(old(deferred)[lease]) else None
    {
      damage := if lease in deferred then Some(deferred[lease]) else None;
      deferred := deferred - {lease};
    }

    method DiscardDeferredDamage(lease: PanelLease)
      modifies this
      ensures deferred == Step(old(deferred), Remove(lease))
    {
      deferred := deferred - {lease};
    }

    method DiscardDeferredDamageForKey(key: I32)
      modifies this
      ensures deferred == Step(old(deferred), RemoveKey(key))
    {
      var rest := deferred.Keys;
      while rest != {}
        invariant rest <= deferred.Keys <= old(deferred).Keys
        invariant forall l :: l in deferred ==> deferred[l] == old(deferred)[l]
        invariant forall l :: l in old(deferred) ==> (l in deferred <==> l in rest || l.key != key)
        decreases rest
      {
        var l :| l in rest;
        if l.key == key {
          deferred := deferred - {l};
        }
        rest := rest - {l};
      }
    }
  }

  // ----- Runs -----

  /** Taking and discarding remove the same entry. */
  datatype Event =
    | Defer(lease: PanelLease, damage: Deferred)
    | Remove(lease: PanelLease)
    | RemoveKey(key: I32)

  function Step(m: map<PanelLease, Deferred>, e: Event): map<PanelLease, Deferred> {
    match e
    case Defer(lease, damage) => m[lease := if lease in m then Merged(m[lease], damage) else damage]
    case Remove(lease) => m - {lease}
    case RemoveKey(key) => map l | l in m && l.key != key :: m[l]
  }

  function After(events: seq<Event>): map<PanelLease, Deferred> {
    if events == [] then map[] else Step(After(events[..|events| - 1]), events[|events| - 1])
  }

  /** The damages a lease has been handed since it was last taken from or discarded. */
  function Since(events: seq<Event>, lease: PanelLease): seq<Deferred> {
    if events == [] then []
    else
      var before := Since(events[..|events| - 1], lease);
      match events[|events| - 1]
      case Defer(l, damage) => if l == lease then before + [damage] else before
      case Remove(l) => if l == lease then [] else before
      case RemoveKey(key) => if key == lease.key then [] else before
  }

  /** The entry of a lease is what it has been handed since, whatever happens to other leases. */
  lemma {:induction false} EntryIsGathered(events: seq<Event>, lease: PanelLease)
    ensures lease in After(events) <==> Since(events, lease) != []
    ensures lease in After(events) ==> After(events)[lease] == Gathered(Since(events, lease))
  {
    if events != [] {
      var before, e := events[..|events| - 1], events[|events| - 1];
      EntryIsGathered(before, lease);
      if e.Defer? && e.lease == lease {
        var ds := Since(before, lease);
        assert (ds + [e.damage])[..|ds|] == ds;
      }
    }
  }

  // ----- What is gathered -----

  predicate Real(ds: seq<Deferred>, i: nat) {
    i < |ds| && !ds[i].rect.Empty()
  }

  datatype Side = Left | Top | RightEnd | BottomEnd

  function Edge(r: Rect, side: Side): int {
    match side
    case Left => r.x
    case Top => r.y
    case RightEnd => r.Right()
    case BottomEnd => r.Bottom()
  }

  predicate Touched(edge: int, side: Side, ds: seq<Deferred>) {
    exists i: nat :: i < |ds| && Real(ds, i) && Edge(ds[i].rect, side) == edge
  }

  /** The bounding box of the damages that are not empty, each of its sides touched by one. */
  ghost predicate LeastBox(u: Rect, ds: seq<Deferred>) {
    && !u.Empty()
    && (forall i: nat :: i < |ds| && Real(ds, i) ==> Covers(u, ds[i].rect))
    && (forall side :: Touched(Edge(u, side), side, ds))
  }

  predicate Strongest(intent: Intent, ds: seq<Deferred>) {
    && (forall i :: 0 <= i < |ds| ==> ds[i].intent.Rank() <= intent.Rank())
    && exists i :: 0 <= i < |ds| && ds[i].intent == intent
  }

  predicate AllEmpty(ds: seq<Deferred>) {
    forall i: nat :: i < |ds| ==> !Real(ds, i)
  }

  /** The bounding box of the damages that are not empty is itself a rectangle: no two edges are too
      far apart for 32 bits, and it starts before the last coordinate. */
  predicate Fits(ds: seq<Deferred>) {
    && (forall i: nat, j: nat | i < |ds| && j < |ds| && Real(ds, i) && Real(ds, j) :: Near(ds[i].rect, ds[j].rect))
    && (exists i: nat | i < |ds| :: Real(ds, i) && ds[i].rect.x < MAX_I32)
    && (exists i: nat | i < |ds| :: Real(ds, i) && ds[i].rect.y < MAX_I32)
  }

  predicate Near(a: Rect, b: Rect) {
    a.Right() - b.x <= MAX_I32 && a.Bottom() - b.y <= MAX_I32
  }

  /** From which damage on the entry stands for what it was handed: at one that does not fit with
      those it stands for, it starts over after it. */
  function Start(ds: seq<Deferred>): (m: nat)
    ensures m <= |ds|
  {
    if ds == [] then 0
    else
      var before, d := ds[..|ds| - 1], ds[|ds| - 1];
      var m := Start(before);
      if !d.rect.Empty() && !AllEmpty(before[m..]) && !Fits(before[m..] + [d]) then |ds| else m
  }

  lemma TouchedToo(edge: int, side: Side, ds: seq<Deferred>, d: Deferred)
    requires Touched(edge, side, ds) || (!d.rect.Empty() && edge == Edge(d.rect, side))
    ensures Touched(edge, side, ds + [d])
  {
    if Touched(edge, side, ds) {
      var i: nat :| i < |ds| && Real(ds, i) && Edge(ds[i].rect, side) == edge;
      assert Real(ds + [d], i);
    } else {
      assert Real(ds + [d], |ds|);
    }
  }

  lemma CoversThrough(v: Rect, u: Rect, r: Rect)
    requires Covers(v, u) && Covers(u, r)
    ensures Covers(v, r)
  {
  }

  /** A union is the box of all, or it is empty, exactly as the box fits. */
  lemma FitsExactly(ds: seq<Deferred>, d: Deferred, u: Rect)
    requires LeastBox(u, ds) && !d.rect.Empty()
    ensures Fits(ds + [d]) <==> !u.Union(d.rect).Empty()
  {
    UnionBoundsExactly(u, d.rect);
    if Fits(ds + [d]) {
      FitsSoNear(ds, d, u);
    } else if !u.Union(d.rect).Empty() {
      NearSoFits(ds, d, u);
    }
  }

  /** An edge of the box or of the last damage is an edge of a damage. */
  lemma EdgeOf(ds: seq<Deferred>, d: Deferred, u: Rect, edge: int, side: Side) returns (i: nat)
    requires LeastBox(u, ds) && !d.rect.Empty() && edge in {Edge(u, side), Edge(d.rect, side)}
    ensures Real(ds + [d], i) && Edge((ds + [d])[i].rect, side) == edge
  {
    assert Touched(Edge(u, side), side, ds);
    TouchedToo(edge, side, ds, d);
    i :| i < |ds + [d]| && Real(ds + [d], i) && Edge((ds + [d])[i].rect, side) == edge;
  }

  lemma FitsSoNear(ds: seq<Deferred>, d: Deferred, u: Rect)
    requires LeastBox(u, ds) && !d.rect.Empty() && Fits(ds + [d])
    ensures Max(u.Right(), d.rect.Right()) - Min(u.x, d.rect.x) <= MAX_I32
    ensures Max(u.Bottom(), d.rect.Bottom()) - Min(u.y, d.rect.y) <= MAX_I32
    ensures !(u.x == d.rect.x == MAX_I32) && !(u.y == d.rect.y == MAX_I32)
  {
    var all := ds + [d];
    var l := EdgeOf(ds, d, u, Min(u.x, d.rect.x), Left);
    var t := EdgeOf(ds, d, u, Min(u.y, d.rect.y), Top);
    var r := EdgeOf(ds, d, u, Max(u.Right(), d.rect.Right()), RightEnd);
    var b := EdgeOf(ds, d, u, Max(u.Bottom(), d.rect.Bottom()), BottomEnd);
    assert Near(all[r].rect, all[l].rect) && Near(all[b].rect, all[t].rect);
    var i: nat :| i < |all| && Real(all, i) && all[i].rect.x < MAX_I32;
    var j: nat :| j < |all| && Real(all, j) && all[j].rect.y < MAX_I32;
    BoxHolds(ds, d, u, i);
    BoxHolds(ds, d, u, j);
  }

  lemma BoxHolds(ds: seq<Deferred>, d: Deferred, u: Rect, i: nat)
    requires LeastBox(u, ds) && Real(ds + [d], i)
    ensures var r := (ds + [d])[i].rect; Covers(u, r) || r == d.rect
  {
    if i < |ds| {
      assert Real(ds, i);
    }
  }

  lemma NearSoFits(ds: seq<Deferred>, d: Deferred, u: Rect)
    requires LeastBox(u, ds) && !d.rect.Empty()
    requires Max(u.Right(), d.rect.Right()) - Min(u.x, d.rect.x) <= MAX_I32
    requires Max(u.Bottom(), d.rect.Bottom()) - Min(u.y, d.rect.y) <= MAX_I32
    requires !(u.x == d.rect.x == MAX_I32) && !(u.y == d.rect.y == MAX_I32)
    ensures Fits(ds + [d])
  {
    var all := ds + [d];
    forall i: nat, j: nat | Real(all, i) && Real(all, j)
      ensures Near(all[i].rect, all[j].rect)
    {
      BoxHolds(ds, d, u, i);
      BoxHolds(ds, d, u, j);
    }
    var l := EdgeOf(ds, d, u, Min(u.x, d.rect.x), Left);
    var t := EdgeOf(ds, d, u, Min(u.y, d.rect.y), Top);
    assert Real(all, l) && all[l].rect.x < MAX_I32 && Real(all, t) && all[t].rect.y < MAX_I32;
  }

  lemma BoxOfOneMore(ds: seq<Deferred>, d: Deferred, u: Rect)
    requires LeastBox(u, ds) && !u.Union(d.rect).Empty()
    ensures LeastBox(u.Union(d.rect), ds + [d])
  {
    var all, v := ds + [d], u.Union(d.rect);
    if !d.rect.Empty() {
      UnionBoundsExactly(u, d.rect);
    }
    forall side
      ensures Touched(Edge(v, side), side, all)
    {
      assert Touched(Edge(u, side), side, ds);
      TouchedToo(Edge(v, side), side, ds, d);
    }
    forall i: nat | i < |all| && Real(all, i)
      ensures Covers(v, all[i].rect)
    {
      if i < |ds| {
        assert Real(ds, i);
        CoversThrough(v, u, ds[i].rect);
      }
    }
  }

  lemma BoxOfFirst(ds: seq<Deferred>, d: Deferred)
    requires AllEmpty(ds) && !d.rect.Empty()
    ensures LeastBox(d.rect, ds + [d])
  {
    var all := ds + [d];
    forall side
      ensures Touched(Edge(d.rect, side), side, all)
    {
      TouchedToo(Edge(d.rect, side), side, ds, d);
    }
    forall i: nat | i < |all| && Real(all, i)
      ensures i == |ds|
    {
      assert i < |ds| ==> Real(ds, i);
    }
  }

  ghost predicate BoxOrEmpty(u: Rect, ds: seq<Deferred>) {
    if AllEmpty(ds) then u.Empty() else LeastBox(u, ds)
  }

  lemma OneMore(part: seq<Deferred>, d: Deferred, u: Rect)
    requires BoxOrEmpty(u, part)
    ensures !d.rect.Empty() && !AllEmpty(part) && !Fits(part + [d]) ==> u.Union(d.rect).Empty()
    ensures d.rect.Empty() || AllEmpty(part) || Fits(part + [d]) ==> BoxOrEmpty(u.Union(d.rect), part + [d])
  {
    if AllEmpty(part) {
      LastOfEmpty(part, d);
    } else {
      StillReal(part, d);
      if !d.rect.Empty() {
        FitsExactly(part, d, u);
      }
      if !u.Union(d.rect).Empty() {
        BoxOfOneMore(part, d, u);
      }
    }
  }

  /** Gathering any damage, on the canvas or off it, gives the bounding box of what is not empty since
      it last started over. */
  lemma {:induction false} GatheredIsBoxOfRest(ds: seq<Deferred>)
    requires ds != []
    ensures BoxOrEmpty(Gathered(ds).rect, ds[Start(ds)..])
  {
    var before, d := ds[..|ds| - 1], ds[|ds| - 1];
    if before == [] {
      assert ds[0..] == before + [d];
      LastOfEmpty(before, d);
    } else {
      var m := Start(before);
      GatheredIsBoxOfRest(before);
      OneMore(before[m..], d, Gathered(before).rect);
      assert ds[m..] == before[m..] + [d];
    }
  }

  /** All damages fit, whatever the order, and none starts at the last coordinate. */
  predicate Spanned(ds: seq<Deferred>) {
    && (forall i: nat, j: nat | i < |ds| && j < |ds| && Real(ds, i) && Real(ds, j) :: Near(ds[i].rect, ds[j].rect))
    && (forall i: nat | i < |ds| && Real(ds, i) :: ds[i].rect.x < MAX_I32 && ds[i].rect.y < MAX_I32)
  }

  lemma SpannedPrefix(ds: seq<Deferred>, n: nat)
    requires Spanned(ds) && n <= |ds|
    ensures Spanned(ds[..n])
  {
    forall i: nat | Real(ds[..n], i)
      ensures Real(ds, i)
    {
    }
  }

  lemma SpannedFits(ds: seq<Deferred>)
    requires Spanned(ds) && !AllEmpty(ds)
    ensures Fits(ds)
  {
    var i: nat :| i < |ds| && Real(ds, i);
    assert ds[i].rect.x < MAX_I32 && ds[i].rect.y < MAX_I32;
  }

  /** Then it never starts over. */
  lemma {:induction false} SpannedNeverStartsOver(ds: seq<Deferred>)
    requires Spanned(ds)
    ensures Start(ds) == 0
  {
    if ds != [] {
      var before, d := ds[..|ds| - 1], ds[|ds| - 1];
      SpannedPrefix(ds, |ds| - 1);
      SpannedNeverStartsOver(before);
      assert before[0..] + [d] == ds;
      if !AllEmpty(before[0..]) {
        StillReal(before[0..], d);
        SpannedFits(ds);
      }
    }
  }

  /** Damage whose bounding box fits is gathered into that box, on the canvas or off it. */
  lemma {:induction false} GatheredIsLeastBox(ds: seq<Deferred>)
    requires ds != [] && Spanned(ds)
    ensures if AllEmpty(ds) then Gathered(ds).rect == ds[|ds| - 1].rect else LeastBox(Gathered(ds).rect, ds)
  {
    SpannedNeverStartsOver(ds);
    GatheredIsBoxOfRest(ds);
    assert ds[0..] == ds;
    if AllEmpty(ds) && |ds| > 1 {
      assert !Real(ds, |ds| - 1);
      var before := ds[..|ds| - 1];
      SpannedPrefix(ds, |ds| - 1);
      SpannedNeverStartsOver(before);
      GatheredIsBoxOfRest(before);
      AllEmptyPrefix(ds, |ds| - 1);
      assert before[0..] == before;
    }
  }

  lemma AllEmptyPrefix(ds: seq<Deferred>, n: nat)
    requires AllEmpty(ds) && n <= |ds|
    ensures AllEmpty(ds[..n])
  {
    forall i: nat | i < n
      ensures !Real(ds[..n], i)
    {
      assert !Real(ds, i);
    }
  }

  lemma LastOfEmpty(before: seq<Deferred>, d: Deferred)
    requires AllEmpty(before)
    ensures if d.rect.Empty() then AllEmpty(before + [d]) else !AllEmpty(before + [d]) && LeastBox(d.rect, before + [d])
  {
    if d.rect.Empty() {
      EmptyToo(before, d);
    } else {
      BoxOfFirst(before, d);
      assert Real(before + [d], |before|);
    }
  }

  lemma StillReal(before: seq<Deferred>, d: Deferred)
    requires !AllEmpty(before)
    ensures !AllEmpty(before + [d])
  {
    var i: nat :| i < |before| && Real(before, i);
    assert Real(before + [d], i);
  }

  lemma EmptyToo(before: seq<Deferred>, d: Deferred)
    requires AllEmpty(before) && d.rect.Empty()
    ensures AllEmpty(before + [d])
  {
    forall i: nat | i < |before + [d]|
      ensures !Real(before + [d], i)
    {
      assert i < |before| ==> !Real(before, i);
    }
  }

  lemma {:induction false} GatheredIsStrongest(ds: seq<Deferred>)
    requires ds != []
    ensures Strongest(Gathered(ds).intent, ds)
  {
    var n := |ds| - 1;
    if n > 0 {
      GatheredIsStrongest(ds[..n]);
      var i :| 0 <= i < n && ds[..n][i].intent == Gathered(ds[..n]).intent;
      assert ds[i].intent == Gathered(ds[..n]).intent;
      assert ds[n].intent.Rank() <= Gathered(ds).intent.Rank();
      forall k | 0 <= k < n
        ensures ds[k].intent.Rank() <= Gathered(ds).intent.Rank()
      {
        assert ds[..n][k] == ds[k];
      }
    }
  }

  /** From the weakest to the strongest: ink, monochrome, interface, content, full. */
  lemma IntentsInOrder(a: Intent, b: Intent)
    ensures a.Stronger(b) == b.Stronger(a) && a.Stronger(b) in {a, b}
    ensures a.Stronger(b) == Full <==> a == Full || b == Full
    ensures a.Stronger(b) == Ink <==> a == Ink && b == Ink
    ensures Content.Stronger(Ui) == Content == Content.Stronger(MonoQuality) && Ui.Stronger(MonoQuality) == Ui
  {
  }

  predicate SameDamages(a: seq<Deferred>, b: seq<Deferred>) {
    (forall i :: 0 <= i < |a| ==> a[i] in b) && (forall i :: 0 <= i < |b| ==> b[i] in a)
  }

  lemma BoxTransfers(u: Rect, a: seq<Deferred>, b: seq<Deferred>)
    requires LeastBox(u, a) && SameDamages(a, b)
    ensures LeastBox(u, b)
  {
    forall i: nat | i < |b| && Real(b, i)
      ensures Covers(u, b[i].rect)
    {
      var k :| 0 <= k < |a| && a[k] == b[i];
      assert Real(a, k);
    }
    forall side
      ensures Touched(Edge(u, side), side, b)
    {
      var k: nat :| k < |a| && Real(a, k) && Edge(a[k].rect, side) == Edge(u, side);
      var i :| 0 <= i < |b| && b[i] == a[k];
      assert Real(b, i);
    }
  }

  /** The same edges; the sizes may differ where an edge is beyond the last coordinate. */
  predicate SameEdges(u: Rect, v: Rect) {
    forall side :: Edge(u, side) == Edge(v, side)
  }

  lemma OneLeastBox(u: Rect, v: Rect, ds: seq<Deferred>)
    requires LeastBox(u, ds) && LeastBox(v, ds)
    ensures SameEdges(u, v)
  {
    forall side
      ensures Edge(u, side) == Edge(v, side)
    {
      assert Touched(Edge(u, side), side, ds) && Touched(Edge(v, side), side, ds);
    }
  }

  /** Equal edges map to the same redraw, and short of the last coordinate they make equal rectangles. */
  lemma EdgesAreEnough(u: Rect, v: Rect, g: Geometry)
    requires SameEdges(u, v) && !u.Empty() && !v.Empty() && g.Valid()
    ensures g.ToPhysicalRect(u) == g.ToPhysicalRect(v)
    ensures u.Right() < MAX_I32 && u.Bottom() < MAX_I32 ==> u == v
  {
    assert Edge(u, Left) == Edge(v, Left) && Edge(u, Top) == Edge(v, Top);
    assert Edge(u, RightEnd) == Edge(v, RightEnd) && Edge(u, BottomEnd) == Edge(v, BottomEnd);
  }

  lemma SameIntent(a: seq<Deferred>, b: seq<Deferred>, x: Intent, y: Intent)
    requires SameDamages(a, b) && Strongest(x, a) && Strongest(y, b)
    ensures x == y
  {
    var i :| 0 <= i < |a| && a[i].intent == x;
    var k :| 0 <= k < |b| && b[k].intent == y;
    assert a[i] in b && b[k] in a;
    assert x.Rank() <= y.Rank() <= x.Rank();
  }

  lemma SameKind(a: seq<Deferred>, b: seq<Deferred>)
    requires SameDamages(a, b)
    ensures Spanned(a) ==> Spanned(b)
    ensures AllEmpty(b) ==> AllEmpty(a)
  {
    forall i: nat | Real(b, i)
      ensures exists k: nat :: Real(a, k) && a[k] == b[i]
    {
      var k :| 0 <= k < |a| && a[k] == b[i];
      assert Real(a, k);
    }
    forall i: nat | i < |a| && AllEmpty(b)
      ensures !Real(a, i)
    {
      var k :| 0 <= k < |b| && b[k] == a[i];
      assert !Real(b, k);
    }
  }

  /** The order in which damages arrive, and their repetition, make no difference to what is redrawn,
      and none to the rectangle either unless an edge is at the last coordinate. */
  lemma OrderIsIrrelevant(a: seq<Deferred>, b: seq<Deferred>, g: Geometry)
    requires a != [] && b != [] && SameDamages(a, b) && Spanned(a) && g.Valid()
    ensures Gathered(a).intent == Gathered(b).intent
    ensures !AllEmpty(a) ==>
              var u, v := Gathered(a).rect, Gathered(b).rect;
              && g.ToPhysicalRect(u) == g.ToPhysicalRect(v)
              && (u.Right() < MAX_I32 && u.Bottom() < MAX_I32 ==> u == v)
  {
    GatheredIsStrongest(a);
    GatheredIsStrongest(b);
    SameIntent(a, b, Gathered(a).intent, Gathered(b).intent);
    if !AllEmpty(a) {
      SameKind(a, b);
      GatheredIsLeastBox(a);
      GatheredIsLeastBox(b);
      BoxTransfers(Gathered(a).rect, a, b);
      OneLeastBox(Gathered(a).rect, Gathered(b).rect, b);
      EdgesAreEnough(Gathered(a).rect, Gathered(b).rect, g);
    }
  }

  // ----- What is lost -----

  /** The rectangle holds a pixel. */
  predicate Shown(r: Rect) {
    r.x < r.Right() && r.y < r.Bottom()
  }

  predicate Reached(r: Rect, side: Side, ds: seq<Deferred>) {
    exists j: nat :: j < |ds| && Real(ds, j)
      && if side in {Left, Top} then Edge(ds[j].rect, side) <= Edge(r, side) else Edge(r, side) <= Edge(ds[j].rect, side)
  }

  /** On each side one of the damages reaches as far as the rectangle. */
  predicate Boxed(r: Rect, ds: seq<Deferred>) {
    Reached(r, Left, ds) && Reached(r, Top, ds) && Reached(r, RightEnd, ds) && Reached(r, BottomEnd, ds)
  }

  lemma ReachedExactly(r: Rect, side: Side, ds: seq<Deferred>, u: Rect)
    requires LeastBox(u, ds)
    ensures Reached(r, side, ds) <==>
            if side in {Left, Top} then Edge(u, side) <= Edge(r, side) else Edge(r, side) <= Edge(u, side)
  {
    assert Touched(Edge(u, side), side, ds);
  }

  lemma BoxedExactly(r: Rect, ds: seq<Deferred>, u: Rect)
    requires BoxOrEmpty(u, ds) && Shown(r)
    ensures Boxed(r, ds) <==> !AllEmpty(ds) && Covers(u, r)
  {
    if AllEmpty(ds) {
      assert !Reached(r, Left, ds);
    } else {
      ReachedExactly(r, Left, ds, u);
      ReachedExactly(r, Top, ds, u);
      ReachedExactly(r, RightEnd, ds, u);
      ReachedExactly(r, BottomEnd, ds, u);
    }
  }

  /** Every pixel of `r` is in `u`. */
  ghost predicate Holds(u: Rect, r: Rect) {
    forall px: int, py: int :: r.Contains(px, py) ==> u.Contains(px, py)
  }

  lemma HoldsExactly(u: Rect, r: Rect)
    ensures Holds(u, r) <==> !Shown(r) || Covers(u, r)
  {
    if Shown(r) && Holds(u, r) {
      assert r.Contains(r.x, r.y) && r.Contains(r.Right() - 1, r.Bottom() - 1);
    }
  }

  /** A damage the gathered rectangle still holds: it came after the entry last started over, or is
      in the bounding box of those that did. */
  predicate Kept(ds: seq<Deferred>, i: nat)
    requires i < |ds|
  {
    i >= Start(ds) || !Shown(ds[i].rect) || Boxed(ds[i].rect, ds[Start(ds)..])
  }

  lemma EmptyIsNotShown(r: Rect)
    ensures r.Empty() ==> !Shown(r)
    ensures r.Empty() ==> !exists px: int, py: int :: r.Contains(px, py)
  {
  }

  lemma HeldExactly(ds: seq<Deferred>, i: nat)
    requires i < |ds|
    ensures Holds(Gathered(ds).rect, ds[i].rect) <==> Kept(ds, i)
  {
    var u, r, m := Gathered(ds).rect, ds[i].rect, Start(ds);
    GatheredIsBoxOfRest(ds);
    HoldsExactly(u, r);
    if Shown(r) {
      BoxedExactly(r, ds[m..], u);
      if i >= m {
        EmptyIsNotShown(r);
        assert ds[m..][i - m] == ds[i] && Real(ds[m..], i - m);
      } else if AllEmpty(ds[m..]) {
        EmptyIsNotShown(u);
        assert r.Contains(r.x, r.y);
      }
    }
  }

  /** After any history an entry holds every pixel of every damage it was handed since it was last
      taken or discarded, if and only if each of them came after the last one that did not fit, or is
      in the bounding box of those that did. */
  lemma HistoryIsHeldExactly(events: seq<Event>, lease: PanelLease)
    requires lease in After(events)
    ensures var ds := Since(events, lease);
            (forall i: nat | i < |ds| :: Holds(After(events)[lease].rect, ds[i].rect)) <==>
              (forall i: nat | i < |ds| :: Kept(ds, i))
  {
    var ds := Since(events, lease);
    EntryIsGathered(events, lease);
    forall i: nat | i < |ds|
      ensures Holds(After(events)[lease].rect, ds[i].rect) <==> Kept(ds, i)
    {
      HeldExactly(ds, i);
    }
  }

  // ----- From the deferred damage to the panel -----

  /** Neither axis of the panel is twice as fine as the canvas. */
  predicate Close(g: Geometry) {
    g.Valid() && g.Fits() && g.physicalWidth < 2 * g.logicalWidth && g.physicalHeight < 2 * g.logicalHeight
  }

  lemma RedrawnWhole(g: Geometry, u: Rect)
    requires Close(g)
    ensures Redraws(g, g.ToPhysicalRect(u), u)
  {
    var c := u.Clip(g.logicalWidth, g.logicalHeight);
    if c.Empty() {
      SamplesClipped(g, u);
    } else {
      RedrawnExactly(g, u);
      ClipIntersects(u, g.logicalWidth, g.logicalHeight, 0, 0);
      NoSpill(c.x, g.logicalWidth, g.physicalWidth);
      NoSpill(c.y, g.logicalHeight, g.physicalHeight);
    }
  }

  /** No damage that is kept is lost on the panel: after any history, redrawing the mapping of what a
      lease has gathered updates every panel pixel that shows any pixel of it, whether or not the
      damage reaches off the canvas. */
  lemma NothingIsLost(events: seq<Event>, lease: PanelLease, g: Geometry, i: nat)
    requires Close(g) && i < |Since(events, lease)| && Kept(Since(events, lease), i)
    ensures lease in After(events)
    ensures Redraws(g, g.ToPhysicalRect(After(events)[lease].rect), Since(events, lease)[i].rect)
  {
    var ds := Since(events, lease);
    EntryIsGathered(events, lease);
    HeldExactly(ds, i);
    RedrawnWhole(g, Gathered(ds).rect);
  }

  /** All damage is kept while its bounding box fits in 32 bits. */
  lemma SpannedIsKept(ds: seq<Deferred>, i: nat)
    requires Spanned(ds) && i < |ds|
    ensures Kept(ds, i)
  {
    SpannedNeverStartsOver(ds);
  }
}
