/** The power key: counting presses and releases in time into single, triple and long actions. */
module PowerKey {
  import opened Wrappers

  /** Milliseconds of the monotonic clock. */
  type Time = nat

  const GAP: Time := 800
  const LONG: Time := 3000

  datatype Action = Nothing | Single | Triple | Long

  datatype Key = Key(clicks: nat, deadline: Option<Time>, down: Option<Time>, suppress: bool)

  datatype Kind = Press | Release | Poll | Clear

  datatype Event = Event(kind: Kind, at: Time)

  const RESTING := Key(0, None, None, false)

  function Held(k: Key, now: Time): bool {
    k.down.Some? && now - k.down.value >= LONG
  }

  predicate Late(k: Key, now: Time) {
    k.deadline.Some? && now > k.deadline.value
  }

  function Do(k: Key, e: Event): (Key, Action) {
    match e.kind
    case Press => (k.(down := Some(if k.down.Some? then k.down.value else e.at)), Nothing)
    case Clear => (RESTING, Nothing)
    case Release =>
      if k.suppress then (k.(suppress := false, down := None), Nothing)
      else if k.down.None? then (k, Nothing)
      else if Held(k, e.at) then (RESTING, Long)
      else
        var clicks := (if Late(k, e.at) then 0 else k.clicks) + 1;
        if clicks >= 3 then (RESTING, Triple)
        else (k.(clicks := clicks, deadline := Some(e.at + GAP), down := None), Nothing)
    case Poll =>
      if Held(k, e.at) then (Key(0, None, None, true), Long)
      else if k.clicks > 0 && k.deadline.Some? && e.at >= k.deadline.value then (RESTING, Single)
      else (k, Nothing)
  }

  class ClickTracker {
    var clicks: nat
    var deadline: Option<Time>
    var down: Option<Time>
    var suppress: bool

    constructor ()
      ensures Now() == RESTING
    {
      clicks, deadline, down, suppress := 0, None, None, false;
    }

    function Now(): Key
      reads this
    {
      Key(clicks, deadline, down, suppress)
    }

    /** The earliest time at which polling will report something. */
    method NextDeadline() returns (next: Option<Time>)
      requires Sound(Now())
      ensures next.None? <==> down.None? && clicks == 0
      ensures next.Some? ==> forall now: Time :: now >= next.value <==> Do(Now(), Event(Kind.Poll, now)).1 != Nothing
    {
      var held := if down.Some? then Some(down.value + LONG) else None;
      match (held, deadline) {
        case (Some(l), Some(r)) => next := Some(if l < r then l else r);
        case (Some(l), None) => next := held;
        case (None, _) => next := deadline;
      }
    }

    method Press(now: Time)
      modifies this
      ensures Now() == Do(old(Now()), Event(Kind.Press, now)).0
    {
      if down.None? {
        down := Some(now);
      }
    }

    method Release(now: Time) returns (action: Action)
      modifies this
      ensures (Now(), action) == Do(old(Now()), Event(Kind.Release, now))
    {
      if suppress {
        suppress, down := false, None;
        return Nothing;
      }
      if down.None? {
        return Nothing;
      }
      var start := down.value;
      down := None;
      if now - start >= LONG {
        Clear();
        return Long;
      }
      if deadline.Some? && now > deadline.value {
        clicks := 0;
      }
      clicks := clicks + 1;
      if clicks >= 3 {
        Clear();
        return Triple;
      }
      deadline := Some(now + GAP);
      return Nothing;
    }

    method Poll(now: Time) returns (action: Action)
      modifies this
      ensures (Now(), action) == Do(old(Now()), Event(Kind.Poll, now))
    {
      if down.Some? && now - down.value >= LONG {
        clicks, deadline, down, suppress := 0, None, None, true;
        return Long;
      }
      if clicks > 0 && deadline.Some? && now >= deadline.value {
        Clear();
        return Single;
      }
      return Nothing;
    }

    method Clear()
      modifies this
      ensures Now() == RESTING
    {
      clicks, deadline, down, suppress := 0, None, None, false;
    }
  }

  // ----- Runs -----

  predicate Sound(k: Key) {
    k.clicks <= 2 && (k.clicks > 0 <==> k.deadline.Some?)
  }

  function After(events: seq<Event>): (k: Key)
    ensures Sound(k)
  {
    if events == [] then RESTING else Do(After(events[..|events| - 1]), events[|events| - 1]).0
  }

  function ActionAt(events: seq<Event>, i: nat): Action
    requires i < |events|
  {
    Do(After(events[..i]), events[i]).1
  }

  // ----- What the actions mean -----

  /** A step of a run with what it reported. */
  datatype Seen = Seen(event: Event, action: Action)

  function History(events: seq<Event>): (seen: seq<Seen>)
    ensures |seen| == |events|
  {
    if events == [] then []
    else
      var before := events[..|events| - 1];
      var e := events[|events| - 1];
      History(before) + [Seen(e, Do(After(before), e).1)]
  }

  /** The step ends a hold: a release, a clear, or any action reported while the key is down. */
  predicate Ends(s: Seen) {
    s.event.kind == Kind.Release || s.event.kind == Kind.Clear || s.action != Nothing
  }

  predicate EndsBetween(seen: seq<Seen>, j: nat, i: nat)
    requires i <= |seen|
  {
    exists m | j < m < i :: Ends(seen[m])
  }

  /** Before `i` the key is up: each press was followed by the end of its hold. */
  predicate Up(seen: seq<Seen>, i: nat)
    requires i <= |seen|
  {
    forall j: nat {:trigger EndsBetween(seen, j, i)} | j < i && seen[j].event.kind == Press :: EndsBetween(seen, j, i)
  }

  /** Before `i` the key is down, and the press at `j` is the first of its hold. */
  predicate DownSince(seen: seq<Seen>, j: nat, i: nat)
    requires i <= |seen|
  {
    && j < i && seen[j].event.kind == Press && Up(seen, j)
    && forall m | j < m < i :: !Ends(seen[m])
  }

  /** A release that ends a hold of less than three seconds, timed from the first press of the hold. */
  predicate ClickAt(seen: seq<Seen>, i: nat) {
    && i < |seen| && seen[i].event.kind == Release
    && exists j: nat | j < i :: DownSince(seen, j, i) && seen[i].event.at - seen[j].event.at < LONG
  }

  /** Two clicks, the second released at most 800 ms after the first. */
  predicate Pair(seen: seq<Seen>, a: nat, b: nat) {
    a < b && ClickAt(seen, a) && ClickAt(seen, b) && seen[b].event.at - seen[a].event.at <= GAP
  }

  /** The key is down in the tracker from the first press of a hold that is still going on. */
  predicate HoldIsKnown(seen: seq<Seen>, k: Key) {
    && (k.down.None? ==> Up(seen, |seen|))
    && (k.down.Some? ==> exists j: nat | j < |seen| ::
          DownSince(seen, j, |seen|) && seen[j].event.at == k.down.value)
  }

  /** The click at `a` is the last one counted: the deadline runs from it. */
  predicate LastAt(seen: seq<Seen>, a: nat, k: Key) {
    ClickAt(seen, a) && k.deadline == Some(seen[a].event.at + GAP)
  }

  /** The clicks the tracker has counted really happened. */
  predicate Counted(seen: seq<Seen>, k: Key) {
    && (k.clicks == 1 ==> exists a: nat | a < |seen| :: LastAt(seen, a, k))
    && (k.clicks == 2 ==> exists a: nat, b: nat | a < b < |seen| :: Pair(seen, a, b) && LastAt(seen, b, k))
  }

  // What happened stays so, in a longer history as in a shorter one.

  lemma UpInPrefix(seen: seq<Seen>, n: nat, i: nat)
    requires i <= n <= |seen|
    ensures Up(seen[..n], i) <==> Up(seen, i)
  {
    forall j: nat ensures EndsBetween(seen[..n], j, i) <==> EndsBetween(seen, j, i) {
      assert forall m | 0 <= m < i :: seen[..n][m] == seen[m];
    }
  }

  lemma DownInPrefix(seen: seq<Seen>, n: nat, j: nat, i: nat)
    requires i <= n <= |seen|
    ensures DownSince(seen[..n], j, i) <==> DownSince(seen, j, i)
  {
    if j < i {
      UpInPrefix(seen, n, j);
    }
  }

  lemma ClickInPrefix(seen: seq<Seen>, n: nat, a: nat)
    requires a < n <= |seen|
    ensures ClickAt(seen[..n], a) <==> ClickAt(seen, a)
  {
    forall j: nat | j < a ensures DownSince(seen[..n], j, a) <==> DownSince(seen, j, a) {
      DownInPrefix(seen, n, j, a);
    }
  }

  lemma PairInPrefix(seen: seq<Seen>, n: nat, a: nat, b: nat)
    requires a < b < n <= |seen|
    ensures Pair(seen[..n], a, b) <==> Pair(seen, a, b)
  {
    ClickInPrefix(seen, n, a);
    ClickInPrefix(seen, n, b);
  }

  lemma UpPersists(seen: seq<Seen>, s: Seen)
    requires Up(seen, |seen|)
    ensures Up(seen + [s], |seen|)
  {
    assert (seen + [s])[..|seen|] == seen;
    UpInPrefix(seen + [s], |seen|, |seen|);
  }

  lemma NowDown(seen: seq<Seen>, s: Seen)
    requires Up(seen, |seen|) && s.event.kind == Press
    ensures DownSince(seen + [s], |seen|, |seen| + 1)
  {
    UpPersists(seen, s);
  }

  lemma StillDown(seen: seq<Seen>, s: Seen, j: nat)
    requires DownSince(seen, j, |seen|) && !Ends(s)
    ensures DownSince(seen + [s], j, |seen| + 1)
  {
    assert (seen + [s])[..|seen|] == seen;
    DownInPrefix(seen + [s], |seen|, j, |seen|);
  }

  lemma NowUp(seen: seq<Seen>, s: Seen)
    requires s.event.kind != Press && (Ends(s) || Up(seen, |seen|))
    ensures Up(seen + [s], |seen| + 1)
  {
    var longer := seen + [s];
    if Up(seen, |seen|) {
      UpPersists(seen, s);
    }
    forall j: nat | j < |longer| && longer[j].event.kind == Press ensures EndsBetween(longer, j, |longer|) {
      if Ends(s) {
        assert Ends(longer[|seen|]);
      } else {
        assert EndsBetween(longer, j, |seen|);
      }
    }
  }

  lemma StepKnowsHold(seen: seq<Seen>, e: Event, k: Key)
    requires HoldIsKnown(seen, k)
    ensures HoldIsKnown(seen + [Seen(e, Do(k, e).1)], Do(k, e).0)
  {
    var s := Seen(e, Do(k, e).1);
    if k.down.None? {
      if e.kind == Press { NowDown(seen, s); } else { NowUp(seen, s); }
    } else if Do(k, e).0.down.None? {
      NowUp(seen, s);
    } else {
      var j: nat :| j < |seen| && DownSince(seen, j, |seen|) && seen[j].event.at == k.down.value;
      StillDown(seen, s, j);
    }
  }

  /** The release of a press that the tracker counts, rather than ignores or reports as long. */
  predicate Counts(k: Key, e: Event) {
    e.kind == Release && !k.suppress && k.down.Some? && !Held(k, e.at)
  }

  lemma CountsAreClicks(seen: seq<Seen>, s: Seen, k: Key)
    requires HoldIsKnown(seen, k) && Counts(k, s.event)
    ensures ClickAt(seen + [s], |seen|)
  {
    var j: nat :| j < |seen| && DownSince(seen, j, |seen|) && seen[j].event.at == k.down.value;
    assert (seen + [s])[..|seen|] == seen;
    DownInPrefix(seen + [s], |seen|, j, |seen|);
  }

  lemma ClickPersists(seen: seq<Seen>, s: Seen, a: nat)
    requires ClickAt(seen, a)
    ensures ClickAt(seen + [s], a) && (seen + [s])[a] == seen[a]
  {
    assert (seen + [s])[..|seen|] == seen;
    ClickInPrefix(seen + [s], |seen|, a);
  }

  lemma PairPersists(seen: seq<Seen>, s: Seen, a: nat, b: nat)
    requires Pair(seen, a, b)
    ensures Pair(seen + [s], a, b)
  {
    ClickPersists(seen, s, a);
    ClickPersists(seen, s, b);
  }

  /** What was counted stays true while nothing more is counted. */
  lemma CountPersists(seen: seq<Seen>, s: Seen, k: Key, n: Key)
    requires Counted(seen, k) && (n.clicks == 0 || (n.clicks == k.clicks && n.deadline == k.deadline))
    ensures Counted(seen + [s], n)
  {
    if n.clicks == 1 {
      var a: nat :| a < |seen| && LastAt(seen, a, k);
      ClickPersists(seen, s, a);
      assert LastAt(seen + [s], a, n);
    } else if n.clicks == 2 {
      var a: nat, b: nat :| a < b < |seen| && Pair(seen, a, b) && LastAt(seen, b, k);
      PairPersists(seen, s, a, b);
      ClickPersists(seen, s, b);
      assert LastAt(seen + [s], b, n);
    }
  }

  /** Three clicks in time end at the last step. */
  predicate ThirdAt(seen: seq<Seen>, c: nat) {
    exists a: nat, b: nat | a < b < c :: Pair(seen, a, b) && Pair(seen, b, c)
  }

  lemma ClickIsCounted(seen: seq<Seen>, s: Seen, k: Key)
    requires Sound(k) && Counted(seen, k) && Counts(k, s.event) && ClickAt(seen + [s], |seen|)
    ensures Counted(seen + [s], Do(k, s.event).0)
    ensures Do(k, s.event).1 == Triple ==> ThirdAt(seen + [s], |seen|)
  {
    var n := Do(k, s.event).0;
    if Late(k, s.event.at) || k.clicks == 0 {
      assert LastAt(seen + [s], |seen|, n);
    } else if k.clicks == 1 {
      var a: nat :| a < |seen| && LastAt(seen, a, k);
      ClickPersists(seen, s, a);
      assert Pair(seen + [s], a, |seen|) && LastAt(seen + [s], |seen|, n);
    } else {
      var a: nat, b: nat :| a < b < |seen| && Pair(seen, a, b) && LastAt(seen, b, k);
      PairPersists(seen, s, a, b);
      ClickPersists(seen, s, b);
      assert Pair(seen + [s], b, |seen|);
    }
  }

  lemma StepIsCounted(seen: seq<Seen>, e: Event, k: Key)
    requires Sound(k) && Counted(seen, k) && HoldIsKnown(seen, k)
    ensures var longer := seen + [Seen(e, Do(k, e).1)];
            Counted(longer, Do(k, e).0) && (Do(k, e).1 == Triple ==> ThirdAt(longer, |seen|))
  {
    var s := Seen(e, Do(k, e).1);
    if Counts(k, e) {
      CountsAreClicks(seen, s, k);
      ClickIsCounted(seen, s, k);
    } else {
      CountPersists(seen, s, k, Do(k, e).0);
    }
  }

  lemma {:induction false} RunsAreCounted(events: seq<Event>)
    ensures Counted(History(events), After(events)) && HoldIsKnown(History(events), After(events))
  {
    if events != [] {
      var before := events[..|events| - 1];
      var e := events[|events| - 1];
      RunsAreCounted(before);
      StepIsCounted(History(before), e, After(before));
      StepKnowsHold(History(before), e, After(before));
    }
  }

  lemma {:induction false} HistoryInPrefix(events: seq<Event>, n: nat)
    requires n <= |events|
    ensures History(events[..n]) == History(events)[..n]
  {
    if n == |events| {
      assert events[..n] == events;
    } else {
      var before := events[..|events| - 1];
      HistoryInPrefix(before, n);
      assert before[..n] == events[..n];
    }
  }

  lemma ThirdInPrefix(seen: seq<Seen>, n: nat, c: nat)
    requires c < n <= |seen| && ThirdAt(seen[..n], c)
    ensures ThirdAt(seen, c)
  {
    var a: nat, b: nat :| a < b < c && Pair(seen[..n], a, b) && Pair(seen[..n], b, c);
    PairInPrefix(seen, n, a, b);
    PairInPrefix(seen, n, b, c);
  }

  lemma {:induction false} TripleEndsClicks(before: seq<Event>, e: Event)
    requires Do(After(before), e).1 == Triple
    ensures ThirdAt(History(before + [e]), |before|)
  {
    RunsAreCounted(before);
    StepIsCounted(History(before), e, After(before));
    assert (before + [e])[..|before|] == before;
  }

  /** A triple action means three clicks, each held for less than three seconds from the first press
      of its hold and each released at most 800 ms after the one before. */
  lemma {:induction false} TripleMeansThreeClicks(events: seq<Event>, k: nat)
    requires k < |events| && ActionAt(events, k) == Triple
    ensures ThirdAt(History(events), k)
  {
    TripleEndsClicks(events[..k], events[k]);
    assert events[..k + 1] == events[..k] + [events[k]];
    HistoryInPrefix(events, k + 1);
    ThirdInPrefix(History(events), k + 1, k);
  }

  /** A long action means a hold, still going on, whose first press is at least three seconds old. */
  lemma {:induction false} LongMeansHeld(events: seq<Event>, k: nat)
    requires k < |events| && ActionAt(events, k) == Long
    ensures exists j: nat | j < k :: DownSince(History(events), j, k) && events[k].at - events[j].at >= LONG
  {
    RunsAreCounted(events[..k]);
    HistoryInPrefix(events, k);
    var seen := History(events)[..k];
    var j: nat :| j < k && DownSince(seen, j, k) && seen[j].event.at == After(events[..k]).down.value;
    DownInPrefix(History(events), k, j, k);
    HistoryHolds(events, j);
  }

  lemma {:induction false} HistoryHolds(events: seq<Event>, j: nat)
    requires j < |events|
    ensures History(events)[j] == Seen(events[j], ActionAt(events, j))
  {
    HistoryInPrefix(events, j + 1);
    assert events[..j + 1][..j] == events[..j];
  }

  /** Without a press the key stays up. */
  lemma {:induction false} StaysUp(events: seq<Event>, i: nat, k: nat)
    requires i <= k <= |events| && After(events[..i]).down.None?
    requires forall j :: i <= j < k ==> events[j].kind != Press
    ensures After(events[..k]).down.None?
    decreases k - i
  {
    if i < k {
      assert events[..i + 1][..i] == events[..i];
      StaysUp(events, i + 1, k);
    }
  }

  /** One hold gives at most one long action: between two there is another press. */
  lemma OneLongPerPress(events: seq<Event>, i: nat, k: nat)
    requires i < k < |events| && ActionAt(events, i) == Long && ActionAt(events, k) == Long
    ensures exists j :: i < j < k && events[j].kind == Press
  {
    assert events[..i + 1][..i] == events[..i];
    if forall j :: i < j < k ==> events[j].kind != Press {
      StaysUp(events, i + 1, k);
    }
  }

  // ----- What presses and releases give -----

  lemma OneMore(events: seq<Event>, e: Event)
    ensures After(events + [e]) == Do(After(events), e).0
    ensures ActionAt(events + [e], |events|) == Do(After(events), e).1
  {
    assert (events + [e])[..|events|] == events;
  }

  /** A press and its release. */
  function Click(down: Time, up: Time): seq<Event> {
    [Event(Press, down), Event(Kind.Release, up)]
  }

  /** A click adds to the clicks before it that are in time. */
  lemma ClickCounts(before: seq<Event>, down: Time, up: Time)
    requires After(before).down.None? && !After(before).suppress && up < down + 3000
    requires After(before).clicks > 0 ==> up <= After(before).deadline.value
    ensures var k, all := After(before), before + Click(down, up);
            if k.clicks < 2 then
              After(all) == Key(k.clicks + 1, Some(up + 800), None, false) && ActionAt(all, |before| + 1) == Nothing
            else
              After(all) == RESTING && ActionAt(all, |before| + 1) == Triple
    ensures ActionAt(before + Click(down, up), |before|) == Nothing
  {
    var pressed := before + [Event(Press, down)];
    OneMore(before, Event(Press, down));
    OneMore(pressed, Event(Kind.Release, up));
    assert pressed + [Event(Kind.Release, up)] == before + Click(down, up);
    assert (before + Click(down, up))[..|before|] == pressed[..|before|];
  }

  /** Three clicks in time, without a poll between them, are a triple action: each is held for less
      than three seconds, and the second and third are released at most 800 ms after the one before. */
  lemma ThreeClicksAreTriple(before: seq<Event>, down: seq<Time>, up: seq<Time>)
    requires After(before) == RESTING && |down| == |up| == 3 && forall i :: 0 <= i < 3 ==> up[i] < down[i] + 3000
    requires up[1] <= up[0] + 800 && up[2] <= up[1] + 800
    ensures var all := before + Click(down[0], up[0]) + Click(down[1], up[1]) + Click(down[2], up[2]);
            ActionAt(all, |before| + 5) == Triple && After(all) == RESTING
  {
    ClickCounts(before, down[0], up[0]);
    var one := before + Click(down[0], up[0]);
    ClickCounts(one, down[1], up[1]);
    ClickCounts(one + Click(down[1], up[1]), down[2], up[2]);
  }

  /** One or two clicks are a single action at a poll, from 800 ms after the last release on. */
  lemma ClicksAreSingle(before: seq<Event>, down: Time, up: Time, now: Time)
    requires After(before).down.None? && !After(before).suppress && up < down + 3000 && After(before).clicks < 2
    requires After(before).clicks > 0 ==> up <= After(before).deadline.value
    ensures ActionAt(before + Click(down, up) + [Event(Kind.Poll, now)], |before| + 2) ==
            if now >= up + 800 then Single else Nothing
  {
    ClickCounts(before, down, up);
    OneMore(before + Click(down, up), Event(Kind.Poll, now));
  }

  /** A hold is a long action at a poll or a release, from three seconds after its press on, and never
      before. */
  lemma HoldIsLong(before: seq<Event>, down: Time, kind: Kind, now: Time)
    requires After(before) == RESTING && (kind.Poll? || kind.Release?)
    ensures ActionAt(before + [Event(Press, down)] + [Event(kind, now)], |before| + 1) ==
            if now >= down + 3000 then Long else Nothing
  {
    OneMore(before, Event(Press, down));
    OneMore(before + [Event(Press, down)], Event(kind, now));
  }

  /** A hold that was reported at a poll is not reported again at its release. */
  lemma HoldIsReportedOnce(before: seq<Event>, now: Time, up: Time)
    requires After(before).down.Some? && now >= After(before).down.value + 3000
    ensures var held := before + [Event(Kind.Poll, now)];
            && ActionAt(held + [Event(Kind.Release, up)], |held|) == Nothing
            && After(held + [Event(Kind.Release, up)]) == RESTING
  {
    OneMore(before, Event(Kind.Poll, now));
    OneMore(before + [Event(Kind.Poll, now)], Event(Kind.Release, up));
  }

  /** Nor if the press is repeated before it: what the rest of such a hold does is not counted. */
  lemma RepeatIsSuppressed(before: seq<Event>, now: Time, again: Time, up: Time)
    requires After(before).down.Some? && now >= After(before).down.value + 3000
    ensures var held := before + [Event(Kind.Poll, now)] + [Event(Press, again)];
            && ActionAt(held + [Event(Kind.Release, up)], |held|) == Nothing
            && After(held + [Event(Kind.Release, up)]) == RESTING
  {
    var polled := before + [Event(Kind.Poll, now)];
    OneMore(before, Event(Kind.Poll, now));
    OneMore(polled, Event(Press, again));
    OneMore(polled + [Event(Press, again)], Event(Kind.Release, up));
  }

  // ----- Conservation -----

  function Presses(events: seq<Event>): nat {
    if events == [] then 0
    else Presses(events[..|events| - 1]) + if events[|events| - 1].kind == Press then 1 else 0
  }

  /** What the actions reported so far are worth: a triple click is three presses. */
  function Worth(events: seq<Event>): nat {
    if events == [] then 0
    else Worth(events[..|events| - 1]) + match ActionAt(events, |events| - 1) {
      case Nothing => 0
      case Single | Long => 1
      case Triple => 3
    }
  }

  /** Presses counted or held, but not yet reported. */
  function Pending(k: Key): nat {
    k.clicks + if k.down.Some? then 1 else 0
  }

  /** How many presses the step throws away. */
  function Lost(k: Key, e: Event): nat {
    match e.kind
    case Press => if k.down.Some? then 1 else 0
    case Clear => Pending(k)
    case Release =>
      if k.down.None? then 0
      else if k.suppress then 1
      else if Held(k, e.at) || Late(k, e.at) then k.clicks
      else 0
    case Poll =>
      if Held(k, e.at) then k.clicks
      else if k.clicks > 0 && k.deadline.Some? && e.at >= k.deadline.value then Pending(k) - 1
      else 0
  }

  /** The steps that throw presses away: a repeated press; a clear while something is pending; a
      release that answers a press of a suppressed hold; a release that is late or long with clicks
      pending; a long action at a poll with clicks pending; a single action that stands for two
      clicks or forgets a held press. */
  predicate Drops(k: Key, e: Event) {
    match e.kind
    case Press => k.down.Some?
    case Clear => k.clicks > 0 || k.down.Some?
    case Release => k.down.Some? && (k.suppress || (k.clicks > 0 && (Held(k, e.at) || Late(k, e.at))))
    case Poll => k.clicks > 0 && (Held(k, e.at) || (k.deadline.Some? && e.at >= k.deadline.value && (k.clicks == 2 || k.down.Some?)))
  }

  function TotalLost(events: seq<Event>): nat {
    if events == [] then 0
    else
      var before := events[..|events| - 1];
      TotalLost(before) + Lost(After(before), events[|events| - 1])
  }

  predicate NeverDrops(events: seq<Event>) {
    forall i :: 0 <= i < |events| ==> !Drops(After(events[..i]), events[i])
  }

  lemma DropsExactly(k: Key, e: Event)
    requires Sound(k)
    ensures Lost(k, e) > 0 <==> Drops(k, e)
  {
  }

  /** Every press is reported, pending or lost, and none is counted twice, whatever the order and
      timing of the events. */
  lemma {:induction false} PressesAreConserved(events: seq<Event>)
    ensures Presses(events) == Worth(events) + Pending(After(events)) + TotalLost(events)
  {
    if events != [] {
      PressesAreConserved(events[..|events| - 1]);
    }
  }

  lemma NeverDropsSnoc(events: seq<Event>)
    requires events != []
    ensures var before := events[..|events| - 1];
            NeverDrops(events) <==> NeverDrops(before) && !Drops(After(before), events[|events| - 1])
  {
    var before := events[..|events| - 1];
    assert forall i | 0 <= i < |before| :: before[..i] == events[..i] && before[i] == events[i];
    if NeverDrops(before) && !Drops(After(before), events[|events| - 1]) {
      forall i | 0 <= i < |events| ensures !Drops(After(events[..i]), events[i]) {
        if i < |before| {
          assert !Drops(After(before[..i]), before[i]);
        }
      }
    }
  }

  lemma {:induction false} LosesExactly(events: seq<Event>)
    ensures TotalLost(events) == 0 <==> NeverDrops(events)
  {
    if events != [] {
      var before := events[..|events| - 1];
      LosesExactly(before);
      DropsExactly(After(before), events[|events| - 1]);
      NeverDropsSnoc(events);
    }
  }

  /** The actions and what is pending account for every press if and only if no step of the run is
      one of those that throw presses away. */
  lemma ConservedExactly(events: seq<Event>)
    ensures Presses(events) == Worth(events) + Pending(After(events)) <==> NeverDrops(events)
  {
    PressesAreConserved(events);
    LosesExactly(events);
  }

  /** No press is ever counted twice. */
  lemma NoPressCountsTwice(events: seq<Event>)
    ensures Worth(events) + Pending(After(events)) <= Presses(events)
  {
    PressesAreConserved(events);
  }

  /** A run with such a step: a click that was not polled in time is dropped by the next one. */
  lemma ClicksAreLost()
    ensures var late := [Event(Press, 0), Event(Release, 10), Event(Press, 900), Event(Release, 910)];
            After(late).clicks == 1 && Worth(late) == 0 && Presses(late) == 2
  {
    var late := [Event(Press, 0), Event(Release, 10), Event(Press, 900), Event(Release, 910)];
    assert late[..3][..2] == late[..2] && late[..2][..1] == late[..1] && late[..1][..0] == [];
    assert After(late[..1]) == Key(0, None, Some(0), false);
    assert After(late[..2]) == Key(1, Some(810), None, false);
    assert After(late[..3]) == Key(1, Some(810), Some(900), false);
    assert Presses(late[..1]) == 1 && Worth(late[..1]) == 0;
    assert Presses(late[..2]) == 1 && Worth(late[..2]) == 0;
    assert Presses(late[..3]) == 2 && Worth(late[..3]) == 0;
  }
}
