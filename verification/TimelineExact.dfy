/** Exactly which logs are drawn as they should be, whatever the order of their times. */
module TimelineExact {
  import opened Options
  import opened Timeline
  import opened TimelineProofs

  // -------------------------------------------------------------------------
  // The changes that are drawn
  // -------------------------------------------------------------------------

  // The changes that change the state, at the instants inside the window where they are drawn. A change to
  // the state the node is in already is none.
  function Kept(changes: seq<Change>, w: Window): seq<Change> {
    if changes == [] then []
    else
      var before, c := changes[..|changes| - 1], changes[|changes| - 1];
      Kept(before, w) + (if c.state == LastState(before) then [] else [Change(c.state, w.Clamp(c.at))])
  }

  // The changes of a node and the end of the view.
  function Marks(log: SubLog, id: NodeId, w: Window): seq<Change> {
    Kept(AllChanges(log, id, w), w) + [Change(None, w.end)]
  }

  // From the mark at `i` to the next one time goes on.
  predicate Rises(xs: seq<Change>, i: int) {
    0 <= i < |xs| - 1 && xs[i].at < xs[i + 1].at
  }

  // A stretch of some length with a known state.
  predicate Stretch(xs: seq<Change>, i: int) {
    Rises(xs, i) && xs[i].state.Some?
  }

  function SegmentAt(xs: seq<Change>, i: int): Segment
    requires Stretch(xs, i)
  {
    Segment(xs[i].at, xs[i + 1].at, xs[i].state.value)
  }

  // No stretch begins before an earlier one has ended.
  ghost predicate InTurn(xs: seq<Change>) {
    forall i, j :: i < j ==> TurnKept(xs, i, j)
  }

  predicate TurnKept(xs: seq<Change>, i: int, j: int) {
    Stretch(xs, i) && Stretch(xs, j) ==> xs[i + 1].at <= xs[j].at
  }

  // Nor does time go on over an earlier stretch while the state is unknown.
  ghost predicate Clean(xs: seq<Change>) {
    forall i, j :: i < j ==> KeptClear(xs, i, j)
  }

  predicate KeptClear(xs: seq<Change>, i: int, j: int) {
    Stretch(xs, i) && Rises(xs, j) ==>
      xs[i + 1].at <= xs[j].at || (xs[j].state.None? && xs[j + 1].at <= xs[i].at)
  }

  // Time goes on and later goes back.
  predicate Turns(xs: seq<Change>) {
    exists i, j :: 0 <= i < j < |xs| && Rises(xs, i) && Falls(xs, j)
  }

  predicate Falls(xs: seq<Change>, j: int) {
    0 <= j < |xs| - 1 && xs[j + 1].at < xs[j].at
  }

  // -------------------------------------------------------------------------
  // The segments are the stretches
  // -------------------------------------------------------------------------

  function Stroke(p: Change, q: Change): seq<Segment> {
    if p.state.Some? && p.at < q.at then [Segment(p.at, q.at, p.state.value)] else []
  }

  function Strokes(xs: seq<Change>): seq<Segment> {
    if |xs| < 2 then [] else Strokes(xs[..|xs| - 1]) + Stroke(xs[|xs| - 2], xs[|xs| - 1])
  }

  lemma StrokesSnoc(xs: seq<Change>, q: Change)
    ensures Strokes(xs + [q]) == if xs == [] then [] else Strokes(xs) + Stroke(xs[|xs| - 1], q)
  {
    assert (xs + [q])[..|xs|] == xs;
  }

  lemma KeptSnoc(changes: seq<Change>, c: Change, w: Window)
    ensures Kept(changes + [c], w) ==
            Kept(changes, w) + (if c.state == LastState(changes) then [] else [Change(c.state, w.Clamp(c.at))])
  {
    assert (changes + [c])[..|changes|] == changes;
  }

  lemma {:induction false} KeptState(changes: seq<Change>, w: Window)
    ensures LastState(Kept(changes, w)) == LastState(changes)
  {
    if changes != [] {
      KeptState(changes[..|changes| - 1], w);
    }
  }

  // The record has drawn the stretches so far, and is in the state of the last mark since then.
  ghost predicate Follows(n: Running, xs: seq<Change>) {
    && n.line.segments == Strokes(xs) && n.state == LastState(xs)
    && (xs != [] ==> n.since == xs[|xs| - 1].at)
  }

  lemma SetStateFollows(n: Running, changes: seq<Change>, c: Change, w: Window)
    requires Follows(n, Kept(changes, w))
    ensures Follows(SetState(n, c.state, c.at, w), Kept(changes + [c], w))
  {
    var xs, q := Kept(changes, w), Change(c.state, w.Clamp(c.at));
    KeptSnoc(changes, c, w);
    KeptState(changes, w);
    if c.state == n.state {
      assert Kept(changes + [c], w) == xs;
    } else {
      StrokesSnoc(xs, q);
    }
  }

  lemma StepFollows(n: Running, before: seq<Change>, e: SubEvent, w: Window)
    requires Follows(n, Kept(before, w))
    ensures Follows(Step(n, e, w), Kept(before + ChangesIn(e, n.line.nodeId, w), w))
  {
    var cs := ChangesIn(e, n.line.nodeId, w);
    StepDrawsChanges(n, e, w);
    if |cs| == 0 {
      assert before + cs == before;
    } else if |cs| == 1 {
      assert before + cs == before + [cs[0]];
      SetStateFollows(n, before, cs[0], w);
    } else {
      assert before + cs == (before + [cs[0]]) + [cs[1]];
      SetStateFollows(n, before, cs[0], w);
      SetStateFollows(SetState(n, cs[0].state, cs[0].at, w), before + [cs[0]], cs[1], w);
    }
  }

  lemma {:induction false} ReplayFollows(events: seq<SubEvent>, id: NodeId, w: Window)
    ensures Follows(Replay(events, id, w), Kept(ChangesOf(events, id, w), w))
  {
    if events != [] {
      ReplayFollows(events[..|events| - 1], id, w);
      ReplayKeepsId(events[..|events| - 1], id, w);
      StepFollows(Replay(events[..|events| - 1], id, w), ChangesOf(events[..|events| - 1], id, w),
        events[|events| - 1], w);
    }
  }

  lemma SilenceFollows(log: SubLog, id: NodeId, w: Window)
    ensures Follows(DrawSilence(Replay(log.events, id, w), log, w), Kept(AllChanges(log, id, w), w))
  {
    var changes := ChangesOf(log.events, id, w);
    ReplayFollows(log.events, id, w);
    KeptState(changes, w);
    if WentSilent(log, w) && LastState(changes) != None {
      SetStateFollows(Replay(log.events, id, w), changes, Change(Some(Off), log.lastAlive.value), w);
    }
  }

  // Closing the record at the end of the view draws the last stretch.
  lemma ClosingStroke(n: Running, xs: seq<Change>, w: Window)
    requires Follows(n, xs)
    ensures SetState(n, None, w.end, w).line.segments == Strokes(xs + [Change(None, w.end)])
  {
    StrokesSnoc(xs, Change(None, w.end));
    assert w.Clamp(w.end) == w.end;
  }

  // For every log, the segments drawn are the stretches between the marks.
  lemma SegmentsAreStretches(log: SubLog, id: NodeId, w: Window)
    ensures TimelineOf(log, id, w).segments == Strokes(Marks(log, id, w))
  {
    SilenceFollows(log, id, w);
    ClosingStroke(DrawSilence(Replay(log.events, id, w), log, w), Kept(AllChanges(log, id, w), w), w);
  }

  lemma StretchSnoc(xs: seq<Change>, q: Change, i: int)
    ensures Rises(xs + [q], i) <==> Rises(xs, i) || (xs != [] && i == |xs| - 1 && xs[i].at < q.at)
    ensures Stretch(xs + [q], i) <==>
            Stretch(xs, i) || (xs != [] && i == |xs| - 1 && xs[i].at < q.at && xs[i].state.Some?)
    ensures Stretch(xs, i) ==> SegmentAt(xs + [q], i) == SegmentAt(xs, i)
  {
  }

  lemma {:induction false} StrokesAre(xs: seq<Change>, s: Segment)
    ensures s in Strokes(xs) <==> exists i :: Stretch(xs, i) && s == SegmentAt(xs, i)
  {
    if |xs| >= 2 {
      var init, q := xs[..|xs| - 1], xs[|xs| - 1];
      assert xs == init + [q];
      StrokesAre(init, s);
      forall i ensures Stretch(init, i) ==> Stretch(xs, i) && SegmentAt(xs, i) == SegmentAt(init, i) {
        StretchSnoc(init, q, i);
      }
      forall i ensures Stretch(xs, i) ==> Stretch(init, i) || i == |xs| - 2 {
        StretchSnoc(init, q, i);
      }
      if s in Stroke(init[|init| - 1], q) {
        assert Stretch(xs, |xs| - 2) && s == SegmentAt(xs, |xs| - 2);
      }
    }
  }

  // -------------------------------------------------------------------------
  // In order and disjoint
  // -------------------------------------------------------------------------

  // A mark is inside the window, if the window has any length.
  predicate Inside(xs: seq<Change>, w: Window) {
    forall i :: 0 <= i < |xs| ==> xs[i].at <= w.end && (w.dayStart <= xs[i].at || xs[i].at == w.end)
  }

  lemma {:induction false} KeptInside(changes: seq<Change>, w: Window)
    ensures Inside(Kept(changes, w), w)
  {
    if changes != [] {
      KeptInside(changes[..|changes| - 1], w);
    }
  }

  lemma MarksInside(log: SubLog, id: NodeId, w: Window)
    ensures Inside(Marks(log, id, w), w)
  {
    KeptInside(AllChanges(log, id, w), w);
  }

  lemma LaidSnoc(segments: seq<Segment>, x: Segment, w: Window)
    ensures Laid(segments + [x], w) <==>
            Laid(segments, w) && w.dayStart <= x.from < x.to <= w.end && forall s :: s in segments ==> s.to <= x.from
  {
    var all := segments + [x];
    if Laid(all, w) {
      assert forall i :: 0 <= i < |segments| ==> all[i] == segments[i];
      assert all[|segments|] == x;
    }
  }

  lemma InTurnSnoc(xs: seq<Change>, q: Change)
    requires xs != []
    ensures InTurn(xs + [q]) <==>
            InTurn(xs) && (Stretch(xs + [q], |xs| - 1) ==>
                             forall i :: Stretch(xs, i) ==> xs[i + 1].at <= xs[|xs| - 1].at)
  {
    var all := xs + [q];
    forall i ensures Stretch(all, i) <==> Stretch(xs, i) || (i == |xs| - 1 && Stretch(all, i)) {
      StretchSnoc(xs, q, i);
    }
    assert forall i :: 0 <= i < |xs| ==> all[i] == xs[i];
    forall i, j | i < j ensures TurnKept(xs, i, j) <== TurnKept(all, i, j) {
      assert Stretch(xs, j) ==> Stretch(all, i) == Stretch(xs, i);
    }
    forall i | Stretch(xs, i) && Stretch(all, |xs| - 1) && InTurn(all) ensures xs[i + 1].at <= xs[|xs| - 1].at {
      assert TurnKept(all, i, |xs| - 1);
    }
    if InTurn(xs) && (Stretch(all, |xs| - 1) ==> forall i :: Stretch(xs, i) ==> xs[i + 1].at <= xs[|xs| - 1].at) {
      forall i, j | i < j ensures TurnKept(all, i, j) {
        assert TurnKept(xs, i, j);
      }
    }
  }

  lemma {:induction false} LaidIffInTurn(xs: seq<Change>, w: Window)
    requires Inside(xs, w)
    ensures Laid(Strokes(xs), w) <==> InTurn(xs)
  {
    if |xs| >= 2 {
      var init, q := xs[..|xs| - 1], xs[|xs| - 1];
      assert xs == init + [q];
      LaidIffInTurn(init, w);
      InTurnSnoc(init, q);
      if Stretch(xs, |xs| - 2) {
        LaidSnoc(Strokes(init), SegmentAt(xs, |xs| - 2), w);
        EndsAre(init, init[|init| - 1].at);
      } else {
        assert Strokes(xs) == Strokes(init);
      }
    }
  }

  lemma EndsAre(xs: seq<Change>, bound: Time)
    ensures (forall s :: s in Strokes(xs) ==> s.to <= bound) <==> (forall i :: Stretch(xs, i) ==> xs[i + 1].at <= bound)
  {
    forall s ensures s in Strokes(xs) <==> exists i :: Stretch(xs, i) && s == SegmentAt(xs, i) {
      StrokesAre(xs, s);
    }
    forall i | Stretch(xs, i) ensures SegmentAt(xs, i) in Strokes(xs) && SegmentAt(xs, i).to == xs[i + 1].at {
      StrokesAre(xs, SegmentAt(xs, i));
    }
  }

  // For every log: the segments are in order, disjoint and inside the window exactly when no stretch with a
  // state begins before an earlier one has ended.
  lemma LaidExactly(log: SubLog, id: NodeId, w: Window)
    ensures Laid(TimelineOf(log, id, w).segments, w) <==> InTurn(Marks(log, id, w))
  {
    SegmentsAreStretches(log, id, w);
    MarksInside(log, id, w);
    LaidIffInTurn(Marks(log, id, w), w);
  }

  // -------------------------------------------------------------------------
  // A node that is never removed
  // -------------------------------------------------------------------------

  // Between an instant and a later one time has gone on to at least the later one.
  lemma {:induction false} LastRise(xs: seq<Change>, i: nat, j: nat) returns (k: nat)
    requires i < j < |xs| && xs[i].at < xs[j].at
    ensures i <= k < j && Rises(xs, k) && xs[k + 1].at >= xs[j].at
    decreases j
  {
    if xs[j - 1].at < xs[j].at {
      k := j - 1;
    } else {
      k := LastRise(xs, i, j - 1);
    }
  }

  // And from no later than the earlier one.
  lemma {:induction false} FirstRise(xs: seq<Change>, i: nat, j: nat) returns (k: nat)
    requires i < j < |xs| && xs[i].at < xs[j].at
    ensures i <= k < j && Rises(xs, k) && xs[k].at <= xs[i].at
    decreases j - i
  {
    if xs[i].at < xs[i + 1].at {
      k := i;
    } else {
      k := FirstRise(xs, i + 1, j);
    }
  }

  lemma {:induction false} NoFallKeepsOrder(xs: seq<Change>, i: nat, j: nat)
    requires i <= j < |xs| && forall k :: i <= k < j ==> !Falls(xs, k)
    ensures xs[i].at <= xs[j].at
    decreases j
  {
    if i < j {
      assert !Falls(xs, j - 1);
      NoFallKeepsOrder(xs, i, j - 1);
    }
  }

  // All but the last mark have a state, and none is later than the last.
  ghost predicate AlwaysKnown(xs: seq<Change>) {
    && (forall i :: 0 <= i < |xs| - 1 ==> xs[i].state.Some?)
    && (forall i :: 0 <= i < |xs| ==> xs[i].at <= xs[|xs| - 1].at)
  }

  lemma TurnOverlaps(xs: seq<Change>, i: nat, j: nat)
    requires AlwaysKnown(xs) && i < j && Rises(xs, i) && Falls(xs, j)
    ensures !InTurn(xs)
  {
    var rise := i;
    if xs[i].at < xs[j].at {
      rise := LastRise(xs, i, j);
    }
    assert rise < j && xs[rise + 1].at >= xs[j].at > xs[j + 1].at;
    assert xs[j + 1].at < xs[j].at <= xs[|xs| - 1].at;
    var later := FirstRise(xs, j + 1, |xs| - 1);
    assert !TurnKept(xs, rise, later);
  }

  lemma InTurnIffNoTurn(xs: seq<Change>)
    requires AlwaysKnown(xs)
    ensures InTurn(xs) <==> !Turns(xs)
  {
    if Turns(xs) {
      var i, j :| 0 <= i < j < |xs| && Rises(xs, i) && Falls(xs, j);
      TurnOverlaps(xs, i, j);
    } else {
      forall i, j | i < j ensures TurnKept(xs, i, j) {
        if Stretch(xs, i) && Stretch(xs, j) {
          assert forall k :: i < k < |xs| ==> !Falls(xs, k);
          NoFallKeepsOrder(xs, i + 1, j);
        }
      }
    }
  }

  lemma {:induction false} KeptKnown(changes: seq<Change>, w: Window)
    requires NeverRemoved(changes)
    ensures forall i :: 0 <= i < |Kept(changes, w)| ==> Kept(changes, w)[i].state.Some?
  {
    if changes != [] {
      var init := changes[..|changes| - 1];
      assert forall i :: 0 <= i < |init| ==> init[i] == changes[i];
      KeptKnown(init, w);
    }
  }

  lemma EndIsNoTurn(xs: seq<Change>, q: Change)
    requires forall i :: 0 <= i < |xs| ==> xs[i].at <= q.at
    ensures Turns(xs + [q]) <==> Turns(xs)
  {
    var all := xs + [q];
    assert forall i :: 0 <= i < |xs| ==> all[i] == xs[i];
    assert forall j :: Falls(all, j) ==> Falls(xs, j);
    if Turns(all) {
      var i, j :| 0 <= i < j < |all| && Rises(all, i) && Falls(all, j);
      assert Rises(xs, i) && Falls(xs, j);
    }
    if Turns(xs) {
      var i, j :| 0 <= i < j < |xs| && Rises(xs, i) && Falls(xs, j);
      assert Rises(all, i) && Falls(all, j);
    }
  }

  // For a node never removed, the segments are in order and disjoint exactly when the instants at which its
  // state changes do not go on and later go back.
  lemma OverlapsExactly(log: SubLog, id: NodeId, w: Window)
    requires NeverRemoved(AllChanges(log, id, w))
    ensures Laid(TimelineOf(log, id, w).segments, w) <==> !Turns(Kept(AllChanges(log, id, w), w))
  {
    var xs := Kept(AllChanges(log, id, w), w);
    var all := xs + [Change(None, w.end)];
    LaidExactly(log, id, w);
    KeptKnown(AllChanges(log, id, w), w);
    KeptInside(AllChanges(log, id, w), w);
    assert forall i :: 0 <= i < |xs| ==> all[i] == xs[i];
    InTurnIffNoTurn(all);
    EndIsNoTurn(xs, Change(None, w.end));
  }

  // -------------------------------------------------------------------------
  // Drawn as it should be
  // -------------------------------------------------------------------------

  // The last mark at or before t, if there is one.
  lemma {:induction false} StateAtLast(xs: seq<Change>, t: Time) returns (q: int)
    ensures -1 <= q < |xs| && (q >= 0 ==> xs[q].at <= t) && forall i :: q < i < |xs| ==> xs[i].at > t
    ensures StateAt(xs, t) == if q >= 0 then xs[q].state else None
  {
    if xs == [] {
      q := -1;
    } else if xs[|xs| - 1].at <= t {
      q := |xs| - 1;
    } else {
      q := StateAtLast(xs[..|xs| - 1], t);
    }
  }

  // At every instant of the window the segments show the state of the last of the changes by then.
  ghost predicate ShowsAll(segments: seq<Segment>, changes: seq<Change>, w: Window) {
    forall t :: w.dayStart <= t < w.end ==> Shows(segments, t, StateAt(changes, t))
  }

  // A stretch that holds an instant begins at the last mark by then.
  lemma HolderIsLast(xs: seq<Change>, t: Time, q: int, i: int)
    requires Clean(xs) && Rises(xs, q) && xs[q].at <= t < xs[q + 1].at
    requires Stretch(xs, i) && i <= q && SegmentAt(xs, i).Holds(t)
    ensures i == q
  {
    assert i < q ==> KeptClear(xs, i, q);
  }

  lemma StretchIsDrawn(xs: seq<Change>, i: int) returns (k: nat)
    requires Stretch(xs, i)
    ensures k < |Strokes(xs)| && Strokes(xs)[k] == SegmentAt(xs, i)
  {
    StrokesAre(xs, SegmentAt(xs, i));
    k :| 0 <= k < |Strokes(xs)| && Strokes(xs)[k] == SegmentAt(xs, i);
  }

  lemma CleanShows(xs: seq<Change>, t: Time)
    requires Clean(xs) && xs != [] && t < xs[|xs| - 1].at
    ensures Shows(Strokes(xs), t, StateAt(xs, t))
  {
    var q := StateAtLast(xs, t);
    assert q >= 0 ==> Rises(xs, q);
    forall k | 0 <= k < |Strokes(xs)| && Strokes(xs)[k].Holds(t)
      ensures StateAt(xs, t) == Some(Strokes(xs)[k].state)
    {
      StrokesAre(xs, Strokes(xs)[k]);
      var i :| Stretch(xs, i) && Strokes(xs)[k] == SegmentAt(xs, i);
      HolderIsLast(xs, t, q, i);
    }
    if q >= 0 && xs[q].state.Some? {
      var k := StretchIsDrawn(xs, q);
      assert Strokes(xs)[k].Holds(t);
    }
  }

  lemma CleanIsDrawn(xs: seq<Change>, w: Window)
    requires Inside(xs, w) && Clean(xs) && xs != [] && xs[|xs| - 1].at == w.end
    ensures Laid(Strokes(xs), w) && ShowsAll(Strokes(xs), xs, w)
  {
    forall i, j | i < j ensures TurnKept(xs, i, j) {
      assert KeptClear(xs, i, j);
    }
    LaidIffInTurn(xs, w);
    forall t | w.dayStart <= t < w.end ensures Shows(Strokes(xs), t, StateAt(xs, t)) {
      CleanShows(xs, t);
    }
  }

  // A stretch that holds an instant is shown there, and no other is if the segments are disjoint.
  lemma HolderIsShown(xs: seq<Change>, i: int, t: Time)
    requires Stretch(xs, i) && SegmentAt(xs, i).Holds(t) && Shows(Strokes(xs), t, StateAt(xs, t))
    ensures StateAt(xs, t) == xs[i].state
  {
    var k := StretchIsDrawn(xs, i);
    assert Strokes(xs)[k].Holds(t);
  }

  lemma OnlyOneHolds(xs: seq<Change>, w: Window, i: int, j: int, t: Time)
    requires Inside(xs, w) && Laid(Strokes(xs), w) && i < j && Stretch(xs, i) && Stretch(xs, j)
    ensures !(SegmentAt(xs, i).Holds(t) && SegmentAt(xs, j).Holds(t))
  {
    LaidIffInTurn(xs, w);
    assert TurnKept(xs, i, j);
  }

  // Where two rises meet, the second one does not begin with an unknown state.
  lemma ShownIsKnown(xs: seq<Change>, w: Window, i: int, j: int, t: Time)
    requires Inside(xs, w) && Laid(Strokes(xs), w) && xs != [] && xs[|xs| - 1].at == w.end
    requires Shows(Strokes(xs), t, StateAt(xs, t)) && t < w.end
    requires i < j && Stretch(xs, i) && Rises(xs, j) && SegmentAt(xs, i).Holds(t) && xs[j].at <= t < xs[j + 1].at
    ensures xs[j].state.Some?
  {
    var q := StateAtLast(xs, t);
    HolderIsShown(xs, i, t);
    assert j <= q && Rises(xs, q);
    if j < q {
      OnlyOneHolds(xs, w, i, q, t);
    }
  }

  lemma DrawnIsClean(xs: seq<Change>, w: Window)
    requires Inside(xs, w) && Laid(Strokes(xs), w) && xs != [] && xs[|xs| - 1].at == w.end
    requires ShowsAll(Strokes(xs), xs, w)
    ensures Clean(xs)
  {
    LaidIffInTurn(xs, w);
    forall i, j | i < j ensures KeptClear(xs, i, j) {
      assert TurnKept(xs, i, j);
      if Stretch(xs, i) && Rises(xs, j) && xs[j].state.None? {
        var t := Max(xs[i].at, xs[j].at);
        if t < xs[i + 1].at && t < xs[j + 1].at {
          ShownIsKnown(xs, w, i, j, t);
        }
      }
    }
  }

  // The end of the view changes nothing before it.
  lemma EndShowsNothing(segments: seq<Segment>, kept: seq<Change>, w: Window)
    ensures ShowsAll(segments, kept + [Change(None, w.end)], w) <==> ShowsAll(segments, kept, w)
  {
    forall t | t < w.end ensures StateAt(kept + [Change(None, w.end)], t) == StateAt(kept, t) {
      StateAtSnoc(kept, Change(None, w.end), t);
    }
  }

  // For every log: the segments are in order, disjoint and show at every instant the state of the last change
  // of state by then, exactly when no stretch begins before an earlier one has ended, nor goes on over it
  // while the state is unknown.
  lemma DrawnExactly(log: SubLog, id: NodeId, w: Window)
    ensures var segments := TimelineOf(log, id, w).segments;
            Laid(segments, w) && ShowsAll(segments, Kept(AllChanges(log, id, w), w), w) <==> Clean(Marks(log, id, w))
  {
    var xs := Marks(log, id, w);
    SegmentsAreStretches(log, id, w);
    MarksInside(log, id, w);
    EndShowsNothing(Strokes(xs), Kept(AllChanges(log, id, w), w), w);
    if Clean(xs) {
      CleanIsDrawn(xs, w);
    }
    if Laid(Strokes(xs), w) && ShowsAll(Strokes(xs), xs, w) {
      DrawnIsClean(xs, w);
    }
  }

  // In order, leaving out the changes that change nothing shows the same states.
  lemma {:induction false} KeptShowsTheSame(changes: seq<Change>, w: Window, t: Time)
    requires InOrder(changes) && w.dayStart <= t < w.end
    ensures StateAt(Kept(changes, w), t) == StateAt(changes, t)
  {
    if changes != [] {
      var before, c := changes[..|changes| - 1], changes[|changes| - 1];
      assert changes == before + [c];
      InOrderPrefix(before, [c]);
      KeptShowsTheSame(before, w, t);
      assert w.Clamp(c.at) <= t <==> c.at <= t;
      if c.state == LastState(before) {
        if c.at <= t {
          assert forall i :: 0 <= i < |before| ==> before[i] == changes[i] && changes[i].at <= c.at;
          StateWhenEarly(before, t);
        }
        assert Kept(changes, w) == Kept(before, w);
      } else {
        StateAtSnoc(Kept(before, w), Change(c.state, w.Clamp(c.at)), t);
      }
    }
  }
}
