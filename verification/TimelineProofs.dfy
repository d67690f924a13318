/** What the subscription timeline promises: the proofs about the replay of Timeline.dfy. */
module TimelineProofs {
  import opened Options
  import opened Timeline

  // -------------------------------------------------------------------------
  // Every log: totals, outages and counters
  // -------------------------------------------------------------------------

  predicate Totalled(line: NodeTimeline) {
    && line.upSeconds == Length(line.segments, Up)
    && line.downSeconds == Length(line.segments, Down)
  }

  predicate OutagesMatch(line: NodeTimeline) {
    && OutageSpans(line.outages) == DownSpans(line.segments)
    && OutageSeconds(line.outages) == Length(line.segments, Down)
  }

  // What every record keeps, whatever the log.
  ghost predicate Books(n: Running) {
    && Totalled(n.line) && OutagesMatch(n.line)
    && (n.outage.Some? <==> n.state == Some(Down))
    && (n.outage.Some? ==> n.outage.value.from == n.since)
  }

  lemma LengthSnoc(segments: seq<Segment>, x: Segment, state: SegmentState)
    ensures Length(segments + [x], state) ==
            Length(segments, state) + (if x.state == state then x.to - x.from else 0.0)
    ensures DownSpans(segments + [x]) == DownSpans(segments) + (if x.state == Down then [(x.from, x.to)] else [])
  {
    assert (segments + [x])[..|segments|] == segments;
  }

  lemma OutageSnoc(outages: seq<Outage>, o: Outage)
    ensures OutageSeconds(outages + [o]) == OutageSeconds(outages) + (o.to - o.from)
    ensures OutageSpans(outages + [o]) == OutageSpans(outages) + [(o.from, o.to)]
  {
    assert (outages + [o])[..|outages|] == outages;
  }

  lemma CloseKeepsBooks(n: Running, ts: Time)
    requires Books(n)
    ensures Totalled(Close(n, ts)) && OutagesMatch(Close(n, ts))
  {
    if n.state.Some? && ts > n.since {
      var drawn := Segment(n.since, ts, n.state.value);
      LengthSnoc(n.line.segments, drawn, Up);
      LengthSnoc(n.line.segments, drawn, Down);
      if n.outage.Some? {
        OutageSnoc(n.line.outages, n.outage.value.(to := ts));
      }
    }
  }

  lemma SetStateKeepsBooks(n: Running, state: Option<SegmentState>, at: Time, w: Window)
    requires Books(n)
    ensures Books(SetState(n, state, at, w))
  {
    CloseKeepsBooks(n, w.Clamp(at));
  }

  lemma {:induction false} ReplayKeepsBooks(events: seq<SubEvent>, id: NodeId, w: Window)
    ensures Books(Replay(events, id, w)) && Replay(events, id, w).line.nodeId == id
  {
    if events != [] {
      var before := events[..|events| - 1];
      var e := events[|events| - 1];
      ReplayKeepsBooks(before, id, w);
      var n := Replay(before, id, w);
      match e.kind
      case DayStart => SetStateKeepsBooks(n, Some(Down), e.ts, w);
      case UpAtStart => SetStateKeepsBooks(n, Some(Up), e.ts, w);
      case Established => SetStateKeepsBooks(n, Some(Up), e.ts, w);
      case Terminated => SetStateKeepsBooks(CountDrop(n), Some(Down), e.ts, w);
      case Failed => SetStateKeepsBooks(n, Some(Down), e.ts, w);
      case Removed => SetStateKeepsBooks(n, None, e.ts, w);
      case Boot =>
        SetStateKeepsBooks(n, Some(Off), OffSince(e, w), w);
        SetStateKeepsBooks(SetState(n, Some(Off), OffSince(e, w), w), Some(Down), e.ts, w);
    }
  }

  // The totals are the exact sums of the drawn segments, and the outages are the down segments: one
  // for one, in order, with the same end points. No assumption on the log.
  lemma TotalsAndOutages(log: SubLog, id: NodeId, w: Window)
    ensures var line := TimelineOf(log, id, w);
            && line.nodeId == id
            && line.upSeconds == Length(line.segments, Up)
            && line.downSeconds == Length(line.segments, Down)
            && OutageSpans(line.outages) == DownSpans(line.segments)
            && OutageSeconds(line.outages) == line.downSeconds
  {
    ReplayKeepsBooks(log.events, id, w);
    var n := Replay(log.events, id, w);
    if WentSilent(log, w) {
      SetStateKeepsBooks(n, Some(Off), log.lastAlive.value, w);
    }
    SetStateKeepsBooks(DrawSilence(n, log, w), None, w.end, w);
  }

  // Drops never exceed the subscriptions the log opens for the node, and the failure count is exact.
  lemma {:induction false} DropsAndFailures(events: seq<SubEvent>, id: NodeId, w: Window)
    ensures var n := Replay(events, id, w);
            && n.line.nodeId == id
            && n.line.drops + (if n.state == Some(Up) then 1 else 0)
               <= CountWhere(events, e => OpensSubscription(e, id))
            && n.line.failures == CountWhere(events, (e: SubEvent) => e.kind == Failed && e.nodeId == Some(id))
  {
    if events != [] {
      DropsAndFailures(events[..|events| - 1], id, w);
    }
  }

  lemma DropsAndFailuresOf(log: SubLog, id: NodeId, w: Window)
    ensures var line := TimelineOf(log, id, w);
            && line.drops <= CountWhere(log.events, e => OpensSubscription(e, id))
            && line.failures == CountWhere(log.events, (e: SubEvent) => e.kind == Failed && e.nodeId == Some(id))
  {
    DropsAndFailures(log.events, id, w);
  }

  // The subscriptions of the node that ended: its terminations when its last change was to up.
  function Drops(events: seq<SubEvent>, id: NodeId, w: Window): nat {
    if events == [] then 0
    else
      var before, e := events[..|events| - 1], events[|events| - 1];
      var dropped := e.kind == Terminated && e.nodeId == Some(id) && LastState(ChangesOf(before, id, w)) == Some(Up);
      Drops(before, id, w) + (if dropped then 1 else 0)
  }

  lemma StepState(n: Running, e: SubEvent, w: Window)
    ensures var cs := ChangesIn(e, n.line.nodeId, w);
            Step(n, e, w).state == if cs == [] then n.state else LastState(cs)
    ensures Step(n, e, w).line.nodeId == n.line.nodeId
    ensures var dropped := e.kind == Terminated && e.nodeId == Some(n.line.nodeId) && n.state == Some(Up);
            Step(n, e, w).line.drops == n.line.drops + (if dropped then 1 else 0)
  {
  }

  lemma LastStateMore(a: seq<Change>, b: seq<Change>)
    ensures LastState(a + b) == if b == [] then LastState(a) else LastState(b)
  {
    assert a + [] == a;
  }

  lemma {:induction false} DropsCounted(events: seq<SubEvent>, id: NodeId, w: Window)
    ensures var n := Replay(events, id, w);
            && n.line.nodeId == id && n.line.drops == Drops(events, id, w)
            && n.state == LastState(ChangesOf(events, id, w))
  {
    if events != [] {
      var before, e := events[..|events| - 1], events[|events| - 1];
      DropsCounted(before, id, w);
      StepState(Replay(before, id, w), e, w);
      LastStateMore(ChangesOf(before, id, w), ChangesIn(e, id, w));
    }
  }

  lemma DropsAreExact(log: SubLog, id: NodeId, w: Window)
    ensures TimelineOf(log, id, w).drops == Drops(log.events, id, w)
  {
    DropsCounted(log.events, id, w);
  }

  // -------------------------------------------------------------------------
  // Every log: one node's timeline depends only on its own and the broadcast events
  // -------------------------------------------------------------------------

  predicate Concerns(e: SubEvent, id: NodeId) {
    e.kind == DayStart || e.kind == Boot || e.nodeId == Some(id)
  }

  function Restrict(events: seq<SubEvent>, id: NodeId): seq<SubEvent> {
    if events == [] then []
    else
      var e := events[|events| - 1];
      Restrict(events[..|events| - 1], id) + (if Concerns(e, id) then [e] else [])
  }

  lemma {:induction false} ReplayRestricted(events: seq<SubEvent>, id: NodeId, w: Window)
    ensures Replay(Restrict(events, id), id, w) == Replay(events, id, w)
    ensures Replay(events, id, w).line.nodeId == id
  {
    if events != [] {
      var e := events[|events| - 1];
      var kept := Restrict(events[..|events| - 1], id);
      ReplayRestricted(events[..|events| - 1], id, w);
      if Concerns(e, id) {
        assert Restrict(events, id)[..|kept|] == kept;
      } else {
        assert Restrict(events, id) == kept;
      }
    }
  }

  lemma OtherNodesDoNotMatter(log: SubLog, id: NodeId, w: Window)
    ensures TimelineOf(log.(events := Restrict(log.events, id)), id, w) == TimelineOf(log, id, w)
  {
    ReplayRestricted(log.events, id, w);
  }

  // -------------------------------------------------------------------------
  // Logs whose effective times never go backwards
  // -------------------------------------------------------------------------

  lemma TimesSplit(earlier: seq<Time>, more: seq<Time>, bound: Time)
    requires NonDecreasing(earlier + more) && more != []
    requires forall i :: 0 <= i < |earlier + more| ==> (earlier + more)[i] <= bound
    ensures NonDecreasing(earlier) && NonDecreasing(more)
    ensures forall i :: 0 <= i < |earlier| ==> earlier[i] <= more[0]
    ensures forall i :: 0 <= i < |more| ==> more[i] <= bound
  {
    var all := earlier + more;
    assert forall i :: 0 <= i < |earlier| ==> all[i] == earlier[i];
    assert forall i :: 0 <= i < |more| ==> all[|earlier| + i] == more[i];
  }

  lemma EventTimed(e: SubEvent, id: NodeId, w: Window, bound: Time)
    requires NonDecreasing(TimesIn(e, w))
    requires forall i :: 0 <= i < |TimesIn(e, w)| ==> TimesIn(e, w)[i] <= bound
    ensures InOrder(ChangesIn(e, id, w))
    ensures forall i :: 0 <= i < |ChangesIn(e, id, w)| ==> TimesIn(e, w)[0] <= ChangesIn(e, id, w)[i].at <= bound
  {
    var ts := TimesIn(e, w);
    assert ts[0] <= bound;
    if e.kind == Boot {
      assert ts[0] <= ts[1] <= bound;
    }
  }

  lemma InOrderMore(before: seq<Change>, more: seq<Change>, bound: Time)
    requires InOrder(before) && InOrder(more)
    requires forall i :: 0 <= i < |before| ==> before[i].at <= bound
    requires forall i :: 0 <= i < |more| ==> bound <= more[i].at
    ensures InOrder(before + more)
  {
  }

  lemma {:induction false} ChangesAreTimed(events: seq<SubEvent>, id: NodeId, w: Window, bound: Time)
    requires NonDecreasing(EffectiveTimes(events, w))
    requires forall i :: 0 <= i < |EffectiveTimes(events, w)| ==> EffectiveTimes(events, w)[i] <= bound
    ensures InOrder(ChangesOf(events, id, w))
    ensures forall i :: 0 <= i < |ChangesOf(events, id, w)| ==> ChangesOf(events, id, w)[i].at <= bound
  {
    if events != [] {
      var init, e := events[..|events| - 1], events[|events| - 1];
      var earlier, more := EffectiveTimes(init, w), TimesIn(e, w);
      TimesSplit(earlier, more, bound);
      ChangesAreTimed(init, id, w, more[0]);
      EventTimed(e, id, w, bound);
      InOrderMore(ChangesOf(init, id, w), ChangesIn(e, id, w), more[0]);
    }
  }

  // A well-formed log puts every node's changes in order.
  lemma WellFormedIsInOrder(log: SubLog, id: NodeId, w: Window)
    requires WellFormed(log, w)
    ensures InOrder(AllChanges(log, id, w))
  {
    var ts := EffectiveTimes(log.events, w);
    var all := ts + (if WentSilent(log, w) then [log.lastAlive.value] else []);
    assert forall i :: 0 <= i < |ts| ==> ts[i] == all[i];
    var bound := if WentSilent(log, w) then log.lastAlive.value
                 else if ts == [] then 0.0 else ts[|ts| - 1];
    assert WentSilent(log, w) ==> all[|ts|] == bound;
    ChangesAreTimed(log.events, id, w, bound);
  }

  // The record has drawn exactly what the point-in-time replay says up to `since`, and is in the
  // right state from there on.
  ghost predicate Refines(n: Running, changes: seq<Change>, w: Window) {
    && n.state == LastState(changes)
    && n.since <= Max(w.dayStart, if changes == [] then w.dayStart else w.Clamp(changes[|changes| - 1].at))
    && (n.state.Some? ==> n.since <= w.Clamp(changes[|changes| - 1].at))
    && (w.dayStart <= w.end ==> w.dayStart <= n.since <= w.end)
    && (w.end < w.dayStart ==> n.since >= w.end && n.line.segments == [])
    && Laid(n.line.segments, w)
    && (forall i :: 0 <= i < |n.line.segments| ==> n.line.segments[i].to <= n.since)
    && (forall t :: w.dayStart <= t < w.end && t < n.since ==> Shows(n.line.segments, t, StateAt(changes, t)))
    && (forall t :: w.dayStart <= t < w.end && n.since <= t ==> StateAt(changes, t) == n.state)
  }

  lemma StateAtSnoc(changes: seq<Change>, c: Change, t: Time)
    ensures StateAt(changes + [c], t) == if c.at <= t then c.state else StateAt(changes, t)
  {
    assert (changes + [c])[..|changes|] == changes;
  }

  lemma StateWhenEarly(changes: seq<Change>, t: Time)
    requires forall i :: 0 <= i < |changes| ==> changes[i].at <= t
    ensures StateAt(changes, t) == LastState(changes)
  {
  }

  lemma ClampOrder(w: Window, a: Time, b: Time)
    requires a <= b
    ensures w.Clamp(a) <= w.Clamp(b)
  {}

  lemma ShowsSnoc(segments: seq<Segment>, x: Segment, t: Time, s: Option<SegmentState>)
    requires x.from <= t < x.to ==> s == Some(x.state)
    requires !(x.from <= t < x.to) ==> Shows(segments, t, s)
    requires x.from <= t ==> forall i :: 0 <= i < |segments| ==> !segments[i].Holds(t)
    ensures Shows(segments + [x], t, s)
  {
    var all := segments + [x];
    if x.from <= t < x.to {
      assert all[|segments|].Holds(t);
    } else if s.Some? {
      var i :| 0 <= i < |segments| && segments[i].Holds(t);
      assert all[i].Holds(t);
    }
  }

  // One change, drawn by setState, is one change of the point-in-time replay.
  lemma SetStateRefines(n: Running, changes: seq<Change>, c: Change, w: Window)
    requires Refines(n, changes, w)
    requires InOrder(changes + [c])
    ensures Refines(SetState(n, c.state, c.at, w), changes + [c], w)
  {
    var all := changes + [c];
    var m := SetState(n, c.state, c.at, w);
    var ts := w.Clamp(c.at);
    if changes != [] {
      assert all[|changes| - 1].at <= all[|changes|].at;
      ClampOrder(w, changes[|changes| - 1].at, c.at);
    }
    forall t ensures StateAt(all, t) == if c.at <= t then c.state else StateAt(changes, t) {
      StateAtSnoc(changes, c, t);
    }
    if c.state == n.state {
    } else if n.state.Some? && ts > n.since {
      var x := Segment(n.since, ts, n.state.value);
      assert m.line.segments == n.line.segments + [x];
      forall t | w.dayStart <= t < w.end && t < m.since
        ensures Shows(m.line.segments, t, StateAt(all, t))
      {
        ShowsSnoc(n.line.segments, x, t, StateAt(all, t));
      }
    } else {
      NothingDrawn(n, changes, c, w);
    }
  }

  // A change from an unknown state, or of no length, leaves the drawing as it is.
  lemma NothingDrawn(n: Running, changes: seq<Change>, c: Change, w: Window)
    requires Refines(n, changes, w)
    requires c.state != n.state && !(n.state.Some? && w.Clamp(c.at) > n.since)
    requires changes != [] ==> changes[|changes| - 1].at <= c.at
    ensures Refines(SetState(n, c.state, c.at, w), changes + [c], w)
  {
    var all := changes + [c];
    var m := SetState(n, c.state, c.at, w);
    if changes != [] {
      ClampOrder(w, changes[|changes| - 1].at, c.at);
    }
    assert m.line.segments == n.line.segments;
    forall t ensures StateAt(all, t) == if c.at <= t then c.state else StateAt(changes, t) {
      StateAtSnoc(changes, c, t);
    }
    forall t | w.dayStart <= t < w.end && t < m.since
      ensures Shows(m.line.segments, t, StateAt(all, t))
    {
    }
  }

  // The records agree on everything but the outages and the counters.
  ghost predicate SameDrawing(n: Running, m: Running) {
    m.state == n.state && m.since == n.since && m.line.segments == n.line.segments
  }

  // An event draws the changes it makes to the node, one after the other.
  lemma StepDrawsChanges(n: Running, e: SubEvent, w: Window)
    ensures var cs := ChangesIn(e, n.line.nodeId, w);
            && |cs| <= 2
            && (|cs| == 0 ==> Step(n, e, w) == n)
            && (|cs| == 1 ==> SameDrawing(SetState(n, cs[0].state, cs[0].at, w), Step(n, e, w)))
            && (|cs| == 2 ==>
                  Step(n, e, w) == SetState(SetState(n, cs[0].state, cs[0].at, w), cs[1].state, cs[1].at, w))
  {
  }

  lemma InOrderPrefix(changes: seq<Change>, more: seq<Change>)
    requires InOrder(changes + more)
    ensures InOrder(changes)
  {
    var all := changes + more;
    assert forall i :: 0 <= i < |changes| ==> changes[i] == all[i];
  }

  lemma StepRefines(n: Running, before: seq<Change>, e: SubEvent, w: Window)
    requires Refines(n, before, w)
    requires InOrder(before + ChangesIn(e, n.line.nodeId, w))
    ensures Refines(Step(n, e, w), before + ChangesIn(e, n.line.nodeId, w), w)
  {
    var cs := ChangesIn(e, n.line.nodeId, w);
    StepDrawsChanges(n, e, w);
    if |cs| == 0 {
      assert before + cs == before;
    } else if |cs| == 1 {
      assert before + cs == before + [cs[0]];
      SetStateRefines(n, before, cs[0], w);
    } else {
      var off := before + [cs[0]];
      assert before + cs == off + [cs[1]];
      InOrderPrefix(off, [cs[1]]);
      SetStateRefines(n, before, cs[0], w);
      SetStateRefines(SetState(n, cs[0].state, cs[0].at, w), off, cs[1], w);
    }
  }

  lemma {:induction false} ReplayKeepsId(events: seq<SubEvent>, id: NodeId, w: Window)
    ensures Replay(events, id, w).line.nodeId == id
  {
    if events != [] {
      ReplayKeepsId(events[..|events| - 1], id, w);
    }
  }

  lemma {:induction false} ReplayRefines(events: seq<SubEvent>, id: NodeId, w: Window)
    requires InOrder(ChangesOf(events, id, w))
    ensures Refines(Replay(events, id, w), ChangesOf(events, id, w), w)
  {
    if events != [] {
      var init, e := events[..|events| - 1], events[|events| - 1];
      InOrderPrefix(ChangesOf(init, id, w), ChangesIn(e, id, w));
      ReplayRefines(init, id, w);
      ReplayKeepsId(init, id, w);
      StepRefines(Replay(init, id, w), ChangesOf(init, id, w), e, w);
    }
  }

  lemma FinishRefines(log: SubLog, id: NodeId, w: Window)
    requires InOrder(AllChanges(log, id, w))
    ensures Refines(DrawSilence(Replay(log.events, id, w), log, w), AllChanges(log, id, w), w)
  {
    var changes := ChangesOf(log.events, id, w);
    var all := AllChanges(log, id, w);
    assert forall i :: 0 <= i < |changes| ==> changes[i] == all[i];
    ReplayRefines(log.events, id, w);
    if WentSilent(log, w) && LastState(changes) != None {
      SetStateRefines(Replay(log.events, id, w), changes, Change(Some(Off), log.lastAlive.value), w);
    }
  }

  // Closing the record at the end of the window draws the open stretch.
  lemma CloseShows(n: Running, changes: seq<Change>, w: Window)
    requires Refines(n, changes, w)
    ensures var segments := SetState(n, None, w.end, w).line.segments;
            && Laid(segments, w)
            && forall t :: w.dayStart <= t < w.end ==> Shows(segments, t, StateAt(changes, t))
  {
    var m := SetState(n, None, w.end, w);
    if n.state.Some? && w.end > n.since {
      var x := Segment(n.since, w.end, n.state.value);
      assert m.line.segments == n.line.segments + [x];
      forall t | w.dayStart <= t < w.end ensures Shows(m.line.segments, t, StateAt(changes, t)) {
        ShowsSnoc(n.line.segments, x, t, StateAt(changes, t));
      }
    } else {
      assert m.line.segments == n.line.segments;
    }
  }

  // The incremental builder refines the point-in-time replay: at every instant of the window the
  // segment holding it has the state of the last change effective by then, no segment holds it iff
  // that state is unknown or removed, and the segments are in order, non-empty and disjoint.
  lemma TimelineRefinesPointReplay(log: SubLog, id: NodeId, w: Window)
    requires InOrder(AllChanges(log, id, w))
    ensures var segments := TimelineOf(log, id, w).segments;
            && Laid(segments, w)
            && forall t :: w.dayStart <= t < w.end ==> Shows(segments, t, StateAt(AllChanges(log, id, w), t))
  {
    FinishRefines(log, id, w);
    CloseShows(DrawSilence(Replay(log.events, id, w), log, w), AllChanges(log, id, w), w);
  }

  // -------------------------------------------------------------------------
  // Conservation of time
  // -------------------------------------------------------------------------

  function Total(segments: seq<Segment>): Time {
    Length(segments, Up) + Length(segments, Down) + Length(segments, Off)
  }

  lemma TotalSnoc(segments: seq<Segment>, x: Segment)
    ensures Total(segments + [x]) == Total(segments) + (x.to - x.from)
  {
    assert (segments + [x])[..|segments|] == segments;
  }

  // The first instant at which the node's state is known, or the end of the window.
  function FirstKnown(changes: seq<Change>, w: Window): Time {
    if changes == [] then w.end else w.Clamp(changes[0].at)
  }

  ghost predicate NeverRemoved(changes: seq<Change>) {
    forall i :: 0 <= i < |changes| ==> changes[i].state.Some?
  }

  // All the time since the node was first known is drawn, up to the open stretch.
  ghost predicate Accounted(n: Running, changes: seq<Change>, w: Window) {
    Total(n.line.segments) == if changes == [] then 0.0 else n.since - FirstKnown(changes, w)
  }

  lemma SetStateAccounts(n: Running, changes: seq<Change>, c: Change, w: Window)
    requires Refines(n, changes, w) && Accounted(n, changes, w)
    requires InOrder(changes + [c])
    requires changes != [] ==> n.state.Some?
    requires changes != [] || c.state.Some?
    ensures Accounted(SetState(n, c.state, c.at, w), changes + [c], w)
  {
    var all := changes + [c];
    if changes != [] {
      assert all[0] == changes[0];
      assert all[|changes| - 1].at <= all[|changes|].at;
      ClampOrder(w, changes[|changes| - 1].at, c.at);
      var ts := w.Clamp(c.at);
      if c.state != n.state && ts > n.since {
        TotalSnoc(n.line.segments, Segment(n.since, ts, n.state.value));
      }
    }
  }

  lemma StepAccounts(n: Running, before: seq<Change>, e: SubEvent, w: Window)
    requires Refines(n, before, w) && Accounted(n, before, w)
    requires InOrder(before + ChangesIn(e, n.line.nodeId, w))
    requires NeverRemoved(before + ChangesIn(e, n.line.nodeId, w))
    ensures Accounted(Step(n, e, w), before + ChangesIn(e, n.line.nodeId, w), w)
  {
    var cs := ChangesIn(e, n.line.nodeId, w);
    StepDrawsChanges(n, e, w);
    assert forall i :: 0 <= i < |before| ==> before[i] == (before + cs)[i];
    assert forall i :: 0 <= i < |cs| ==> cs[i] == (before + cs)[|before| + i];
    if |cs| == 0 {
      assert before + cs == before;
    } else if |cs| == 1 {
      assert before + cs == before + [cs[0]];
      SetStateAccounts(n, before, cs[0], w);
    } else {
      var off := before + [cs[0]];
      assert before + cs == off + [cs[1]];
      InOrderPrefix(off, [cs[1]]);
      SetStateRefines(n, before, cs[0], w);
      SetStateAccounts(n, before, cs[0], w);
      SetStateAccounts(SetState(n, cs[0].state, cs[0].at, w), off, cs[1], w);
    }
  }

  lemma {:induction false} ReplayAccounts(events: seq<SubEvent>, id: NodeId, w: Window)
    requires InOrder(ChangesOf(events, id, w)) && NeverRemoved(ChangesOf(events, id, w))
    ensures Accounted(Replay(events, id, w), ChangesOf(events, id, w), w)
  {
    if events != [] {
      var init, e := events[..|events| - 1], events[|events| - 1];
      var before := ChangesOf(init, id, w);
      var all := ChangesOf(events, id, w);
      InOrderPrefix(before, ChangesIn(e, id, w));
      assert forall i :: 0 <= i < |before| ==> before[i] == all[i];
      ReplayAccounts(init, id, w);
      ReplayRefines(init, id, w);
      ReplayKeepsId(init, id, w);
      StepAccounts(Replay(init, id, w), before, e, w);
    }
  }

  lemma SilenceAccounts(log: SubLog, id: NodeId, w: Window)
    requires InOrder(AllChanges(log, id, w)) && NeverRemoved(AllChanges(log, id, w))
    ensures Accounted(DrawSilence(Replay(log.events, id, w), log, w), AllChanges(log, id, w), w)
  {
    var changes := ChangesOf(log.events, id, w);
    var all := AllChanges(log, id, w);
    assert forall i :: 0 <= i < |changes| ==> changes[i] == all[i];
    ReplayAccounts(log.events, id, w);
    ReplayRefines(log.events, id, w);
    if all != changes {
      SetStateAccounts(Replay(log.events, id, w), changes, Change(Some(Off), log.lastAlive.value), w);
    }
  }

  // For a node never removed the up, down and off lengths add up to the time from the first known
  // instant to the end of the window: nothing is lost and nothing is drawn twice.
  lemma TimeIsConserved(log: SubLog, id: NodeId, w: Window)
    requires InOrder(AllChanges(log, id, w)) && NeverRemoved(AllChanges(log, id, w))
    ensures Total(TimelineOf(log, id, w).segments) == w.end - FirstKnown(AllChanges(log, id, w), w)
  {
    SilenceAccounts(log, id, w);
    FinishRefines(log, id, w);
    var n := DrawSilence(Replay(log.events, id, w), log, w);
    if n.state.Some? && w.end > n.since {
      TotalSnoc(n.line.segments, Segment(n.since, w.end, n.state.value));
    }
  }

  // -------------------------------------------------------------------------
  // Failures within outages
  // -------------------------------------------------------------------------

  predicate FailureOf(e: SubEvent, id: NodeId) {
    e.kind == Failed && e.nodeId == Some(id)
  }

  ghost predicate Reported(f: Failure, events: seq<SubEvent>, id: NodeId) {
    exists k :: 0 <= k < |events| && FailureOf(events[k], id) && f == Failure(events[k].ts, events[k].error)
  }

  // The node's failures all happened inside the window.
  ghost predicate FailuresInside(events: seq<SubEvent>, id: NodeId, w: Window) {
    forall k :: 0 <= k < |events| && FailureOf(events[k], id) ==> w.dayStart <= events[k].ts <= w.end
  }

  ghost predicate ClosedAround(o: Outage, events: seq<SubEvent>, id: NodeId) {
    forall f :: f in o.failures ==> o.from <= f.ts <= o.to && Reported(f, events, id)
  }

  ghost predicate OpenAround(o: Outage, latest: Time, events: seq<SubEvent>, id: NodeId, w: Window) {
    forall f :: f in o.failures ==>
      o.from <= f.ts <= latest && w.dayStart <= f.ts <= w.end && Reported(f, events, id)
  }

  ghost predicate Placed(n: Running, changes: seq<Change>, events: seq<SubEvent>, id: NodeId, w: Window) {
    && (forall i :: 0 <= i < |n.line.outages| ==> ClosedAround(n.line.outages[i], events, id))
    && (n.outage.Some? ==>
          changes != [] && OpenAround(n.outage.value, changes[|changes| - 1].at, events, id, w))
  }

  lemma SetStatePlaces(n: Running, changes: seq<Change>, c: Change, events: seq<SubEvent>, id: NodeId, w: Window)
    requires Placed(n, changes, events, id, w)
    requires changes != [] ==> changes[|changes| - 1].at <= c.at
    ensures Placed(SetState(n, c.state, c.at, w), changes + [c], events, id, w)
  {
    var m := SetState(n, c.state, c.at, w);
    if c.state != n.state && n.outage.Some? {
      var closed := n.outage.value.(to := w.Clamp(c.at));
      assert ClosedAround(closed, events, id);
    }
  }

  lemma PlacedGrows(n: Running, changes: seq<Change>, events: seq<SubEvent>, e: SubEvent, id: NodeId, w: Window)
    requires Placed(n, changes, events, id, w)
    ensures Placed(n, changes, events + [e], id, w)
  {
    forall f | Reported(f, events, id) ensures Reported(f, events + [e], id) {
      var k :| 0 <= k < |events| && FailureOf(events[k], id) && f == Failure(events[k].ts, events[k].error);
      assert (events + [e])[k] == events[k];
    }
  }

  lemma NoteFailurePlaces(n: Running, changes: seq<Change>, events: seq<SubEvent>, e: SubEvent, id: NodeId, w: Window)
    requires Placed(n, changes, events + [e], id, w) && Refines(n, changes, w) && Books(n)
    requires FailureOf(e, id) && w.dayStart <= e.ts <= w.end
    requires n.state == Some(Down) && changes[|changes| - 1].at == e.ts
    ensures Placed(NoteFailure(n, e), changes, events + [e], id, w)
  {
    var f := Failure(e.ts, e.error);
    assert (events + [e])[|events|] == e;
    assert Reported(f, events + [e], id);
    var o := n.outage.value;
    assert o.from == n.since <= w.Clamp(e.ts) == e.ts;
    assert OpenAround(o.(failures := o.failures + [f]), e.ts, events + [e], id, w);
  }

  lemma BootPlaces(n: Running, before: seq<Change>, events: seq<SubEvent>, e: SubEvent, w: Window)
    requires e.kind == Boot && Placed(n, before, events, n.line.nodeId, w)
    requires InOrder(before + ChangesIn(e, n.line.nodeId, w))
    ensures Placed(Step(n, e, w), before + ChangesIn(e, n.line.nodeId, w), events, n.line.nodeId, w)
  {
    var id, cs := n.line.nodeId, ChangesIn(e, n.line.nodeId, w);
    var all, off := before + cs, before + [cs[0]];
    assert off + [cs[1]] == all;
    assert all[|before|] == cs[0] && all[|before| + 1] == cs[1];
    assert before != [] ==> all[|before| - 1] == before[|before| - 1];
    SetStatePlaces(n, before, cs[0], events, id, w);
    SetStatePlaces(SetState(n, cs[0].state, cs[0].at, w), off, cs[1], events, id, w);
  }

  lemma StepPlaces(n: Running, before: seq<Change>, init: seq<SubEvent>, e: SubEvent, w: Window)
    requires Refines(n, before, w) && Books(n) && Placed(n, before, init, n.line.nodeId, w)
    requires InOrder(before + ChangesIn(e, n.line.nodeId, w))
    requires FailureOf(e, n.line.nodeId) ==> w.dayStart <= e.ts <= w.end
    ensures Placed(Step(n, e, w), before + ChangesIn(e, n.line.nodeId, w), init + [e], n.line.nodeId, w)
  {
    var id, events := n.line.nodeId, init + [e];
    var cs := ChangesIn(e, id, w);
    PlacedGrows(n, before, init, e, id, w);
    if e.kind == Boot {
      BootPlaces(n, before, events, e, w);
    } else if |cs| == 0 {
      assert before + cs == before;
    } else {
      var all := before + [cs[0]];
      assert before + cs == all && all[|before|] == cs[0];
      assert before != [] ==> all[|before| - 1] == before[|before| - 1];
      SetStatePlaces(if e.kind == Terminated then CountDrop(n) else n, before, cs[0], events, id, w);
      if e.kind == Failed {
        SetStateRefines(n, before, cs[0], w);
        SetStateKeepsBooks(n, Some(Down), e.ts, w);
        NoteFailurePlaces(SetState(n, Some(Down), e.ts, w), all, init, e, id, w);
      }
    }
  }

  lemma {:induction false} ReplayPlaces(events: seq<SubEvent>, id: NodeId, w: Window)
    requires InOrder(ChangesOf(events, id, w)) && FailuresInside(events, id, w)
    ensures Placed(Replay(events, id, w), ChangesOf(events, id, w), events, id, w)
  {
    if events != [] {
      var init, e := events[..|events| - 1], events[|events| - 1];
      InOrderPrefix(ChangesOf(init, id, w), ChangesIn(e, id, w));
      assert init + [e] == events;
      assert forall k :: 0 <= k < |init| ==> init[k] == events[k];
      ReplayPlaces(init, id, w);
      ReplayRefines(init, id, w);
      ReplayKeepsBooks(init, id, w);
      StepPlaces(Replay(init, id, w), ChangesOf(init, id, w), init, e, w);
    }
  }

  lemma SilencePlaces(log: SubLog, id: NodeId, w: Window)
    requires InOrder(AllChanges(log, id, w)) && FailuresInside(log.events, id, w)
    ensures Placed(DrawSilence(Replay(log.events, id, w), log, w), AllChanges(log, id, w), log.events, id, w)
  {
    var changes := ChangesOf(log.events, id, w);
    var all := AllChanges(log, id, w);
    if all == changes {
      ReplayPlaces(log.events, id, w);
      ReplayRefines(log.events, id, w);
    } else {
      var c := Change(Some(Off), log.lastAlive.value);
      InOrderPrefix(changes, [c]);
      ReplayPlaces(log.events, id, w);
      ReplayRefines(log.events, id, w);
      assert all[|changes|] == c && (changes != [] ==> all[|changes| - 1] == changes[|changes| - 1]);
      SetStatePlaces(Replay(log.events, id, w), changes, c, log.events, id, w);
    }
  }

  // Every failure listed under an outage was reported by the log for this node and happened within
  // the outage.
  lemma FailuresLieWithinOutages(log: SubLog, id: NodeId, w: Window)
    requires InOrder(AllChanges(log, id, w)) && FailuresInside(log.events, id, w)
    ensures forall i :: 0 <= i < |TimelineOf(log, id, w).outages| ==>
              ClosedAround(TimelineOf(log, id, w).outages[i], log.events, id)
  {
    SilencePlaces(log, id, w);
    var m := DrawSilence(Replay(log.events, id, w), log, w);
    if m.outage.Some? {
      assert ClosedAround(m.outage.value.(to := w.Clamp(w.end)), log.events, id);
    }
  }

  // -------------------------------------------------------------------------
  // Why the order of the times is needed
  // -------------------------------------------------------------------------

  lemma ReplayThree(events: seq<SubEvent>, id: NodeId, w: Window)
    requires |events| == 3
    ensures Replay(events, id, w) == Step(Step(Step(Fresh(id, w), events[0], w), events[1], w), events[2], w)
    ensures ChangesOf(events, id, w) ==
            ChangesIn(events[0], id, w) + ChangesIn(events[1], id, w) + ChangesIn(events[2], id, w)
  {
    var two, one := events[..2], events[..1];
    assert two[..1] == one && one[..0] == [];
    assert Replay(one, id, w) == Step(Replay([], id, w), events[0], w);
    assert ChangesOf(one, id, w) == ChangesIn(events[0], id, w);
  }

  lemma EarlySteps(a: SubEvent, b: SubEvent, c: SubEvent, w: Window)
    requires w == Window(0.0, 1000.0)
    requires a == SubEvent(0.0, UpAtStart, Some(7), None, None)
    requires b == SubEvent(500.0, Terminated, Some(7), None, None)
    requires c == SubEvent(600.0, Boot, None, Some(400.0), None)
    ensures var n := Step(Step(Step(Fresh(7, w), a, w), b, w), c, w);
            && n.line.segments == [Segment(0.0, 500.0, Up), Segment(400.0, 600.0, Off)]
            && n.state == Some(Down) && n.since == 600.0
  {
    var n1 := Running(NodeTimeline(7, [], [], 0, 0, 0.0, 0.0), Some(Up), 0.0, None);
    assert Step(Fresh(7, w), a, w) == n1;
  }

  // A boot whose lastAlive is before the node's last event moves `since` back, and the segments
  // overlap: the subscription ended at 500, the monitor was last alive at 400, and 450 is drawn as
  // both up and off.
  lemma OutOfOrderOverlaps(log: SubLog, w: Window)
    requires w == Window(0.0, 1000.0) && log.lastAlive.None? && |log.events| == 3
    requires log.events[0] == SubEvent(0.0, UpAtStart, Some(7), None, None)
    requires log.events[1] == SubEvent(500.0, Terminated, Some(7), None, None)
    requires log.events[2] == SubEvent(600.0, Boot, None, Some(400.0), None)
    ensures var segments := TimelineOf(log, 7, w).segments;
            && !InOrder(AllChanges(log, 7, w))
            && segments == [Segment(0.0, 500.0, Up), Segment(400.0, 600.0, Off), Segment(600.0, 1000.0, Down)]
            && !Laid(segments, w)
  {
    ReplayThree(log.events, 7, w);
    EarlySteps(log.events[0], log.events[1], log.events[2], w);
    var changes := AllChanges(log, 7, w);
    assert changes[1].at > changes[2].at;
    var segments := TimelineOf(log, 7, w).segments;
    assert segments[0].to > segments[1].from;
  }
}
