/**
  The subscription timeline of firmware/html_app/src/Diagnostics.tsx: a day's event log is replayed
  into one record per node. This file holds the data, the replay as functions on one record, and the
  point-in-time replay it is compared with; the object form that updates records in place is in
  TimelineBuilder.dfy and the proofs are in TimelineProofs.dfy.
  */
module Timeline {
  import opened Options

  // Seconds since the epoch; the end of the window may be fractional.
  type Time = real
  type NodeId = nat

  // Silence for longer than this at the end of the record means the monitor is off.
  const ALIVE_GRACE_S: Time := 180.0

  datatype SegmentState = Up | Down | Off

  datatype Segment = Segment(from: Time, to: Time, state: SegmentState)
  {
    predicate Holds(t: Time) { from <= t < to }
  }

  datatype Failure = Failure(ts: Time, error: Option<string>)

  datatype Outage = Outage(from: Time, to: Time, failures: seq<Failure>)

  datatype EventKind = Boot | DayStart | UpAtStart | Established | Terminated | Failed | Removed

  datatype SubEvent = SubEvent(ts: Time, kind: EventKind, nodeId: Option<NodeId>,
                               lastAlive: Option<Time>, error: Option<string>)

  datatype SubLog = SubLog(events: seq<SubEvent>, lastAlive: Option<Time>)

  datatype NodeTimeline = NodeTimeline(nodeId: NodeId, segments: seq<Segment>, outages: seq<Outage>,
                                       drops: nat, failures: nat, upSeconds: Time, downSeconds: Time)

  // A timeline being built: the finished part, and the stretch still open. `state` is None while
  // the node's state is unknown or the node is removed.
  datatype Running = Running(line: NodeTimeline, state: Option<SegmentState>, since: Time,
                             outage: Option<Outage>)

  datatype Window = Window(dayStart: Time, end: Time)
  {
    function Clamp(ts: Time): Time {
      Min(end, Max(dayStart, ts))
    }
  }

  function Min(a: Time, b: Time): Time { if a < b then a else b }

  function Max(a: Time, b: Time): Time { if a < b then b else a }

  // The end of the view: a past day runs to midnight, today to the monitor's clock.
  function WindowOf(dayStart: Time, dayEnd: Time, isToday: bool, now: Time): Window {
    Window(dayStart, if isToday then Min(dayEnd, now) else dayEnd)
  }

  // -------------------------------------------------------------------------
  // The incremental replay of one node
  // -------------------------------------------------------------------------

  function Fresh(id: NodeId, w: Window): Running {
    Running(NodeTimeline(id, [], [], 0, 0, 0.0, 0.0), None, w.dayStart, None)
  }

  // The record once the current stretch has been closed at `ts`. A stretch of no length is dropped,
  // and so is an outage of no length.
  function Close(n: Running, ts: Time): NodeTimeline {
    var drawn := n.state.Some? && ts > n.since;
    n.line.(
      segments := if drawn then n.line.segments + [Segment(n.since, ts, n.state.value)] else n.line.segments,
      upSeconds := n.line.upSeconds + (if drawn && n.state == Some(Up) then ts - n.since else 0.0),
      downSeconds := n.line.downSeconds + (if drawn && n.state == Some(Down) then ts - n.since else 0.0),
      outages :=
        if n.outage.Some? && ts > n.outage.value.from
        then n.line.outages + [n.outage.value.(to := ts)]
        else n.line.outages)
  }

  function SetState(n: Running, state: Option<SegmentState>, at: Time, w: Window): Running {
    if state == n.state then n
    else
      var ts := w.Clamp(at);
      Running(Close(n, ts), state, ts, if state == Some(Down) then Some(Outage(ts, ts, [])) else None)
  }

  function CountDrop(n: Running): Running {
    if n.state == Some(Up) then n.(line := n.line.(drops := n.line.drops + 1)) else n
  }

  function NoteFailure(n: Running, e: SubEvent): Running {
    n.(line := n.line.(failures := n.line.failures + 1),
       outage := if n.outage.Some?
                 then Some(n.outage.value.(failures := n.outage.value.failures + [Failure(e.ts, e.error)]))
                 else None)
  }

  function OffSince(e: SubEvent, w: Window): Time {
    if e.lastAlive.Some? then e.lastAlive.value else w.dayStart
  }

  function Step(n: Running, e: SubEvent, w: Window): Running {
    var own := e.nodeId == Some(n.line.nodeId);
    match e.kind
    case DayStart => SetState(n, Some(Down), e.ts, w)
    case UpAtStart => if own then SetState(n, Some(Up), e.ts, w) else n
    case Established => if own then SetState(n, Some(Up), e.ts, w) else n
    case Terminated => if own then SetState(CountDrop(n), Some(Down), e.ts, w) else n
    case Failed => if own then NoteFailure(SetState(n, Some(Down), e.ts, w), e) else n
    case Removed => if own then SetState(n, None, e.ts, w) else n
    case Boot => SetState(SetState(n, Some(Off), OffSince(e, w), w), Some(Down), e.ts, w)
  }

  function Replay(events: seq<SubEvent>, id: NodeId, w: Window): Running {
    if events == [] then Fresh(id, w)
    else Step(Replay(events[..|events| - 1], id, w), events[|events| - 1], w)
  }

  // The record stopped long enough before its end that the monitor must have been off.
  predicate WentSilent(log: SubLog, w: Window) {
    log.lastAlive.Some? && w.end - log.lastAlive.value > ALIVE_GRACE_S
  }

  function DrawSilence(n: Running, log: SubLog, w: Window): Running {
    if WentSilent(log, w) && n.state != None then SetState(n, Some(Off), log.lastAlive.value, w) else n
  }

  function Finish(n: Running, log: SubLog, w: Window): Running {
    SetState(DrawSilence(n, log, w), None, w.end, w)
  }

  function TimelineOf(log: SubLog, id: NodeId, w: Window): NodeTimeline {
    Finish(Replay(log.events, id, w), log, w).line
  }

  // -------------------------------------------------------------------------
  // The point-in-time replay
  // -------------------------------------------------------------------------

  // From `at` on, the node is in `state`.
  datatype Change = Change(state: Option<SegmentState>, at: Time)

  // What an event says about one node.
  function ChangesIn(e: SubEvent, id: NodeId, w: Window): seq<Change> {
    match e.kind
    case DayStart => [Change(Some(Down), e.ts)]
    case Boot => [Change(Some(Off), OffSince(e, w)), Change(Some(Down), e.ts)]
    case _ =>
      if e.nodeId != Some(id) then []
      else
        [Change(match e.kind
                case UpAtStart => Some(Up)
                case Established => Some(Up)
                case Removed => None
                case _ => Some(Down), e.ts)]
  }

  function ChangesOf(events: seq<SubEvent>, id: NodeId, w: Window): seq<Change> {
    if events == [] then []
    else ChangesOf(events[..|events| - 1], id, w) + ChangesIn(events[|events| - 1], id, w)
  }

  function LastState(changes: seq<Change>): Option<SegmentState> {
    if changes == [] then None else changes[|changes| - 1].state
  }

  // Every change of a node, with the silence at the end of the record.
  function AllChanges(log: SubLog, id: NodeId, w: Window): seq<Change> {
    var changes := ChangesOf(log.events, id, w);
    if WentSilent(log, w) && LastState(changes) != None
    then changes + [Change(Some(Off), log.lastAlive.value)]
    else changes
  }

  // The state named by the last change effective at or before t.
  function StateAt(changes: seq<Change>, t: Time): Option<SegmentState> {
    if changes == [] then None
    else
      var last := changes[|changes| - 1];
      if last.at <= t then last.state else StateAt(changes[..|changes| - 1], t)
  }

  predicate InOrder(changes: seq<Change>) {
    forall i, j :: 0 <= i < j < |changes| ==> changes[i].at <= changes[j].at
  }

  // -------------------------------------------------------------------------
  // Well-formed logs
  // -------------------------------------------------------------------------

  function TimesIn(e: SubEvent, w: Window): seq<Time> {
    if e.kind == Boot then [OffSince(e, w), e.ts] else [e.ts]
  }

  function EffectiveTimes(events: seq<SubEvent>, w: Window): seq<Time> {
    if events == [] then []
    else EffectiveTimes(events[..|events| - 1], w) + TimesIn(events[|events| - 1], w)
  }

  predicate NonDecreasing(ts: seq<Time>) {
    forall i, j :: 0 <= i < j < |ts| ==> ts[i] <= ts[j]
  }

  // The effective times of the log never go backwards.
  predicate WellFormed(log: SubLog, w: Window) {
    NonDecreasing(EffectiveTimes(log.events, w) +
                  (if WentSilent(log, w) then [log.lastAlive.value] else []))
  }

  // -------------------------------------------------------------------------
  // Vocabulary for what a finished timeline shows
  // -------------------------------------------------------------------------

  // At t the segments show exactly `s`: some segment holds t iff `s` is a state, and then with that state.
  ghost predicate Shows(segments: seq<Segment>, t: Time, s: Option<SegmentState>) {
    && (forall i :: 0 <= i < |segments| && segments[i].Holds(t) ==> s == Some(segments[i].state))
    && (s.Some? ==> exists i :: 0 <= i < |segments| && segments[i].Holds(t))
  }

  // In order, non-empty, pairwise disjoint and inside the window.
  ghost predicate Laid(segments: seq<Segment>, w: Window) {
    && (forall i :: 0 <= i < |segments| ==> w.dayStart <= segments[i].from < segments[i].to <= w.end)
    && (forall i, j :: 0 <= i < j < |segments| ==> segments[i].to <= segments[j].from)
  }

  function Length(segments: seq<Segment>, state: SegmentState): Time {
    if segments == [] then 0.0
    else
      var last := segments[|segments| - 1];
      Length(segments[..|segments| - 1], state) + (if last.state == state then last.to - last.from else 0.0)
  }

  // The (from, to) pairs of the down segments, in order.
  function DownSpans(segments: seq<Segment>): seq<(Time, Time)> {
    if segments == [] then []
    else
      var last := segments[|segments| - 1];
      DownSpans(segments[..|segments| - 1]) + (if last.state == Down then [(last.from, last.to)] else [])
  }

  function OutageSpans(outages: seq<Outage>): seq<(Time, Time)> {
    seq(|outages|, i requires 0 <= i < |outages| => (outages[i].from, outages[i].to))
  }

  function OutageSeconds(outages: seq<Outage>): Time {
    if outages == [] then 0.0
    else
      var last := outages[|outages| - 1];
      OutageSeconds(outages[..|outages| - 1]) + (last.to - last.from)
  }

  predicate OpensSubscription(e: SubEvent, id: NodeId) {
    (e.kind == UpAtStart || e.kind == Established) && e.nodeId == Some(id)
  }

  function CountWhere(events: seq<SubEvent>, p: SubEvent -> bool): nat {
    if events == [] then 0
    else CountWhere(events[..|events| - 1], p) + (if p(events[|events| - 1]) then 1 else 0)
  }
}
