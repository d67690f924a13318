/**
  The builder of the Diagnostics page as the source writes it: one mutable record per node, updated
  in place event by event. Each method is proved against the replay functions of Timeline.dfy.
  */
module TimelineBuilder {
  import opened Options
  import opened Timeline

  class Node {
    const nodeId: NodeId
    var segments: seq<Segment>
    var outages: seq<Outage>
    var drops: nat
    var failures: nat
    var upSeconds: Time
    var downSeconds: Time
    var state: Option<SegmentState>
    var since: Time
    var outage: Option<Outage>

    function Line(): NodeTimeline
      reads this
    {
      NodeTimeline(nodeId, segments, outages, drops, failures, upSeconds, downSeconds)
    }

    function View(): Running
      reads this
    {
      Running(Line(), state, since, outage)
    }

    constructor (id: NodeId, w: Window)
      ensures View() == Fresh(id, w)
    {
      nodeId := id;
      segments, outages, drops, failures := [], [], 0, 0;
      upSeconds, downSeconds := 0.0, 0.0;
      state, since, outage := None, w.dayStart, None;
    }

    // Closes the current stretch at `at` and starts `newState` from there. A change to the state the
    // node is already in is not a change.
    method SetState(newState: Option<SegmentState>, at: Time, w: Window)
      modifies this
      ensures View() == Timeline.SetState(old(View()), newState, at, w)
    {
      var ts := w.Clamp(at);
      if newState == state {
        return;
      }
      if state.Some? && ts > since {
        segments := segments + [Segment(since, ts, state.value)];
        if state == Some(Up) {
          upSeconds := upSeconds + (ts - since);
        } else if state == Some(Down) {
          downSeconds := downSeconds + (ts - since);
        }
      }
      if outage.Some? {
        outage := Some(outage.value.(to := ts));
        if outage.value.to > outage.value.from {
          outages := outages + [outage.value];
        }
        outage := None;
      }
      if newState == Some(Down) {
        outage := Some(Outage(ts, ts, []));
      }
      state := newState;
      since := ts;
    }
  }

  // The ids in the order a set keeps them: each where it was first added.
  function InsertionOrder(ids: seq<NodeId>): seq<NodeId> {
    if ids == [] then []
    else
      var before := InsertionOrder(ids[..|ids| - 1]);
      if ids[|ids| - 1] in before then before else before + [ids[|ids| - 1]]
  }

  function Mentioned(events: seq<SubEvent>): seq<NodeId> {
    if events == [] then []
    else
      var e := events[|events| - 1];
      Mentioned(events[..|events| - 1]) + (if e.nodeId.Some? then [e.nodeId.value] else [])
  }

  function KnownNodes(nodeIds: seq<NodeId>, events: seq<SubEvent>): seq<NodeId> {
    InsertionOrder(nodeIds + Mentioned(events))
  }

  lemma {:induction false} InsertionOrderIsASet(ids: seq<NodeId>)
    ensures forall i, j :: 0 <= i < j < |InsertionOrder(ids)| ==> InsertionOrder(ids)[i] != InsertionOrder(ids)[j]
    ensures forall id :: id in InsertionOrder(ids) <==> id in ids
  {
    if ids != [] {
      InsertionOrderIsASet(ids[..|ids| - 1]);
      assert ids == ids[..|ids| - 1] + [ids[|ids| - 1]];
    }
  }

  // Some mention of a comes before every mention of b.
  ghost predicate MentionedBefore(ids: seq<NodeId>, a: NodeId, b: NodeId) {
    exists p :: 0 <= p < |ids| && ids[p] == a && b !in ids[..p + 1]
  }

  ghost predicate InMentionOrder(order: seq<NodeId>, ids: seq<NodeId>) {
    forall i, j :: 0 <= i < j < |order| ==> MentionedBefore(ids, order[i], order[j])
  }

  // The order is that of first mention.
  lemma {:induction false} InsertionOrderIsFirstMention(ids: seq<NodeId>)
    ensures InMentionOrder(InsertionOrder(ids), ids)
  {
    if ids != [] {
      var init, last := ids[..|ids| - 1], ids[|ids| - 1];
      var before, order := InsertionOrder(init), InsertionOrder(ids);
      InsertionOrderIsFirstMention(init);
      InsertionOrderIsASet(init);
      forall i, j | 0 <= i < j < |order| ensures MentionedBefore(ids, order[i], order[j]) {
        if j < |before| {
          assert MentionedBefore(init, before[i], before[j]);
          var p :| 0 <= p < |init| && init[p] == before[i] && before[j] !in init[..p + 1];
          assert ids[..p + 1] == init[..p + 1];
        } else {
          assert before[i] in init;
          var p :| 0 <= p < |init| && init[p] == before[i];
          assert ids[p] == before[i];
          assert forall q :: q in ids[..p + 1] ==> q in init;
        }
      }
    }
  }

  // Every node listed or mentioned by the log gets exactly one timeline.
  lemma KnownNodesAreDistinct(nodeIds: seq<NodeId>, events: seq<SubEvent>)
    ensures var known := KnownNodes(nodeIds, events);
            && (forall i, j :: 0 <= i < j < |known| ==> known[i] != known[j])
            && InMentionOrder(known, nodeIds + Mentioned(events))
            && (forall id :: id in known <==> id in nodeIds || exists e :: e in events && e.nodeId == Some(id))
  {
    InsertionOrderIsASet(nodeIds + Mentioned(events));
    InsertionOrderIsFirstMention(nodeIds + Mentioned(events));
    forall id ensures id in Mentioned(events) <==> exists e :: e in events && e.nodeId == Some(id) {
      MentionedIffNamed(events, id);
    }
  }

  lemma {:induction false} MentionedIffNamed(events: seq<SubEvent>, id: NodeId)
    ensures id in Mentioned(events) <==> exists e :: e in events && e.nodeId == Some(id)
  {
    if events != [] {
      MentionedIffNamed(events[..|events| - 1], id);
      assert events == events[..|events| - 1] + [events[|events| - 1]];
    }
  }

  // Distinct records, each filed under its own id.
  ghost predicate Filed(nodes: map<NodeId, Node>)
  {
    && (forall id :: id in nodes ==> nodes[id].nodeId == id)
    && (forall a, b :: a in nodes && b in nodes && a != b ==> nodes[a] != nodes[b])
  }

  // The records in the order of the map.
  function Ordered(nodes: map<NodeId, Node>, order: seq<NodeId>): (each: seq<Node>)
    requires forall id :: id in order ==> id in nodes
    ensures |each| == |order| && forall i :: 0 <= i < |order| ==> each[i] == nodes[order[i]]
  {
    seq(|order|, i requires 0 <= i < |order| => nodes[order[i]])
  }

  ghost predicate Distinct(each: seq<Node>) {
    forall i, j :: 0 <= i < j < |each| ==> each[i] != each[j]
  }

  // The records as values.
  ghost function Views(each: seq<Node>): (vs: seq<Running>)
    reads each
    ensures |vs| == |each| && forall i :: 0 <= i < |each| ==> vs[i] == each[i].View()
  {
    seq(|each|, i requires 0 <= i < |each| reads each => each[i].View())
  }

  function AllSet(vs: seq<Running>, state: Option<SegmentState>, at: Time, w: Window): (now: seq<Running>)
    ensures |now| == |vs| && forall i :: 0 <= i < |vs| ==> now[i] == Timeline.SetState(vs[i], state, at, w)
  {
    seq(|vs|, i requires 0 <= i < |vs| => Timeline.SetState(vs[i], state, at, w))
  }

  method SetEach(each: seq<Node>, state: Option<SegmentState>, at: Time, w: Window)
    requires Distinct(each)
    modifies each
    ensures Views(each) == AllSet(old(Views(each)), state, at, w)
  {
    ghost var was := Views(each);
    ghost var goal := AllSet(was, state, at, w);
    for k := 0 to |each|
      invariant forall i :: 0 <= i < k ==> each[i].View() == goal[i]
      invariant forall i :: k <= i < |each| ==> each[i].View() == was[i]
    {
      each[k].SetState(state, at, w);
    }
  }

  method SetAll(nodes: map<NodeId, Node>, order: seq<NodeId>, state: Option<SegmentState>, at: Time, w: Window)
    requires Filed(nodes)
    requires forall i, j :: 0 <= i < j < |order| ==> order[i] != order[j]
    requires forall id :: id in nodes <==> id in order
    modifies nodes.Values
    ensures forall id :: id in nodes ==>
              nodes[id].View() == Timeline.SetState(old(nodes[id].View()), state, at, w)
  {
    var each := Ordered(nodes, order);
    SetEach(each, state, at, w);
  }

  // One event of the log, for every record.
  method Apply(nodes: map<NodeId, Node>, order: seq<NodeId>, e: SubEvent, w: Window)
    requires Filed(nodes)
    requires forall i, j :: 0 <= i < j < |order| ==> order[i] != order[j]
    requires forall id :: id in nodes <==> id in order
    modifies nodes.Values
    ensures forall id :: id in nodes ==> nodes[id].View() == Step(old(nodes[id].View()), e, w)
  {
    match e.kind {
      case DayStart =>
        SetAll(nodes, order, Some(Down), e.ts, w);
      case Boot =>
        SetAll(nodes, order, Some(Off), if e.lastAlive.Some? then e.lastAlive.value else w.dayStart, w);
        SetAll(nodes, order, Some(Down), e.ts, w);
      case _ =>
        if e.nodeId.Some? && e.nodeId.value in nodes {
          ApplyTo(nodes[e.nodeId.value], e, w);
        }
    }
  }

  // An event of the node's own.
  method ApplyTo(n: Node, e: SubEvent, w: Window)
    requires e.nodeId == Some(n.nodeId) && e.kind != DayStart && e.kind != Boot
    modifies n
    ensures n.View() == Step(old(n.View()), e, w)
  {
    match e.kind {
      case UpAtStart =>
        n.SetState(Some(Up), e.ts, w);
      case Established =>
        n.SetState(Some(Up), e.ts, w);
      case Terminated =>
        if n.state == Some(Up) {
          n.drops := n.drops + 1;
        }
        n.SetState(Some(Down), e.ts, w);
      case Failed =>
        n.SetState(Some(Down), e.ts, w);
        n.failures := n.failures + 1;
        if n.outage.Some? {
          n.outage := Some(n.outage.value.(failures := n.outage.value.failures + [Failure(e.ts, e.error)]));
        }
      case Removed =>
        n.SetState(None, e.ts, w);
      case _ =>
    }
  }

  method CollectIds(nodeIds: seq<NodeId>, events: seq<SubEvent>) returns (order: seq<NodeId>)
    ensures order == KnownNodes(nodeIds, events)
  {
    order := [];
    for k := 0 to |nodeIds|
      invariant order == InsertionOrder(nodeIds[..k])
    {
      assert nodeIds[..k + 1][..k] == nodeIds[..k];
      if nodeIds[k] !in order {
        order := order + [nodeIds[k]];
      }
    }
    assert nodeIds[..|nodeIds|] == nodeIds == nodeIds + Mentioned([]);
    for k := 0 to |events|
      invariant order == InsertionOrder(nodeIds + Mentioned(events[..k]))
    {
      assert events[..k + 1][..k] == events[..k];
      var e := events[k];
      if e.nodeId.Some? {
        var all := nodeIds + Mentioned(events[..k + 1]);
        assert all[..|all| - 1] == nodeIds + Mentioned(events[..k]);
        if e.nodeId.value !in order {
          order := order + [e.nodeId.value];
        }
      } else {
        assert Mentioned(events[..k + 1]) == Mentioned(events[..k]);
      }
    }
    assert events[..|events|] == events;
  }

  // A fresh record for every node.
  method NewNodes(order: seq<NodeId>, w: Window) returns (nodes: map<NodeId, Node>)
    ensures forall id :: id in nodes <==> id in order
    ensures Filed(nodes) && fresh(nodes.Values)
    ensures forall id :: id in nodes ==> nodes[id].View() == Fresh(id, w)
  {
    nodes := map[];
    for k := 0 to |order|
      invariant forall id :: id in nodes <==> id in order[..k]
      invariant Filed(nodes) && fresh(nodes.Values)
      invariant forall id :: id in nodes ==> nodes[id].View() == Fresh(id, w)
    {
      var n := new Node(order[k], w);
      assert nodes[order[k] := n].Values <= nodes.Values + {n};
      nodes := nodes[order[k] := n];
    }
  }

  method ReplayAll(nodes: map<NodeId, Node>, order: seq<NodeId>, events: seq<SubEvent>, w: Window)
    requires Filed(nodes)
    requires forall i, j :: 0 <= i < j < |order| ==> order[i] != order[j]
    requires forall id :: id in nodes <==> id in order
    requires forall id :: id in nodes ==> nodes[id].View() == Fresh(id, w)
    modifies nodes.Values
    ensures forall id :: id in nodes ==> nodes[id].View() == Replay(events, id, w)
  {
    for k := 0 to |events|
      invariant forall id :: id in nodes ==> nodes[id].View() == Replay(events[..k], id, w)
    {
      assert events[..k + 1][..k] == events[..k];
      Apply(nodes, order, events[k], w);
    }
    assert events[..|events|] == events;
  }

  function KnownOff(n: Running, at: Time, w: Window): Running {
    if n.state != None then Timeline.SetState(n, Some(Off), at, w) else n
  }

  method SetKnownNodeOff(n: Node, at: Time, w: Window)
    modifies n
    ensures n.View() == KnownOff(old(n.View()), at, w)
  {
    if n.state != None {
      n.SetState(Some(Off), at, w);
    }
  }

  function AllKnownOff(vs: seq<Running>, at: Time, w: Window): (now: seq<Running>)
    ensures |now| == |vs| && forall i :: 0 <= i < |vs| ==> now[i] == KnownOff(vs[i], at, w)
  {
    seq(|vs|, i requires 0 <= i < |vs| => KnownOff(vs[i], at, w))
  }

  method SetEachKnownOff(each: seq<Node>, at: Time, w: Window)
    requires Distinct(each)
    modifies each
    ensures Views(each) == AllKnownOff(old(Views(each)), at, w)
  {
    ghost var was := Views(each);
    ghost var goal := AllKnownOff(was, at, w);
    for k := 0 to |each|
      invariant forall i :: 0 <= i < k ==> each[i].View() == goal[i]
      invariant forall i :: k <= i < |each| ==> each[i].View() == was[i]
    {
      SetKnownNodeOff(each[k], at, w);
    }
  }

  // The monitor stopped writing before the end of the record: every known node was off from then.
  method SetKnownOff(nodes: map<NodeId, Node>, order: seq<NodeId>, at: Time, w: Window)
    requires Filed(nodes)
    requires forall i, j :: 0 <= i < j < |order| ==> order[i] != order[j]
    requires forall id :: id in nodes <==> id in order
    modifies nodes.Values
    ensures forall id :: id in nodes ==> nodes[id].View() == KnownOff(old(nodes[id].View()), at, w)
  {
    var each := Ordered(nodes, order);
    SetEachKnownOff(each, at, w);
  }

  // The end of the record, for every node.
  method FinishAll(nodes: map<NodeId, Node>, order: seq<NodeId>, log: SubLog, w: Window)
    requires Filed(nodes)
    requires forall i, j :: 0 <= i < j < |order| ==> order[i] != order[j]
    requires forall id :: id in nodes <==> id in order
    modifies nodes.Values
    ensures forall id :: id in nodes ==> nodes[id].View() == Finish(old(nodes[id].View()), log, w)
  {
    if log.lastAlive.Some? && w.end - log.lastAlive.value > ALIVE_GRACE_S {
      SetKnownOff(nodes, order, log.lastAlive.value, w);
    }
    SetAll(nodes, order, None, w.end, w);
  }

  method BuildTimelines(log: SubLog, dayStart: Time, dayEnd: Time, isToday: bool, now: Time, nodeIds: seq<NodeId>)
    returns (timelines: seq<NodeTimeline>)
    ensures |timelines| == |KnownNodes(nodeIds, log.events)|
    ensures forall i :: 0 <= i < |timelines| ==>
              timelines[i] == TimelineOf(log, KnownNodes(nodeIds, log.events)[i],
                                         WindowOf(dayStart, dayEnd, isToday, now))
  {
    var w := Window(dayStart, if isToday then Min(dayEnd, now) else dayEnd);
    var order := CollectIds(nodeIds, log.events);
    KnownNodesAreDistinct(nodeIds, log.events);
    var nodes := NewNodes(order, w);
    ReplayAll(nodes, order, log.events, w);
    FinishAll(nodes, order, log, w);
    timelines := [];
    for k := 0 to |order|
      invariant |timelines| == k
      invariant forall i :: 0 <= i < k ==> timelines[i] == nodes[order[i]].Line()
    {
      timelines := timelines + [nodes[order[k]].Line()];
    }
  }
}
