/** Which failures the outages list: every one of the node's that the log reports, where it belongs. */
module TimelineFailures {
  import opened Options
  import opened Timeline
  import opened TimelineProofs
  import opened TimelineExact

  // -------------------------------------------------------------------------
  // What the log says
  // -------------------------------------------------------------------------

  // The stretch that the record is in after the events, counted by the changes of state so far.
  function StretchAfter(events: seq<SubEvent>, id: NodeId, w: Window): int {
    |Kept(ChangesOf(events, id, w), w)| - 1
  }

  // The failures of the node reported during one stretch, in log order.
  function FailuresUnder(events: seq<SubEvent>, id: NodeId, w: Window, i: int): seq<Failure> {
    if events == [] then []
    else
      var e := events[|events| - 1];
      FailuresUnder(events[..|events| - 1], id, w, i) +
      (if FailureOf(e, id) && StretchAfter(events, id, w) == i then [Failure(e.ts, e.error)] else [])
  }

  predicate DownStretch(xs: seq<Change>, i: int) {
    Stretch(xs, i) && xs[i].state == Some(Down)
  }

  // The down stretches of some length before the n-th mark, each with the failures reported during it.
  function OutagesBefore(xs: seq<Change>, n: nat, events: seq<SubEvent>, id: NodeId, w: Window): seq<Outage> {
    if n == 0 then []
    else
      OutagesBefore(xs, n - 1, events, id, w) +
      (if DownStretch(xs, n - 1) then [Outage(xs[n - 1].at, xs[n].at, FailuresUnder(events, id, w, n - 1))] else [])
  }

  // -------------------------------------------------------------------------
  // The replay keeps to it
  // -------------------------------------------------------------------------

  lemma UnderSnoc(events: seq<SubEvent>, e: SubEvent, id: NodeId, w: Window, i: int)
    ensures FailuresUnder(events + [e], id, w, i) == FailuresUnder(events, id, w, i) +
            (if FailureOf(e, id) && StretchAfter(events + [e], id, w) == i then [Failure(e.ts, e.error)] else [])
    ensures ChangesOf(events + [e], id, w) == ChangesOf(events, id, w) + ChangesIn(e, id, w)
  {
    assert (events + [e])[..|events|] == events;
  }

  lemma {:induction false} KeptGrows(changes: seq<Change>, more: seq<Change>, w: Window)
    ensures Kept(changes, w) <= Kept(changes + more, w)
    decreases |more|
  {
    if more == [] {
      assert changes + more == changes;
    } else {
      var init := more[..|more| - 1];
      assert changes + more == (changes + init) + [more[|more| - 1]];
      KeptGrows(changes, init, w);
      KeptSnoc(changes + init, more[|more| - 1], w);
    }
  }

  // An event after the stretch adds nothing to it.
  lemma LaterEvent(events: seq<SubEvent>, e: SubEvent, id: NodeId, w: Window, i: int)
    requires i < StretchAfter(events, id, w) || !FailureOf(e, id)
    ensures FailuresUnder(events + [e], id, w, i) == FailuresUnder(events, id, w, i)
  {
    UnderSnoc(events, e, id, w, i);
    KeptGrows(ChangesOf(events, id, w), ChangesIn(e, id, w), w);
  }

  lemma {:induction false} NothingYet(events: seq<SubEvent>, id: NodeId, w: Window, i: int)
    requires StretchAfter(events, id, w) < i
    ensures FailuresUnder(events, id, w, i) == []
  {
    if events != [] {
      var init, e := events[..|events| - 1], events[|events| - 1];
      assert init + [e] == events;
      UnderSnoc(init, e, id, w, i);
      KeptGrows(ChangesOf(init, id, w), ChangesIn(e, id, w), w);
      NothingYet(init, id, w, i);
    }
  }

  // Marks and events that come later change no outage before the n-th mark.
  lemma {:induction false} OutagesStay(xs: seq<Change>, ys: seq<Change>, n: nat, events: seq<SubEvent>,
                                       later: seq<SubEvent>, id: NodeId, w: Window)
    requires xs <= ys && (n > 0 ==> n < |xs|)
    requires forall i :: 0 <= i < n ==> FailuresUnder(later, id, w, i) == FailuresUnder(events, id, w, i)
    ensures OutagesBefore(ys, n, later, id, w) == OutagesBefore(xs, n, events, id, w)
  {
    if n > 0 {
      OutagesStay(xs, ys, n - 1, events, later, id, w);
      assert ys[n - 1] == xs[n - 1] && ys[n] == xs[n];
    }
  }

  // The outages closed so far, and the one that is open if the node is down. `failed` are the failures noted
  // in the stretch that the record is in.
  ghost predicate Notes(n: Running, xs: seq<Change>, closed: seq<Outage>, failed: seq<Failure>) {
    && n.state == LastState(xs) && (xs != [] ==> n.since == xs[|xs| - 1].at)
    && n.line.outages == closed
    && n.outage == (if n.state == Some(Down) then Some(Outage(n.since, n.since, failed)) else None)
  }

  function Closing(n: Running, ts: Time, failed: seq<Failure>): seq<Outage> {
    if n.state == Some(Down) && n.since < ts then [Outage(n.since, ts, failed)] else []
  }

  // A change of state closes the outage and opens an empty one if it is to down.
  lemma SetStateNotes(n: Running, changes: seq<Change>, c: Change, w: Window, closed: seq<Outage>,
                      failed: seq<Failure>)
    requires Notes(n, Kept(changes, w), closed, failed)
    ensures var m, xs := SetState(n, c.state, c.at, w), Kept(changes + [c], w);
            if c.state == LastState(changes) then m == n && xs == Kept(changes, w)
            else Notes(m, xs, closed + Closing(n, w.Clamp(c.at), failed), [])
                 && xs == Kept(changes, w) + [Change(c.state, w.Clamp(c.at))]
  {
    KeptSnoc(changes, c, w);
    KeptState(changes, w);
  }

  // Notes, with the outages and failures that the events so far call for.
  ghost predicate At(n: Running, changes: seq<Change>, events: seq<SubEvent>, id: NodeId, w: Window) {
    var xs := Kept(changes, w);
    && StretchAfter(events, id, w) < |xs|
    && Notes(n, xs, OutagesBefore(xs, Closed(xs), events, id, w), FailuresUnder(events, id, w, |xs| - 1))
  }

  function Closed(xs: seq<Change>): nat { if xs == [] then 0 else |xs| - 1 }

  lemma ClosingAddsOutage(xs: seq<Change>, q: Change, events: seq<SubEvent>, id: NodeId, w: Window)
    requires xs != []
    ensures var p, all := xs[|xs| - 1], xs + [q];
            OutagesBefore(all, |xs|, events, id, w) ==
            OutagesBefore(xs, |xs| - 1, events, id, w) +
            (if p.state == Some(Down) && p.at < q.at
             then [Outage(p.at, q.at, FailuresUnder(events, id, w, |xs| - 1))] else [])
  {
    OutagesStay(xs, xs + [q], |xs| - 1, events, events, id, w);
    StretchSnoc(xs, q, |xs| - 1);
  }

  // What closing the stretch at a mark adds is what the marks call for.
  lemma ClosingIsCalledFor(xs: seq<Change>, q: Change, n: Running, events: seq<SubEvent>, id: NodeId, w: Window)
    requires n.state == LastState(xs) && (xs != [] ==> n.since == xs[|xs| - 1].at)
    ensures OutagesBefore(xs, Closed(xs), events, id, w) + Closing(n, q.at, FailuresUnder(events, id, w, |xs| - 1)) ==
            OutagesBefore(xs + [q], |xs|, events, id, w)
  {
    if xs != [] {
      ClosingAddsOutage(xs, q, events, id, w);
    }
  }

  lemma ChangeAt(n: Running, changes: seq<Change>, c: Change, events: seq<SubEvent>, id: NodeId, w: Window)
    requires At(n, changes, events, id, w)
    ensures At(SetState(n, c.state, c.at, w), changes + [c], events, id, w)
  {
    var xs, q := Kept(changes, w), Change(c.state, w.Clamp(c.at));
    KeptState(changes, w);
    SetStateNotes(n, changes, c, w, OutagesBefore(xs, Closed(xs), events, id, w),
      FailuresUnder(events, id, w, |xs| - 1));
    if c.state != LastState(changes) {
      NothingYet(events, id, w, |xs|);
      ClosingIsCalledFor(xs, q, n, events, id, w);
    }
  }

  ghost predicate SameOutages(n: Running, m: Running) {
    m.state == n.state && m.since == n.since && m.line.outages == n.line.outages && m.outage == n.outage
  }

  // What an event does before it notes a failure.
  function Changed(n: Running, e: SubEvent, w: Window): Running {
    var cs := ChangesIn(e, n.line.nodeId, w);
    if |cs| == 0 then n
    else if |cs| == 1 then SetState(n, cs[0].state, cs[0].at, w)
    else SetState(SetState(n, cs[0].state, cs[0].at, w), cs[1].state, cs[1].at, w)
  }

  lemma StepIsChanged(n: Running, e: SubEvent, w: Window)
    ensures var m := Changed(n, e, w);
            if FailureOf(e, n.line.nodeId)
            then m.state == Some(Down) && SameOutages(NoteFailure(m, e), Step(n, e, w))
            else SameOutages(m, Step(n, e, w))
  {
  }

  lemma ChangedAt(n: Running, before: seq<Change>, e: SubEvent, events: seq<SubEvent>, w: Window)
    requires At(n, before, events, n.line.nodeId, w)
    ensures At(Changed(n, e, w), before + ChangesIn(e, n.line.nodeId, w), events, n.line.nodeId, w)
  {
    var id, cs := n.line.nodeId, ChangesIn(e, n.line.nodeId, w);
    StepDrawsChanges(n, e, w);
    if |cs| == 0 {
      assert before + cs == before;
    } else if |cs| == 1 {
      assert before + cs == before + [cs[0]];
      ChangeAt(n, before, cs[0], events, id, w);
    } else {
      assert before + cs == (before + [cs[0]]) + [cs[1]];
      ChangeAt(n, before, cs[0], events, id, w);
      ChangeAt(SetState(n, cs[0].state, cs[0].at, w), before + [cs[0]], cs[1], events, id, w);
    }
  }

  lemma OutagesUnder(events: seq<SubEvent>, e: SubEvent, xs: seq<Change>, id: NodeId, w: Window)
    requires xs == Kept(ChangesOf(events + [e], id, w), w)
    ensures OutagesBefore(xs, Closed(xs), events + [e], id, w) == OutagesBefore(xs, Closed(xs), events, id, w)
  {
    forall i | 0 <= i < Closed(xs)
      ensures FailuresUnder(events + [e], id, w, i) == FailuresUnder(events, id, w, i)
    {
      UnderSnoc(events, e, id, w, i);
    }
    OutagesStay(xs, xs, Closed(xs), events, events + [e], id, w);
  }

  // The event itself belongs to the stretch that the record is in after it.
  lemma EventUnder(events: seq<SubEvent>, e: SubEvent, xs: seq<Change>, id: NodeId, w: Window)
    requires xs == Kept(ChangesOf(events + [e], id, w), w)
    ensures var was, now := FailuresUnder(events, id, w, |xs| - 1), FailuresUnder(events + [e], id, w, |xs| - 1);
            if FailureOf(e, id) then now == was + [Failure(e.ts, e.error)] else now == was
  {
    UnderSnoc(events, e, id, w, |xs| - 1);
  }

  lemma NoteAt(m: Running, n: Running, xs: seq<Change>, closed: seq<Outage>, failed: seq<Failure>, e: SubEvent)
    requires Notes(m, xs, closed, failed) && m.state == Some(Down) && SameOutages(NoteFailure(m, e), n)
    ensures Notes(n, xs, closed, failed + [Failure(e.ts, e.error)])
  {
  }

  lemma SameNotes(m: Running, n: Running, xs: seq<Change>, closed: seq<Outage>, failed: seq<Failure>)
    requires Notes(m, xs, closed, failed) && SameOutages(m, n)
    ensures Notes(n, xs, closed, failed)
  {
  }

  // What At says, from its parts.
  lemma AtFrom(n: Running, changes: seq<Change>, events: seq<SubEvent>, xs: seq<Change>, closed: seq<Outage>,
               failed: seq<Failure>, id: NodeId, w: Window)
    requires xs == Kept(changes, w) && StretchAfter(events, id, w) < |xs| && Notes(n, xs, closed, failed)
    requires closed == OutagesBefore(xs, Closed(xs), events, id, w)
    requires failed == FailuresUnder(events, id, w, |xs| - 1)
    ensures At(n, changes, events, id, w)
  {
  }

  lemma EventAt(m: Running, n: Running, events: seq<SubEvent>, e: SubEvent, id: NodeId, w: Window)
    requires At(m, ChangesOf(events + [e], id, w), events, id, w)
    requires if FailureOf(e, id) then m.state == Some(Down) && SameOutages(NoteFailure(m, e), n)
             else SameOutages(m, n)
    ensures At(n, ChangesOf(events + [e], id, w), events + [e], id, w)
  {
    var xs := Kept(ChangesOf(events + [e], id, w), w);
    var closed, failed := OutagesBefore(xs, Closed(xs), events, id, w), FailuresUnder(events, id, w, |xs| - 1);
    OutagesUnder(events, e, xs, id, w);
    EventUnder(events, e, xs, id, w);
    if FailureOf(e, id) {
      NoteAt(m, n, xs, closed, failed, e);
      AtFrom(n, ChangesOf(events + [e], id, w), events + [e], xs, closed, failed + [Failure(e.ts, e.error)], id, w);
    } else {
      SameNotes(m, n, xs, closed, failed);
      AtFrom(n, ChangesOf(events + [e], id, w), events + [e], xs, closed, failed, id, w);
    }
  }

  lemma {:induction false} ReplayAt(events: seq<SubEvent>, id: NodeId, w: Window)
    ensures At(Replay(events, id, w), ChangesOf(events, id, w), events, id, w)
  {
    if events != [] {
      var init, e := events[..|events| - 1], events[|events| - 1];
      assert init + [e] == events;
      ReplayAt(init, id, w);
      ReplayKeepsId(init, id, w);
      var n := Replay(init, id, w);
      ChangedAt(n, ChangesOf(init, id, w), e, init, w);
      StepIsChanged(n, e, w);
      EventAt(Changed(n, e, w), Step(n, e, w), init, e, id, w);
    }
  }

  lemma SilenceAt(log: SubLog, id: NodeId, w: Window)
    ensures At(DrawSilence(Replay(log.events, id, w), log, w), AllChanges(log, id, w), log.events, id, w)
  {
    var changes := ChangesOf(log.events, id, w);
    ReplayAt(log.events, id, w);
    KeptState(changes, w);
    if WentSilent(log, w) && LastState(changes) != None {
      ChangeAt(Replay(log.events, id, w), changes, Change(Some(Off), log.lastAlive.value), log.events, id, w);
    }
  }

  // The end of the view closes the last outage.
  lemma EndCloses(n: Running, xs: seq<Change>, closed: seq<Outage>, failed: seq<Failure>, w: Window)
    requires Notes(n, xs, closed, failed)
    ensures SetState(n, None, w.end, w).line.outages == closed + Closing(n, w.end, failed)
  {
    assert w.Clamp(w.end) == w.end;
  }

  // For every log, in order or not: the outages are the down stretches of some length, each with exactly the
  // failures that the log reports for the node during it, in log order, with their times and errors.
  lemma OutagesExactly(log: SubLog, id: NodeId, w: Window)
    ensures var xs := Marks(log, id, w);
            TimelineOf(log, id, w).outages == OutagesBefore(xs, |xs| - 1, log.events, id, w)
  {
    var kept := Kept(AllChanges(log, id, w), w);
    var n := DrawSilence(Replay(log.events, id, w), log, w);
    SilenceAt(log, id, w);
    EndCloses(n, kept, OutagesBefore(kept, Closed(kept), log.events, id, w),
      FailuresUnder(log.events, id, w, |kept| - 1), w);
    ClosingIsCalledFor(kept, Change(None, w.end), n, log.events, id, w);
  }

  // -------------------------------------------------------------------------
  // Every failure is listed, once and in log order
  // -------------------------------------------------------------------------

  function AllListed(outages: seq<Outage>): seq<Failure> {
    if outages == [] then [] else AllListed(outages[..|outages| - 1]) + outages[|outages| - 1].failures
  }

  // The failures of the node reported during a down stretch of some length before the n-th mark.
  function Lasting(events: seq<SubEvent>, xs: seq<Change>, n: nat, id: NodeId, w: Window): seq<Failure> {
    if events == [] then []
    else
      var e, i := events[|events| - 1], StretchAfter(events, id, w);
      Lasting(events[..|events| - 1], xs, n, id, w) +
      (if FailureOf(e, id) && i < n && DownStretch(xs, i) then [Failure(e.ts, e.error)] else [])
  }

  lemma {:induction false} LastingMore(events: seq<SubEvent>, xs: seq<Change>, n: nat, id: NodeId, w: Window)
    ensures Lasting(events, xs, n + 1, id, w) ==
            Lasting(events, xs, n, id, w) + (if DownStretch(xs, n) then FailuresUnder(events, id, w, n) else [])
  {
    if events != [] {
      var init, e := events[..|events| - 1], events[|events| - 1];
      assert init + [e] == events;
      LastingMore(init, xs, n, id, w);
      UnderSnoc(init, e, id, w, n);
      KeptGrows(ChangesOf(init, id, w), ChangesIn(e, id, w), w);
      if StretchAfter(events, id, w) < n {
        NothingYet(events, id, w, n);
        NothingYet(init, id, w, n);
      }
    }
  }

  lemma {:induction false} NoneLasting(events: seq<SubEvent>, xs: seq<Change>, id: NodeId, w: Window)
    ensures Lasting(events, xs, 0, id, w) == []
  {
    if events != [] {
      NoneLasting(events[..|events| - 1], xs, id, w);
    }
  }

  lemma AllListedSnoc(outages: seq<Outage>, o: Outage)
    ensures AllListed(outages + [o]) == AllListed(outages) + o.failures
  {
    assert (outages + [o])[..|outages|] == outages;
  }

  lemma {:induction false} ListedAre(xs: seq<Change>, n: nat, events: seq<SubEvent>, id: NodeId, w: Window)
    ensures AllListed(OutagesBefore(xs, n, events, id, w)) == Lasting(events, xs, n, id, w)
  {
    if n == 0 {
      NoneLasting(events, xs, id, w);
    } else {
      var before := OutagesBefore(xs, n - 1, events, id, w);
      ListedAre(xs, n - 1, events, id, w);
      LastingMore(events, xs, n - 1, id, w);
      if DownStretch(xs, n - 1) {
        var o := Outage(xs[n - 1].at, xs[n].at, FailuresUnder(events, id, w, n - 1));
        assert OutagesBefore(xs, n, events, id, w) == before + [o];
        AllListedSnoc(before, o);
      } else {
        assert OutagesBefore(xs, n, events, id, w) == before;
      }
    }
  }

  // For every log: reading the outages in order lists every failure that the log reports for the node, once
  // and in log order, but those reported in an outage that was over at the instant it began.
  lemma EveryFailureIsListed(log: SubLog, id: NodeId, w: Window)
    ensures var xs := Marks(log, id, w);
            AllListed(TimelineOf(log, id, w).outages) == Lasting(log.events, xs, |xs| - 1, id, w)
  {
    OutagesExactly(log, id, w);
    ListedAre(Marks(log, id, w), |Marks(log, id, w)| - 1, log.events, id, w);
  }

  // -------------------------------------------------------------------------
  // Under an outage that holds its time
  // -------------------------------------------------------------------------

  lemma {:induction false} FailureIsUnder(events: seq<SubEvent>, k: nat, id: NodeId, w: Window)
    requires k < |events| && FailureOf(events[k], id)
    ensures Failure(events[k].ts, events[k].error) in FailuresUnder(events, id, w, StretchAfter(events[..k + 1], id, w))
  {
    var init := events[..|events| - 1];
    if k == |events| - 1 {
      assert events[..k + 1] == events;
    } else {
      assert init[..k + 1] == events[..k + 1];
      FailureIsUnder(init, k, id, w);
    }
  }

  lemma {:induction false} StretchIsListed(xs: seq<Change>, n: nat, i: nat, events: seq<SubEvent>, id: NodeId,
                                           w: Window)
    requires i < n && DownStretch(xs, i)
    ensures Outage(xs[i].at, xs[i + 1].at, FailuresUnder(events, id, w, i)) in OutagesBefore(xs, n, events, id, w)
    decreases n
  {
    if i < n - 1 {
      StretchIsListed(xs, n - 1, i, events, id, w);
    }
  }

  // The node is down after a failure of its own.
  lemma DownAfterFailure(events: seq<SubEvent>, id: NodeId, w: Window)
    requires events != [] && FailureOf(events[|events| - 1], id)
    ensures var kept := Kept(ChangesOf(events, id, w), w); kept != [] && kept[|kept| - 1].state == Some(Down)
  {
    var changes := ChangesOf(events, id, w);
    assert LastState(changes) == Some(Down);
    KeptState(changes, w);
  }

  lemma {:induction false} KeptOfPrefix(events: seq<SubEvent>, k: nat, id: NodeId, w: Window)
    requires k <= |events|
    ensures Kept(ChangesOf(events[..k], id, w), w) <= Kept(ChangesOf(events, id, w), w)
  {
    if k == |events| {
      assert events[..k] == events;
    } else {
      var init, e := events[..|events| - 1], events[|events| - 1];
      assert init[..k] == events[..k];
      KeptOfPrefix(init, k, id, w);
      KeptGrows(ChangesOf(init, id, w), ChangesIn(e, id, w), w);
    }
  }

  lemma MarksGrow(log: SubLog, id: NodeId, w: Window)
    ensures Kept(ChangesOf(log.events, id, w), w) <= Kept(AllChanges(log, id, w), w)
  {
    var changes, all := ChangesOf(log.events, id, w), AllChanges(log, id, w);
    if all != changes {
      KeptSnoc(changes, all[|changes|], w);
    }
  }

  // The stretch that a failure was reported in is one of the marks.
  lemma FailureHasStretch(log: SubLog, k: nat, id: NodeId, w: Window)
    requires k < |log.events| && FailureOf(log.events[k], id)
    ensures var xs, i := Marks(log, id, w), StretchAfter(log.events[..k + 1], id, w);
            0 <= i < |xs| - 1 && xs[i].state == Some(Down)
  {
    var events := log.events[..k + 1];
    DownAfterFailure(events, id, w);
    KeptOfPrefix(log.events, k + 1, id, w);
    MarksGrow(log, id, w);
    var kept, all := Kept(ChangesOf(events, id, w), w), Kept(AllChanges(log, id, w), w);
    assert kept <= all && all[|kept| - 1] == kept[|kept| - 1];
    assert Marks(log, id, w)[|kept| - 1] == all[|kept| - 1];
  }

  // And it is listed.
  lemma StretchIsOutage(log: SubLog, xs: seq<Change>, i: nat, id: NodeId, w: Window)
    requires xs == Marks(log, id, w) && DownStretch(xs, i)
    ensures Outage(xs[i].at, xs[i + 1].at, FailuresUnder(log.events, id, w, i)) in TimelineOf(log, id, w).outages
  {
    StretchIsListed(xs, |xs| - 1, i, log.events, id, w);
    OutagesExactly(log, id, w);
  }

  // In order and inside the window, every failure that the log reports for the node is listed, with its time
  // and error, under an outage that holds its time, unless the stretch it was reported in has no length.
  lemma FailureIsListed(log: SubLog, k: nat, id: NodeId, w: Window)
    requires InOrder(AllChanges(log, id, w)) && FailuresInside(log.events, id, w)
    requires k < |log.events| && FailureOf(log.events[k], id)
    ensures var xs, i, e := Marks(log, id, w), StretchAfter(log.events[..k + 1], id, w), log.events[k];
            && 0 <= i < |xs| - 1 && xs[i].state == Some(Down)
            && (xs[i].at < xs[i + 1].at ==>
                  exists o :: o in TimelineOf(log, id, w).outages && o.from == xs[i].at && o.to == xs[i + 1].at
                           && Failure(e.ts, e.error) in o.failures && o.from <= e.ts <= o.to)
  {
    var xs, i, e := Marks(log, id, w), StretchAfter(log.events[..k + 1], id, w), log.events[k];
    FailureHasStretch(log, k, id, w);
    if xs[i].at < xs[i + 1].at {
      FailureIsUnder(log.events, k, id, w);
      StretchIsOutage(log, xs, i, id, w);
      var outages := TimelineOf(log, id, w).outages;
      var o := Outage(xs[i].at, xs[i + 1].at, FailuresUnder(log.events, id, w, i));
      var j :| 0 <= j < |outages| && outages[j] == o;
      FailuresLieWithinOutages(log, id, w);
      assert ClosedAround(outages[j], log.events, id);
    }
  }
}
