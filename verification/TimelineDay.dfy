/** What a timeline shows of each event, of the gaps in the record and of the whole day, said of the log itself. */
module TimelineDay {
  import opened Options
  import opened Timeline
  import opened TimelineProofs

  // Everything the event says is from after t on.
  predicate After(e: SubEvent, w: Window, t: Time) {
    t < e.ts && (e.kind == Boot ==> t < (if e.lastAlive.Some? then e.lastAlive.value else w.dayStart))
  }

  // The record stopped more than three minutes before its end.
  predicate Silent(log: SubLog, w: Window) {
    log.lastAlive.Some? && w.end > log.lastAlive.value + 180.0
  }

  lemma {:induction false} LaterChangesDoNotMatter(a: seq<Change>, b: seq<Change>, t: Time)
    requires forall c :: c in b ==> t < c.at
    ensures StateAt(a + b, t) == StateAt(a, t)
    decreases |b|
  {
    if b == [] {
      assert a + b == a;
    } else {
      var c := b[|b| - 1];
      assert a + b == (a + b[..|b| - 1]) + [c];
      StateAtSnoc(a + b[..|b| - 1], c, t);
      LaterChangesDoNotMatter(a, b[..|b| - 1], t);
    }
  }

  lemma ChangesFrom(e: SubEvent, id: NodeId, w: Window, t: Time)
    requires Concerns(e, id) ==> After(e, w, t)
    ensures forall c :: c in ChangesIn(e, id, w) ==> t < c.at
  {
  }

  // The changes of the events after the k-th that concern the node.
  lemma {:induction false} LaterChanges(events: seq<SubEvent>, k: nat, id: NodeId, w: Window, t: Time)
    returns (more: seq<Change>)
    requires k < |events|
    requires forall j :: k < j < |events| && Concerns(events[j], id) ==> After(events[j], w, t)
    ensures ChangesOf(events, id, w) == ChangesOf(events[..k + 1], id, w) + more
    ensures forall c :: c in more ==> t < c.at
  {
    if k == |events| - 1 {
      assert events[..k + 1] == events;
      more := [];
    } else {
      var init, e := events[..|events| - 1], events[|events| - 1];
      var earlier := LaterChanges(init, k, id, w, t);
      assert init[..k + 1] == events[..k + 1];
      ChangesFrom(e, id, w, t);
      more := earlier + ChangesIn(e, id, w);
    }
  }

  // Before the silence at the end, and if there is none, the state is that of the last change.
  lemma StateOfAll(log: SubLog, id: NodeId, w: Window, t: Time)
    ensures StateAt(AllChanges(log, id, w), t) ==
            if Silent(log, w) && log.lastAlive.value <= t && LastState(ChangesOf(log.events, id, w)) != None
            then Some(Off) else StateAt(ChangesOf(log.events, id, w), t)
  {
    if log.lastAlive.Some? {
      StateAtSnoc(ChangesOf(log.events, id, w), Change(Some(Off), log.lastAlive.value), t);
    }
  }

  // -------------------------------------------------------------------------
  // Events
  // -------------------------------------------------------------------------

  // From an event on, until the next one that concerns the node or the silence at the end, a node is drawn up
  // if it was subscribed, not at all if it was removed, and down otherwise.
  lemma EventIsDrawn(log: SubLog, id: NodeId, w: Window, k: nat, t: Time)
    requires WellFormed(log, w) && k < |log.events| && Concerns(log.events[k], id)
    requires w.dayStart <= t < w.end && log.events[k].ts <= t
    requires forall j :: k < j < |log.events| && Concerns(log.events[j], id) ==> After(log.events[j], w, t)
    requires Silent(log, w) ==> t < log.lastAlive.value
    ensures Shows(TimelineOf(log, id, w).segments, t,
                  match log.events[k].kind
                  case UpAtStart | Established => Some(Up)
                  case Removed => None
                  case DayStart | Boot | Terminated | Failed => Some(Down))
  {
    WellFormedIsInOrder(log, id, w);
    TimelineRefinesPointReplay(log, id, w);
    StateOfAll(log, id, w, t);
    StateAfterEvent(log.events, id, w, k, t);
  }

  function Leaves(kind: EventKind): Option<SegmentState> {
    match kind
    case UpAtStart | Established => Some(Up)
    case Removed => None
    case DayStart | Boot | Terminated | Failed => Some(Down)
  }

  lemma EventLeaves(before: seq<Change>, e: SubEvent, id: NodeId, w: Window, t: Time)
    requires Concerns(e, id) && e.ts <= t
    ensures StateAt(before + ChangesIn(e, id, w), t) == Leaves(e.kind)
  {
    var changes := ChangesIn(e, id, w);
    var last := changes[|changes| - 1];
    assert last.at == e.ts && last.state == Leaves(e.kind);
    assert before + changes == (before + changes[..|changes| - 1]) + [last];
    StateAtSnoc(before + changes[..|changes| - 1], last, t);
  }

  lemma StateAfterEvent(events: seq<SubEvent>, id: NodeId, w: Window, k: nat, t: Time)
    requires k < |events| && Concerns(events[k], id) && events[k].ts <= t
    requires forall j :: k < j < |events| && Concerns(events[j], id) ==> After(events[j], w, t)
    ensures StateAt(ChangesOf(events, id, w), t) == Leaves(events[k].kind)
  {
    var upTo := events[..k + 1];
    var more := LaterChanges(events, k, id, w, t);
    LaterChangesDoNotMatter(ChangesOf(upTo, id, w), more, t);
    assert upTo[..|upTo| - 1] == events[..k] && upTo[|upTo| - 1] == events[k];
    EventLeaves(ChangesOf(events[..k], id, w), events[k], id, w, t);
  }

  lemma {:induction false} TsIsTime(events: seq<SubEvent>, k: nat, w: Window) returns (i: nat)
    requires k < |events|
    ensures i < |EffectiveTimes(events, w)| && EffectiveTimes(events, w)[i] == events[k].ts
  {
    var init, e := events[..|events| - 1], events[|events| - 1];
    var earlier, more := EffectiveTimes(init, w), TimesIn(e, w);
    if k == |events| - 1 {
      i := |earlier| + |more| - 1;
    } else {
      i := TsIsTime(init, k, w);
    }
  }

  lemma NonDecreasingParts(a: seq<Time>, b: seq<Time>)
    requires NonDecreasing(a + b)
    ensures NonDecreasing(a) && NonDecreasing(b)
    ensures forall i, j :: 0 <= i < |a| && 0 <= j < |b| ==> a[i] <= b[j]
  {
    assert forall i :: 0 <= i < |a| ==> a[i] == (a + b)[i];
    assert forall j :: 0 <= j < |b| ==> b[j] == (a + b)[|a| + j];
  }

  lemma {:induction false} LaterEventsAreAfter(events: seq<SubEvent>, k: nat, w: Window, t: Time)
    requires NonDecreasing(EffectiveTimes(events, w)) && k < |events| && t < events[k].ts
    ensures forall j :: k < j < |events| ==> After(events[j], w, t)
  {
    if k < |events| - 1 {
      var init, e := events[..|events| - 1], events[|events| - 1];
      var earlier, more := EffectiveTimes(init, w), TimesIn(e, w);
      var i := TsIsTime(init, k, w);
      NonDecreasingParts(earlier, more);
      LaterEventsAreAfter(init, k, w, t);
      assert earlier[i] <= more[0];
      assert e.kind == Boot ==> more[0] <= more[1];
    }
  }

  // A boot unsubscribes everything: from the monitor's last sign of life before it, or from midnight if none is
  // known, up to the boot every node is drawn off.
  lemma BootIsDrawn(log: SubLog, id: NodeId, w: Window, k: nat, t: Time)
    requires WellFormed(log, w) && k < |log.events| && log.events[k].kind == Boot
    requires w.dayStart <= t < w.end && t < log.events[k].ts
    requires log.events[k].lastAlive.Some? ==> log.events[k].lastAlive.value <= t
    ensures Shows(TimelineOf(log, id, w).segments, t, Some(Off))
  {
    WellFormedIsInOrder(log, id, w);
    TimelineRefinesPointReplay(log, id, w);
    StateOfAll(log, id, w, t);
    AllAfter(log, k, w, t);
    StateBeforeBoot(log.events, id, w, k, t);
  }

  // Nothing after the k-th event of a well-formed log is earlier than it.
  lemma AllAfter(log: SubLog, k: nat, w: Window, t: Time)
    requires WellFormed(log, w) && k < |log.events| && t < log.events[k].ts
    ensures forall j :: k < j < |log.events| ==> After(log.events[j], w, t)
    ensures Silent(log, w) ==> t < log.lastAlive.value
  {
    var silence := if WentSilent(log, w) then [log.lastAlive.value] else [];
    NonDecreasingParts(EffectiveTimes(log.events, w), silence);
    LaterEventsAreAfter(log.events, k, w, t);
    var i := TsIsTime(log.events, k, w);
    assert WentSilent(log, w) ==> EffectiveTimes(log.events, w)[i] <= silence[0];
  }

  lemma StateBeforeBoot(events: seq<SubEvent>, id: NodeId, w: Window, k: nat, t: Time)
    requires k < |events| && events[k].kind == Boot && w.dayStart <= t < events[k].ts
    requires events[k].lastAlive.Some? ==> events[k].lastAlive.value <= t
    requires forall j :: k < j < |events| ==> After(events[j], w, t)
    ensures StateAt(ChangesOf(events, id, w), t) == Some(Off)
  {
    var upTo := events[..k + 1];
    var more := LaterChanges(events, k, id, w, t);
    LaterChangesDoNotMatter(ChangesOf(upTo, id, w), more, t);
    assert upTo[..|upTo| - 1] == events[..k] && upTo[|upTo| - 1] == events[k];
    BootState(ChangesOf(events[..k], id, w), events[k], w, t);
  }

  lemma BootState(before: seq<Change>, e: SubEvent, w: Window, t: Time)
    requires w.dayStart <= t < e.ts && (e.lastAlive.Some? ==> e.lastAlive.value <= t)
    ensures StateAt(before + [Change(Some(Off), OffSince(e, w)), Change(Some(Down), e.ts)], t) == Some(Off)
  {
    var off, down := Change(Some(Off), OffSince(e, w)), Change(Some(Down), e.ts);
    assert before + [off, down] == (before + [off]) + [down];
    StateAtSnoc(before + [off], down, t);
    StateAtSnoc(before, off, t);
  }

  // A record that stopped more than three minutes before the end of the view is drawn off from there, for every
  // node that the log speaks of and has not removed; any other record says nothing new.
  lemma SilenceIsDrawn(log: SubLog, id: NodeId, w: Window, t: Time)
    requires WellFormed(log, w) && w.dayStart <= t < w.end
    ensures var changes := ChangesOf(log.events, id, w);
            Shows(TimelineOf(log, id, w).segments, t,
                  if Silent(log, w) && t >= log.lastAlive.value && LastState(changes) != None then Some(Off)
                  else StateAt(changes, t))
  {
    WellFormedIsInOrder(log, id, w);
    TimelineRefinesPointReplay(log, id, w);
    StateOfAll(log, id, w, t);
  }

  // -------------------------------------------------------------------------
  // The day
  // -------------------------------------------------------------------------

  lemma {:induction false} DayStartComesFirst(events: seq<SubEvent>, id: NodeId, w: Window)
    requires events != [] && events[0].kind == DayStart
    requires forall e :: e in events && e.kind == Removed ==> e.nodeId != Some(id)
    ensures var changes := ChangesOf(events, id, w);
            changes != [] && changes[0].at == events[0].ts && NeverRemoved(changes)
  {
    var init := events[..|events| - 1];
    if init != [] {
      DayStartComesFirst(init, id, w);
    }
  }

  // A day whose file starts at midnight is drawn whole for every node not removed: the times up, down and off add
  // up to the length of a past day, and for today to the time since midnight.
  lemma DayIsCovered(log: SubLog, id: NodeId, dayStart: Time, dayEnd: Time, isToday: bool, now: Time)
    requires dayStart <= dayEnd && (isToday ==> dayStart <= now)
    requires WellFormed(log, WindowOf(dayStart, dayEnd, isToday, now))
    requires log.events != [] && log.events[0].kind == DayStart && log.events[0].ts <= dayStart
    requires forall e :: e in log.events && e.kind == Removed ==> e.nodeId != Some(id)
    ensures var segments := TimelineOf(log, id, WindowOf(dayStart, dayEnd, isToday, now)).segments;
            Length(segments, Up) + Length(segments, Down) + Length(segments, Off) ==
              if isToday && now < dayEnd then now - dayStart else dayEnd - dayStart
  {
    var w := WindowOf(dayStart, dayEnd, isToday, now);
    WellFormedIsInOrder(log, id, w);
    DayStartComesFirst(log.events, id, w);
    TimeIsConserved(log, id, w);
  }
}
