/** A day's file is enough to draw the day, and the page's requirement on its log is met. */
module SubscriptionLogProofs {
  import opened Options
  import opened Timeline
  import opened TimelineProofs
  import opened SubscriptionLog

  // -------------------------------------------------------------------------
  // What a day's file holds
  // -------------------------------------------------------------------------

  // A file starts with the nodes that were up after what was written before its first entry, or with none if
  // that is a boot after a reboot.
  ghost predicate FileIs(file: seq<Entry>, entries: seq<Entry>, day: Day, midnight: Calendar) {
    exists up :: FileWith(file, up, day, Before(entries, day, midnight), OnDay(entries, day, midnight))
  }

  predicate FileWith(file: seq<Entry>, up: seq<NodeId>, day: Day, before: seq<Entry>, onDay: seq<Entry>) {
    && file == Header(day, up) + onDay && onDay != []
    && (up == UpAfter(before) || (up == [] && IsBoot(onDay[0])))
  }

  predicate IsBoot(e: Entry) { e.Event? && e.kind == Boot }

  ghost predicate Filed(m: Monitor, entries: seq<Entry>, midnight: Calendar) {
    forall day :: if day in m.files then FileIs(m.files[day], entries, day, midnight)
                  else OnDay(entries, day, midnight) == []
  }

  lemma OnDaySnoc(entries: seq<Entry>, e: Entry, day: Day, midnight: Calendar)
    ensures OnDay(entries + [e], day, midnight) ==
            OnDay(entries, day, midnight) + (if midnight(e.ts) == day then [e] else [])
    ensures OnDay(entries + [e], day, midnight) != [] ==>
            Before(entries + [e], day, midnight) == Before(entries, day, midnight)
  {
    assert (entries + [e])[..|entries|] == entries;
  }

  lemma FileGrows(file: seq<Entry>, up: seq<NodeId>, day: Day, before: seq<Entry>, onDay: seq<Entry>, e: Entry)
    requires FileWith(file, up, day, before, onDay)
    ensures FileWith(file + [e], up, day, before, onDay + [e])
  {
    assert file + [e] == Header(day, up) + (onDay + [e]);
    assert (onDay + [e])[0] == onDay[0];
  }

  lemma FileStarts(up: seq<NodeId>, day: Day, before: seq<Entry>, e: Entry)
    requires up == UpAfter(before) || (up == [] && IsBoot(e))
    ensures FileWith(Header(day, up) + [e], up, day, before, [e])
  {
  }

  lemma OtherDay(entries: seq<Entry>, e: Entry, day: Day, file: seq<Entry>, midnight: Calendar)
    requires FileIs(file, entries, day, midnight) && midnight(e.ts) != day
    ensures FileIs(file, entries + [e], day, midnight)
  {
    OnDaySnoc(entries, e, day, midnight);
    assert OnDay(entries + [e], day, midnight) == OnDay(entries, day, midnight);
  }

  lemma SameDay(entries: seq<Entry>, e: Entry, day: Day, file: seq<Entry>, midnight: Calendar)
    requires FileIs(file, entries, day, midnight) && midnight(e.ts) == day
    ensures FileIs(file + [e], entries + [e], day, midnight)
  {
    OnDaySnoc(entries, e, day, midnight);
    var before, onDay := Before(entries, day, midnight), OnDay(entries, day, midnight);
    var up :| FileWith(file, up, day, before, onDay);
    FileGrows(file, up, day, before, onDay, e);
  }

  lemma FirstOfDay(entries: seq<Entry>, e: Entry, up: seq<NodeId>, day: Day, midnight: Calendar)
    requires OnDay(entries, day, midnight) == [] && midnight(e.ts) == day
    requires up == UpAfter(entries) || (up == [] && IsBoot(e))
    ensures FileIs(Header(day, up) + [e], entries + [e], day, midnight)
  {
    OnDaySnoc(entries, e, day, midnight);
    FileStarts(up, day, entries, e);
    assert OnDay(entries + [e], day, midnight) == [e];
  }

  lemma WriteFiled(m: Monitor, entries: seq<Entry>, e: Entry, midnight: Calendar)
    requires Filed(m, entries, midnight)
    requires m.up == UpAfter(entries) || (m.up == [] && IsBoot(e))
    ensures Filed(WriteEntry(m, e, midnight), entries + [e], midnight)
  {
    var day := midnight(e.ts);
    var w := WriteEntry(m, e, midnight);
    forall other ensures if other in w.files then FileIs(w.files[other], entries + [e], other, midnight)
                         else OnDay(entries + [e], other, midnight) == []
    {
      OnDaySnoc(entries, e, other, midnight);
      if other == day {
        if day in m.files {
          SameDay(entries, e, day, m.files[day], midnight);
        } else {
          FirstOfDay(entries, e, m.up, day, midnight);
        }
      } else if other in m.files {
        OtherDay(entries, e, other, m.files[other], midnight);
      }
    }
  }

  lemma UpAfterSnoc(entries: seq<Entry>, e: Entry)
    ensures UpAfter(entries + [e]) == ApplyToUp(UpAfter(entries), e)
  {
    assert (entries + [e])[..|entries|] == entries;
  }

  // On every run in which a boot is the first thing recorded after a reboot, whatever the dates: every file
  // is the nodes that were up after what was written before its first entry, or none if that is the boot after a
  // reboot, and then everything dated that day, as it was written.
  lemma {:induction false} EveryFileIs(steps: seq<Step>, midnight: Calendar)
    requires BootsFirst(steps)
    ensures Filed(Written(steps, midnight), History(steps), midnight)
    ensures steps == [] || steps[|steps| - 1].Write? ==> Written(steps, midnight).up == UpAfter(History(steps))
  {
    if steps != [] {
      var init, last := steps[..|steps| - 1], steps[|steps| - 1];
      var entries := History(init);
      assert forall i :: 0 <= i < |init| ==> init[i] == steps[i];
      assert init != [] && init[|init| - 1].Reboot? ==>
          steps[|init|].Write? && steps[|init|].entry.Event? && steps[|init|].entry.kind == Boot;
      EveryFileIs(init, midnight);
      if last.Write? {
        WriteFiled(Written(init, midnight), entries, last.entry, midnight);
        UpAfterSnoc(entries, last.entry);
      } else {
        assert History(steps) == entries;
      }
    }
  }

  // -------------------------------------------------------------------------
  // What a day's file shows
  // -------------------------------------------------------------------------

  function ChangesSent(entries: seq<Entry>, id: NodeId, w: Window): seq<Change> {
    ChangesOf(SentFor(entries).events, id, w)
  }

  // What one entry adds to the changes of a node.
  function ChangesFor(s: Sent, e: Entry, id: NodeId, w: Window): seq<Change> {
    if e.Alive? then [] else ChangesIn(Emit(Sent([], s.lastAlive), e).events[0], id, w)
  }

  lemma SentSnoc(entries: seq<Entry>, e: Entry, id: NodeId, w: Window)
    ensures SentFor(entries + [e]) == Emit(SentFor(entries), e)
    ensures ChangesSent(entries + [e], id, w) ==
            ChangesSent(entries, id, w) + ChangesFor(SentFor(entries), e, id, w)
  {
    assert (entries + [e])[..|entries|] == entries;
    var was, now := SentFor(entries).events, SentFor(entries + [e]).events;
    if e.Event? {
      assert now[..|was|] == was;
    }
  }

  ghost predicate NoTwice(up: seq<NodeId>) {
    forall id :: multiset(up)[id] <= 1
  }

  lemma {:induction false} EraseErases(up: seq<NodeId>, id: NodeId)
    ensures multiset(Erase(up, id)) == multiset(up) - multiset{id}
  {
    if up != [] {
      assert up == [up[0]] + up[1..];
      EraseErases(up[1..], id);
    }
  }

  lemma EraseMeans(up: seq<NodeId>, gone: NodeId, id: NodeId)
    requires NoTwice(up)
    ensures id in Erase(up, gone) <==> id in up && id != gone
  {
    EraseErases(up, gone);
    var was: seq<nat>, now: seq<nat> := up, Erase(up, gone);
    assert id in was <==> multiset(was)[id] > 0;
    assert id in now <==> multiset(now)[id] > 0;
  }

  lemma ApplyToUpMeans(up: seq<NodeId>, e: Entry, id: NodeId)
    requires NoTwice(up) && (e.Event? ==> Recordable(e.kind))
    ensures id in ApplyToUp(up, e) <==>
            if e.Event? && e.kind == Boot then false
            else if e.Event? && e.nodeId == id then e.kind == Established
            else id in up
  {
    if e.Event? {
      EraseMeans(up, e.nodeId, id);
    }
  }

  lemma AddNoTwice(up: seq<NodeId>, id: NodeId)
    requires NoTwice(up) && id !in up
    ensures NoTwice(up + [id])
  {
    var was: seq<nat> := up;
    assert multiset(was)[id] == 0;
  }

  lemma EraseNoTwice(up: seq<NodeId>, id: NodeId)
    requires NoTwice(up)
    ensures NoTwice(Erase(up, id))
  {
    EraseErases(up, id);
  }

  lemma ApplyNoTwice(up: seq<NodeId>, e: Entry)
    requires NoTwice(up)
    ensures NoTwice(ApplyToUp(up, e))
  {
    if e.Event? {
      EraseNoTwice(up, e.nodeId);
      if e.nodeId !in up {
        AddNoTwice(up, e.nodeId);
      }
    }
  }

  lemma {:induction false} NoneTwice(entries: seq<Entry>)
    ensures NoTwice(UpAfter(entries))
  {
    if entries != [] {
      NoneTwice(entries[..|entries| - 1]);
      ApplyNoTwice(UpAfter(entries[..|entries| - 1]), entries[|entries| - 1]);
    }
  }

  lemma EntriesSplit(entries: seq<Entry>)
    requires entries != []
    ensures entries == entries[..|entries| - 1] + [entries[|entries| - 1]]
    ensures forall e :: e in entries[..|entries| - 1] ==> e in entries
    ensures entries[|entries| - 1] in entries
  {
  }

  // The nodes remembered as up are those whose last change is to up, and no node is left off.
  lemma {:induction false} UpIsLastUp(entries: seq<Entry>, id: NodeId, w: Window)
    requires OrdinaryEntries(entries)
    ensures id in UpAfter(entries) <==> LastState(ChangesSent(entries, id, w)) == Some(Up)
    ensures LastState(ChangesSent(entries, id, w)) != Some(Off)
  {
    if entries != [] {
      var init, last := entries[..|entries| - 1], entries[|entries| - 1];
      EntriesSplit(entries);
      UpIsLastUp(init, id, w);
      SentSnoc(init, last, id, w);
      NoneTwice(init);
      ApplyToUpMeans(UpAfter(init), last, id);
      var was, more := ChangesSent(init, id, w), ChangesFor(SentFor(init), last, id, w);
      if more == [] {
        assert was + more == was;
      } else {
        assert (was + more)[|was + more| - 1] == more[|more| - 1];
      }
    }
  }

  ghost predicate Early(s: Sent, changes: seq<Change>, bound: Time) {
    && (forall i :: 0 <= i < |changes| ==> changes[i].at <= bound)
    && (s.lastAlive.Some? ==> s.lastAlive.value as real <= bound)
  }

  lemma EntryEarly(s: Sent, e: Entry, id: NodeId, w: Window, bound: Time)
    requires w.dayStart <= bound && e.ts as real <= bound && Early(s, [], bound)
    ensures Early(Emit(s, e), ChangesFor(s, e, id, w), bound)
  {
  }

  lemma {:induction false} EarlyEntries(entries: seq<Entry>, id: NodeId, w: Window, bound: Time)
    requires w.dayStart <= bound && forall e :: e in entries ==> e.ts as real <= bound
    ensures Early(SentFor(entries), ChangesSent(entries, id, w), bound)
  {
    if entries != [] {
      var init, last := entries[..|entries| - 1], entries[|entries| - 1];
      EntriesSplit(entries);
      EarlyEntries(init, id, w, bound);
      SentSnoc(init, last, id, w);
      EntryEarly(SentFor(init), last, id, w, bound);
    }
  }

  lemma {:induction false} HeaderState(day: Day, up: seq<NodeId>, id: NodeId, w: Window)
    ensures SentFor(Header(day, up)).lastAlive.None?
    ensures LastState(ChangesSent(Header(day, up), id, w)) == Some(if id in up then Up else Down)
    decreases |up|
  {
    if up == [] {
      assert Header(day, up) == [] + [Event(DayStart, 0, day, 0)];
      SentSnoc([], Event(DayStart, 0, day, 0), id, w);
    } else {
      var init, last := up[..|up| - 1], Event(UpAtStart, up[|up| - 1], day, 0);
      assert Header(day, up) == Header(day, init) + [last];
      HeaderState(day, init, id, w);
      SentSnoc(Header(day, init), last, id, w);
      assert id in up <==> id in init || id == up[|up| - 1];
      assert ChangesFor(SentFor(Header(day, init)), last, id, w) ==
             if id == up[|up| - 1] then [Change(Some(Up), day as real)] else [];
      assert ChangesSent(Header(day, init), id, w) + [] == ChangesSent(Header(day, init), id, w);
    }
  }

  // The file shows what the history shows, except that a node the history does not know is down.
  predicate Alike(history: Option<SegmentState>, file: Option<SegmentState>) {
    file == history || (history.None? && file == Some(Down))
  }

  predicate AlikeAlive(history: Sent, file: Sent, w: Window) {
    file.lastAlive == history.lastAlive ||
    (file.lastAlive.None? && history.lastAlive.value as real <= w.dayStart)
  }

  lemma AddBoth(a: seq<Change>, b: seq<Change>, c: Change, t: Time)
    requires Alike(StateAt(a, t), StateAt(b, t)) || c.at <= t
    ensures Alike(StateAt(a + [c], t), StateAt(b + [c], t))
  {
    StateAtSnoc(a, c, t);
    StateAtSnoc(b, c, t);
  }

  lemma BootAlike(a: seq<Change>, b: seq<Change>, off: Time, other: Time, ts: Time, t: Time)
    requires off == other || (off <= t && other <= t)
    requires Alike(StateAt(a, t), StateAt(b, t)) || (off <= t && other <= t)
    ensures Alike(StateAt(a + [Change(Some(Off), off), Change(Some(Down), ts)], t),
                  StateAt(b + [Change(Some(Off), other), Change(Some(Down), ts)], t))
  {
    var x, y := Change(Some(Off), off), Change(Some(Off), other);
    StateAtSnoc(a, x, t);
    StateAtSnoc(b, y, t);
    assert a + [x, Change(Some(Down), ts)] == (a + [x]) + [Change(Some(Down), ts)];
    assert b + [y, Change(Some(Down), ts)] == (b + [y]) + [Change(Some(Down), ts)];
    AddBoth(a + [x], b + [y], Change(Some(Down), ts), t);
  }

  lemma BootEntryAlike(history: seq<Entry>, file: seq<Entry>, e: Entry, id: NodeId, w: Window, t: Time)
    requires IsBoot(e) && AlikeAlive(SentFor(history), SentFor(file), w) && w.dayStart <= t
    requires Alike(StateAt(ChangesSent(history, id, w), t), StateAt(ChangesSent(file, id, w), t)) ||
             (Early(SentFor(history), [], t) && SentFor(file).lastAlive.None?)
    ensures Alike(StateAt(ChangesSent(history + [e], id, w), t), StateAt(ChangesSent(file + [e], id, w), t))
  {
    SentSnoc(history, e, id, w);
    SentSnoc(file, e, id, w);
    var x, y := ChangesFor(SentFor(history), e, id, w), ChangesFor(SentFor(file), e, id, w);
    assert x == [Change(Some(Off), x[0].at), Change(Some(Down), e.ts as real)];
    assert y == [Change(Some(Off), y[0].at), Change(Some(Down), e.ts as real)];
    BootAlike(ChangesSent(history, id, w), ChangesSent(file, id, w), x[0].at, y[0].at, e.ts as real, t);
  }

  lemma OtherEntryAlike(history: seq<Entry>, file: seq<Entry>, e: Entry, id: NodeId, w: Window, t: Time)
    requires !IsBoot(e)
    requires Alike(StateAt(ChangesSent(history, id, w), t), StateAt(ChangesSent(file, id, w), t))
    ensures Alike(StateAt(ChangesSent(history + [e], id, w), t), StateAt(ChangesSent(file + [e], id, w), t))
  {
    var a, b := ChangesSent(history, id, w), ChangesSent(file, id, w);
    SentSnoc(history, e, id, w);
    SentSnoc(file, e, id, w);
    var x := ChangesFor(SentFor(history), e, id, w);
    assert ChangesFor(SentFor(file), e, id, w) == x;
    if x == [] {
      assert a + x == a && b + x == b;
    } else {
      assert x == [x[0]];
      AddBoth(a, b, x[0], t);
    }
  }

  // One more entry in both keeps them alike; a boot makes them alike.
  lemma EntryAlike(history: seq<Entry>, file: seq<Entry>, e: Entry, id: NodeId, w: Window, t: Time)
    requires AlikeAlive(SentFor(history), SentFor(file), w) && w.dayStart <= t
    requires Alike(StateAt(ChangesSent(history, id, w), t), StateAt(ChangesSent(file, id, w), t)) ||
             (IsBoot(e) && Early(SentFor(history), [], t) && SentFor(file).lastAlive.None?)
    ensures AlikeAlive(SentFor(history + [e]), SentFor(file + [e]), w)
    ensures Alike(StateAt(ChangesSent(history + [e], id, w), t), StateAt(ChangesSent(file + [e], id, w), t))
  {
    SentSnoc(history, e, id, w);
    SentSnoc(file, e, id, w);
    if IsBoot(e) {
      BootEntryAlike(history, file, e, id, w, t);
    } else {
      OtherEntryAlike(history, file, e, id, w, t);
    }
  }

  lemma NotOff(state: SegmentState)
    ensures state == Off || state == Up || state == Down
  {
    match state
    case Up =>
    case Down =>
    case Off =>
  }

  // Where the day begins.
  lemma StartAlike(up: seq<NodeId>, day: Day, before: seq<Entry>, id: NodeId, w: Window, t: Time)
    requires OrdinaryEntries(before) && w.dayStart == day as real <= t && forall e :: e in before ==> e.ts <= day
    ensures SentFor(Header(day, up)).lastAlive.None? && Early(SentFor(before), [], day as real)
    ensures up == UpAfter(before) ==>
              Alike(StateAt(ChangesSent(before, id, w), t), StateAt(ChangesSent(Header(day, up), id, w), t))
  {
    HeaderState(day, up, id, w);
    UpIsLastUp(before, id, w);
    EarlyEntries(before, id, w, day as real);
    EarlyEntries(Header(day, up), id, w, day as real);
    StateWhenEarly(ChangesSent(before, id, w), t);
    StateWhenEarly(ChangesSent(Header(day, up), id, w), t);
    match LastState(ChangesSent(before, id, w))
    case None =>
    case Some(state) => NotOff(state);
  }

  lemma {:induction false} FileShows(file: seq<Entry>, up: seq<NodeId>, day: Day, before: seq<Entry>,
                                     onDay: seq<Entry>, id: NodeId, w: Window, t: Time)
    requires FileWith(file, up, day, before, onDay) && OrdinaryEntries(before)
    requires w.dayStart == day as real <= t && forall e :: e in before ==> e.ts <= day
    ensures AlikeAlive(SentFor(before + onDay), SentFor(file), w)
    ensures Alike(StateAt(ChangesSent(before + onDay, id, w), t), StateAt(ChangesSent(file, id, w), t))
    decreases |onDay|
  {
    var init, e := onDay[..|onDay| - 1], onDay[|onDay| - 1];
    var start := Header(day, up) + init;
    assert file == start + [e] && before + onDay == (before + init) + [e];
    if init == [] {
      assert before + init == before && start == Header(day, up);
      StartAlike(up, day, before, id, w, t);
    } else {
      FileShows(start, up, day, before, init, id, w, t);
    }
    EntryAlike(before + init, start, e, id, w, t);
  }

  // Only the kinds of the entries and their nodes matter to which nodes are up.
  lemma {:induction false} AsOfKeeps(entries: seq<Entry>, day: Day)
    ensures UpAfter(AsOf(entries, day)) == UpAfter(entries)
    ensures OrdinaryEntries(entries) ==> OrdinaryEntries(AsOf(entries, day))
    ensures forall e :: e in AsOf(entries, day) ==> e.ts <= day
  {
    if entries != [] {
      var init, last := entries[..|entries| - 1], entries[|entries| - 1];
      EntriesSplit(entries);
      AsOfKeeps(init, day);
      assert AsOf(entries, day)[..|entries| - 1] == AsOf(init, day);
      assert AsOf(entries, day) == AsOf(init, day) + [NoLater(last, day)];
    }
  }

  lemma {:induction false} BeforeMembers(entries: seq<Entry>, day: Day, midnight: Calendar)
    ensures Before(entries, day, midnight) <= entries
  {
    if OnDay(entries, day, midnight) != [] {
      BeforeMembers(entries[..|entries| - 1], day, midnight);
    }
  }

  // The history as far as the day goes: what was written before the day's first entry, as of the start of
  // the day, and then what is dated that day.
  function HistoryFor(entries: seq<Entry>, day: Day, midnight: Calendar): seq<Entry> {
    AsOf(Before(entries, day, midnight), day) + OnDay(entries, day, midnight)
  }

  // A day's file, on its own, shows at every instant of the day what replaying the history shows, whatever
  // the dates; a node that the history does not know yet is shown as not subscribed.
  lemma DayShowsHistory(steps: seq<Step>, midnight: Calendar, day: Day, id: NodeId, w: Window, t: Time)
    requires BootsFirst(steps) && OrdinaryEntries(History(steps))
    requires day in Written(steps, midnight).files && w.dayStart == day as real <= t
    ensures Alike(StateAt(ChangesSent(HistoryFor(History(steps), day, midnight), id, w), t),
                  StateAt(ChangesSent(Written(steps, midnight).files[day], id, w), t))
  {
    var entries, file := History(steps), Written(steps, midnight).files[day];
    EveryFileIs(steps, midnight);
    assert FileIs(file, entries, day, midnight);
    var before, onDay := Before(entries, day, midnight), OnDay(entries, day, midnight);
    var up :| FileWith(file, up, day, before, onDay);
    BeforeMembers(entries, day, midnight);
    assert OrdinaryEntries(before);
    AsOfKeeps(before, day);
    FileShows(file, up, day, AsOf(before, day), onDay, id, w, t);
  }

  // When the dates never go backwards that is the whole history up to the end of the day.
  lemma {:induction false} HistoryInOrder(entries: seq<Entry>, day: Day, midnight: Calendar)
    requires IsCalendar(midnight) && Timed(entries) && OnDay(entries, day, midnight) != []
    ensures HistoryFor(entries, day, midnight) == Until(entries, day + 1, midnight)
    decreases |entries|
  {
    var init, last := entries[..|entries| - 1], entries[|entries| - 1];
    EntriesSplit(entries);
    OnDaySnoc(init, last, day, midnight);
    assert Timed(init) by {
      assert forall i :: 0 <= i < |init| ==> init[i] == entries[i];
    }
    if OnDay(init, day, midnight) != [] {
      HistoryInOrder(init, day, midnight);
      NotBefore(init, last, day, midnight);
      assert AsOf(Before(init, day, midnight), day) + (OnDay(init, day, midnight) + [last]) ==
             HistoryFor(init, day, midnight) + [last];
    } else {
      AllEarlier(init, last, day, midnight);
      assert OnDay(entries, day, midnight) == [last];
    }
  }

  // After an entry of the day none is dated before it.
  lemma NotBefore(entries: seq<Entry>, e: Entry, day: Day, midnight: Calendar)
    requires IsCalendar(midnight) && Timed(entries + [e]) && OnDay(entries, day, midnight) != []
    ensures midnight(e.ts) >= day
  {
    OnDayMembers(entries, day, midnight);
    var x := OnDay(entries, day, midnight)[0];
    var i :| 0 <= i < |entries| && entries[i] == x;
    assert (entries + [e])[i] == x && (entries + [e])[|entries|] == e;
  }

  // Before the first entry of the day all are dated before it.
  lemma AllEarlier(entries: seq<Entry>, e: Entry, day: Day, midnight: Calendar)
    requires IsCalendar(midnight) && Timed(entries + [e])
    requires OnDay(entries, day, midnight) == [] && midnight(e.ts) == day
    ensures AsOf(entries, day) == entries == Until(entries, day + 1, midnight)
  {
    forall x | x in entries ensures midnight(x.ts) < day && x.ts <= day {
      var i :| 0 <= i < |entries| && entries[i] == x;
      assert (entries + [e])[i] == x && (entries + [e])[|entries|] == e;
      NotOnDay(entries, x, day, midnight);
      EarlierDay(x.ts, e.ts, midnight);
    }
    AllUntil(entries, day + 1, midnight);
  }

  lemma EarlierDay(t: nat, u: nat, midnight: Calendar)
    requires IsCalendar(midnight) && midnight(t) < midnight(u)
    ensures t < midnight(u)
  {
    assert midnight(midnight(u)) == midnight(u);
    assert t >= midnight(u) ==> midnight(midnight(u)) <= midnight(t);
  }

  lemma {:induction false} NotOnDay(entries: seq<Entry>, e: Entry, day: Day, midnight: Calendar)
    requires e in entries && OnDay(entries, day, midnight) == []
    ensures midnight(e.ts) != day
  {
    if e != entries[|entries| - 1] {
      EntriesSplit(entries);
      NotOnDay(entries[..|entries| - 1], e, day, midnight);
    }
  }

  lemma {:induction false} AllUntil(entries: seq<Entry>, day: Day, midnight: Calendar)
    requires forall e :: e in entries ==> midnight(e.ts) < day
    ensures Until(entries, day, midnight) == entries
  {
    if entries != [] {
      EntriesSplit(entries);
      AllUntil(entries[..|entries| - 1], day, midnight);
    }
  }

  // What the page shows at t of a node whose file's changes are `changes` and whose state in the history is
  // `history`: from the last sign of life on the monitor was off, unless the node had been removed.
  predicate Drawn(shown: Option<SegmentState>, history: Option<SegmentState>, changes: seq<Change>,
                  log: SubLog, w: Window, t: Time)
  {
    if WentSilent(log, w) && log.lastAlive.value <= t
    then shown == if LastState(changes).None? then None else Some(Off)
    else Alike(history, shown)
  }

  // The page draws the day from its file.
  lemma FileIsDrawn(steps: seq<Step>, midnight: Calendar, day: Day, id: NodeId, w: Window, t: Time)
      returns (shown: Option<SegmentState>)
    requires BootsFirst(steps) && OrdinaryEntries(History(steps))
    requires day in Written(steps, midnight).files && w.dayStart == day as real <= t < w.end
    requires WellFormed(LogOf(Written(steps, midnight).files[day]), w)
    ensures var file := Written(steps, midnight).files[day];
            && Shows(TimelineOf(LogOf(file), id, w).segments, t, shown)
            && Drawn(shown, StateAt(ChangesSent(HistoryFor(History(steps), day, midnight), id, w), t),
                     ChangesSent(file, id, w), LogOf(file), w, t)
  {
    var file := Written(steps, midnight).files[day];
    var log, changes := LogOf(file), ChangesSent(file, id, w);
    DayShowsHistory(steps, midnight, day, id, w, t);
    WellFormedIsInOrder(log, id, w);
    TimelineRefinesPointReplay(log, id, w);
    shown := StateAt(AllChanges(log, id, w), t);
    if WentSilent(log, w) {
      StateAtSnoc(changes, Change(Some(Off), log.lastAlive.value), t);
      if LastState(changes).None? && log.lastAlive.value <= t {
        SilentChanges(log, id, w);
        StateWhenEarly(changes, t);
      }
    }
  }

  lemma SilentChanges(log: SubLog, id: NodeId, w: Window)
    requires WellFormed(log, w) && WentSilent(log, w)
    ensures forall i :: 0 <= i < |ChangesOf(log.events, id, w)| ==>
              ChangesOf(log.events, id, w)[i].at <= log.lastAlive.value
  {
    var ts, last := EffectiveTimes(log.events, w), log.lastAlive.value;
    assert (ts + [last])[|ts|] == last;
    assert forall i :: 0 <= i < |ts| ==> (ts + [last])[i] == ts[i];
    ChangesAreTimed(log.events, id, w, last);
  }

  // -------------------------------------------------------------------------
  // What the page requires of its log
  // -------------------------------------------------------------------------

  function TimesSent(entries: seq<Entry>, w: Window): seq<Time> {
    EffectiveTimes(SentFor(entries).events, w)
  }

  lemma TimesSnoc(entries: seq<Entry>, e: Entry, w: Window)
    ensures e.Alive? ==> TimesSent(entries + [e], w) == TimesSent(entries, w)
    ensures e.Event? ==> (TimesSent(entries + [e], w) == TimesSent(entries, w) +
              TimesIn(Emit(Sent([], SentFor(entries).lastAlive), e).events[0], w))
  {
    SentSnoc(entries, e, 0, w);
    var was, now := SentFor(entries).events, SentFor(entries + [e]).events;
    if e.Event? {
      assert now[..|was|] == was;
    }
  }

  lemma NonDecreasingMore(ts: seq<Time>, more: seq<Time>, bound: Time)
    requires NonDecreasing(ts) && NonDecreasing(more)
    requires (forall x :: x in ts ==> x <= bound) && (forall x :: x in more ==> bound <= x)
    ensures NonDecreasing(ts + more)
  {
    var all := ts + more;
    forall i, j | 0 <= i < j < |all| ensures all[i] <= all[j] {
      if i < |ts| {
        assert all[i] in ts;
        assert j >= |ts| ==> all[j] in more;
      }
    }
  }

  ghost predicate Ordered(entries: seq<Entry>, w: Window) {
    && entries != []
    && NonDecreasing(TimesSent(entries, w))
    && Early(SentFor(entries), [], Latest(entries))
    && (forall x :: x in TimesSent(entries, w) ==> x <= Latest(entries))
  }

  function Latest(entries: seq<Entry>): Time
    requires entries != []
  {
    entries[|entries| - 1].ts as real
  }

  // A boot comes after a sign of life, or at the very start of the day.
  predicate BootAfterAlive(entries: seq<Entry>, e: Entry, w: Window)
    requires entries != []
  {
    IsBoot(e) ==> entries[|entries| - 1].Alive? ||
                  (SentFor(entries).lastAlive.None? && Latest(entries) <= w.dayStart)
  }

  lemma AliveIsLast(entries: seq<Entry>)
    requires entries != [] && entries[|entries| - 1].Alive? && entries[|entries| - 1].ts > 0
    ensures SentFor(entries).lastAlive == Some(entries[|entries| - 1].ts)
  {
  }

  // The effective times of one more entry come after those so far.
  lemma TimesFollow(s: Sent, e: Entry, w: Window, bound: Time)
    requires e.Event? && bound <= e.ts as real && w.dayStart <= e.ts as real && Early(s, [], bound)
    requires IsBoot(e) ==> (s.lastAlive.Some? && s.lastAlive.value as real == bound) ||
                           (s.lastAlive.None? && bound <= w.dayStart)
    ensures var more := TimesIn(Emit(Sent([], s.lastAlive), e).events[0], w);
            NonDecreasing(more) && forall x :: x in more ==> bound <= x <= e.ts as real
  {
  }

  lemma EntryOrdered(entries: seq<Entry>, e: Entry, w: Window)
    requires Ordered(entries, w) && entries[|entries| - 1].ts <= e.ts && w.dayStart <= e.ts as real && e.ts > 0
    requires entries[|entries| - 1].ts > 0 && BootAfterAlive(entries, e, w)
    ensures Ordered(entries + [e], w)
  {
    TimesSnoc(entries, e, w);
    SentSnoc(entries, e, 0, w);
    if entries[|entries| - 1].Alive? {
      AliveIsLast(entries);
    }
    if e.Event? {
      var more := TimesIn(Emit(Sent([], SentFor(entries).lastAlive), e).events[0], w);
      TimesFollow(SentFor(entries), e, w, Latest(entries));
      NonDecreasingMore(TimesSent(entries, w), more, Latest(entries));
    }
  }

  lemma {:induction false} HeaderOrdered(day: Day, up: seq<NodeId>, w: Window)
    requires w.dayStart == day as real && day > 0
    ensures Ordered(Header(day, up), w) && Latest(Header(day, up)) == day as real
    decreases |up|
  {
    if up == [] {
      var e := Event(DayStart, 0, day, 0);
      assert Header(day, up) == [] + [e];
      TimesSnoc([], e, w);
      SentSnoc([], e, 0, w);
    } else {
      var init, last := up[..|up| - 1], Event(UpAtStart, up[|up| - 1], day, 0);
      assert Header(day, up) == Header(day, init) + [last];
      HeaderOrdered(day, init, w);
      EntryOrdered(Header(day, init), last, w);
    }
  }

  lemma FirstOrdered(up: seq<NodeId>, day: Day, e: Entry, w: Window)
    requires w.dayStart == day as real && 0 < day <= e.ts
    ensures Ordered(Header(day, up) + [e], w)
  {
    HeaderOrdered(day, up, w);
    HeaderState(day, up, 0, w);
    EntryOrdered(Header(day, up), e, w);
  }

  lemma DayPrefix(onDay: seq<Entry>, e: Entry)
    requires Timed(onDay + [e]) && WholeFlushes(onDay + [e]) && onDay != []
    ensures Timed(onDay) && WholeFlushes(onDay)
    ensures onDay[|onDay| - 1].ts <= e.ts && (IsBoot(e) ==> onDay[|onDay| - 1].Alive?)
  {
    var all := onDay + [e];
    assert forall i :: 0 <= i < |onDay| ==> all[i] == onDay[i];
    assert all[|onDay|] == e && all[|onDay| - 1] == onDay[|onDay| - 1];
  }

  lemma {:induction false} FileOrdered(up: seq<NodeId>, day: Day, onDay: seq<Entry>, w: Window)
    requires w.dayStart == day as real && day > 0 && onDay != []
    requires Timed(onDay) && WholeFlushes(onDay) && forall e :: e in onDay ==> day <= e.ts
    ensures Ordered(Header(day, up) + onDay, w)
    decreases |onDay|
  {
    var init, e := onDay[..|onDay| - 1], onDay[|onDay| - 1];
    EntriesSplit(onDay);
    if init == [] {
      assert onDay == [e];
      FirstOrdered(up, day, e, w);
    } else {
      DayPrefix(init, e);
      FileOrdered(up, day, init, w);
      NextOrdered(up, day, init, e, w);
    }
  }

  lemma NextOrdered(up: seq<NodeId>, day: Day, init: seq<Entry>, e: Entry, w: Window)
    requires w.dayStart == day as real && 0 < day <= e.ts && init != []
    requires Ordered(Header(day, up) + init, w)
    requires day <= init[|init| - 1].ts <= e.ts && (IsBoot(e) ==> init[|init| - 1].Alive?)
    ensures Ordered(Header(day, up) + (init + [e]), w)
  {
    assert Header(day, up) + (init + [e]) == (Header(day, up) + init) + [e];
    EntryOrdered(Header(day, up) + init, e, w);
  }

  lemma DayGrows(onDay: seq<Entry>, e: Entry)
    requires Timed(onDay) && WholeFlushes(onDay)
    requires forall x :: x in onDay ==> x.ts <= e.ts
    requires IsBoot(e) && onDay != [] ==> onDay[|onDay| - 1].Alive?
    ensures Timed(onDay + [e]) && WholeFlushes(onDay + [e])
  {
  }

  lemma {:induction false} OnDayIsContiguous(entries: seq<Entry>, day: Day, midnight: Calendar)
    requires IsCalendar(midnight) && Timed(entries) && WholeFlushes(entries)
    ensures Timed(OnDay(entries, day, midnight)) && WholeFlushes(OnDay(entries, day, midnight))
  {
    if entries != [] {
      var init, e := entries[..|entries| - 1], entries[|entries| - 1];
      EntriesSplit(entries);
      if init == [] {
        assert Timed(init) && WholeFlushes(init);
      } else {
        DayPrefix(init, e);
      }
      OnDayIsContiguous(init, day, midnight);
      if midnight(e.ts) == day {
        EntryOnDay(init, e, day, midnight);
      }
    }
  }

  lemma TimedInit(entries: seq<Entry>, e: Entry, midnight: Calendar)
    requires Timed(entries + [e]) && IsCalendar(midnight)
    ensures Timed(entries) && forall x :: x in entries ==> midnight(x.ts) <= midnight(e.ts)
  {
    var all := entries + [e];
    assert forall i :: 0 <= i < |entries| ==> all[i] == entries[i];
    forall x | x in entries ensures midnight(x.ts) <= midnight(e.ts) {
      var i :| 0 <= i < |entries| && entries[i] == x;
      assert all[i].ts <= all[|entries|].ts;
    }
  }

  lemma EntryOnDay(init: seq<Entry>, e: Entry, day: Day, midnight: Calendar)
    requires IsCalendar(midnight) && Timed(init + [e]) && WholeFlushes(init + [e]) && midnight(e.ts) == day
    requires Timed(OnDay(init, day, midnight)) && WholeFlushes(OnDay(init, day, midnight))
    ensures Timed(OnDay(init, day, midnight) + [e]) && WholeFlushes(OnDay(init, day, midnight) + [e])
  {
    TimedInit(init, e, midnight);
    OnDayMembers(init, day, midnight);
    forall x | x in init ensures x.ts <= e.ts {
      var i :| 0 <= i < |init| && init[i] == x;
      assert (init + [e])[i] == x && (init + [e])[|init|] == e;
    }
    if OnDay(init, day, midnight) != [] {
      LastOnDay(init, day, midnight);
      DayPrefix(init, e);
    }
    DayGrows(OnDay(init, day, midnight), e);
  }

  // The last entry of a day that is still going on is the last entry.
  lemma LastOnDay(entries: seq<Entry>, day: Day, midnight: Calendar)
    requires IsCalendar(midnight) && Timed(entries) && OnDay(entries, day, midnight) != []
    requires forall e :: e in entries ==> midnight(e.ts) <= day
    ensures OnDay(entries, day, midnight)[|OnDay(entries, day, midnight)| - 1] == entries[|entries| - 1]
  {
    var last := entries[|entries| - 1];
    OnDayMembers(entries, day, midnight);
    var x := OnDay(entries, day, midnight)[0];
    assert x.ts <= last.ts && last in entries;
    assert midnight(last.ts) == day;
  }

  lemma {:induction false} OnDayMembers(entries: seq<Entry>, day: Day, midnight: Calendar)
    ensures forall e :: e in OnDay(entries, day, midnight) ==> e in entries && midnight(e.ts) == day
  {
    if entries != [] {
      EntriesSplit(entries);
      OnDayMembers(entries[..|entries| - 1], day, midnight);
    }
  }

  lemma LastTime(ts: seq<Time>, x: Time)
    requires NonDecreasing(ts)
    ensures NonDecreasing(ts + [x]) <==> forall t :: t in ts ==> t <= x
  {
    if forall t :: t in ts ==> t <= x {
      NonDecreasingMore(ts, [x], x);
    }
    if NonDecreasing(ts + [x]) {
      forall t | t in ts ensures t <= x {
        var i :| 0 <= i < |ts| && ts[i] == t;
        assert (ts + [x])[i] == t && (ts + [x])[|ts|] == x;
      }
    }
  }

  // The times of the events that the firmware sends for a day never go backwards, so the page's
  // requirement on its log is met unless the record falls silent and something was recorded after the
  // last sign of life.
  lemma DayFileIsWellFormed(steps: seq<Step>, midnight: Calendar, day: Day, w: Window)
    requires IsCalendar(midnight) && BootsFirst(steps)
    requires Timed(History(steps)) && WholeFlushes(History(steps))
    requires 0 < day && day in Written(steps, midnight).files && w.dayStart == day as real
    ensures var log := LogOf(Written(steps, midnight).files[day]);
            && NonDecreasing(EffectiveTimes(log.events, w))
            && (WellFormed(log, w) <==>
                  !WentSilent(log, w) || forall e :: e in log.events ==> e.ts <= log.lastAlive.value)
  {
    var entries, file := History(steps), Written(steps, midnight).files[day];
    EveryFileIs(steps, midnight);
    assert FileIs(file, entries, day, midnight);
    var onDay := OnDay(entries, day, midnight);
    var up :| FileWith(file, up, day, Before(entries, day, midnight), onDay);
    OnDayIsContiguous(entries, day, midnight);
    OnDayMembers(entries, day, midnight);
    FileOrdered(up, day, onDay, w);
    var log, ts := LogOf(file), TimesSent(file, w);
    if WentSilent(log, w) {
      LastTime(ts, log.lastAlive.value);
      TimesAreEvents(log.events, w, log.lastAlive.value);
    } else {
      assert ts + [] == ts;
    }
  }

  // From the firmware's writer through its reader to the page, for dates in order and whole flushes: a day
  // is drawn as the whole history says, and as off once the record has fallen silent for good. Nothing may
  // have been recorded after the last sign of life if it has, which is exactly when the page's requirement
  // on its log is met.
  lemma DayIsDrawn(steps: seq<Step>, midnight: Calendar, day: Day, id: NodeId, w: Window, t: Time)
      returns (shown: Option<SegmentState>)
    requires IsCalendar(midnight) && BootsFirst(steps)
    requires Timed(History(steps)) && OrdinaryEntries(History(steps)) && WholeFlushes(History(steps))
    requires 0 < day && day in Written(steps, midnight).files && w.dayStart == day as real <= t < w.end
    requires var log := LogOf(Written(steps, midnight).files[day]);
             WentSilent(log, w) ==> forall e :: e in log.events ==> e.ts <= log.lastAlive.value
    ensures var file := Written(steps, midnight).files[day];
            && Shows(TimelineOf(LogOf(file), id, w).segments, t, shown)
            && Drawn(shown, StateAt(ChangesSent(Until(History(steps), day + 1, midnight), id, w), t),
                     ChangesSent(file, id, w), LogOf(file), w, t)
  {
    DayFileIsWellFormed(steps, midnight, day, w);
    EveryFileIs(steps, midnight);
    assert FileIs(Written(steps, midnight).files[day], History(steps), day, midnight);
    HistoryInOrder(History(steps), day, midnight);
    shown := FileIsDrawn(steps, midnight, day, id, w, t);
  }

  lemma {:induction false} TimesCover(events: seq<SubEvent>, w: Window)
    ensures forall e :: e in events ==> e.ts in EffectiveTimes(events, w)
  {
    if events != [] {
      var init, e := events[..|events| - 1], events[|events| - 1];
      TimesCover(init, w);
      assert events == init + [e];
      assert TimesIn(e, w)[|TimesIn(e, w)| - 1] == e.ts;
    }
  }

  // In order, the effective times are bounded by a time iff those of the events are.
  lemma TimesAreEvents(events: seq<SubEvent>, w: Window, bound: Time)
    requires NonDecreasing(EffectiveTimes(events, w))
    ensures (forall t :: t in EffectiveTimes(events, w) ==> t <= bound) <==> (forall e :: e in events ==> e.ts <= bound)
  {
    TimesCover(events, w);
    if events != [] {
      var e, ts := events[|events| - 1], EffectiveTimes(events, w);
      assert TimesIn(e, w)[|TimesIn(e, w)| - 1] == e.ts;
      assert ts[|ts| - 1] == e.ts;
    }
  }

  // -------------------------------------------------------------------------
  // Where the times come from
  // -------------------------------------------------------------------------

  // The second at an uptime in microseconds: `base` is what the clock is ahead of the uptime.
  function SecondAt(base: nat, uptime: nat): nat { (base + uptime) / 1000000 }

  // An event recorded before the clock was set is dated from how long ago it happened. The flush reads the
  // clock and then the uptime: `read` and `readNext`. The date is late by the second that the microseconds
  // carry, and early by the seconds that pass between the reads: right exactly when the two agree.
  lemma DatedFromUptime(base: nat, uptime: nat, read: nat, readNext: nat)
    requires uptime <= read <= readNext
    ensures var late := if (base + uptime) % 1000000 + (read - uptime) % 1000000 >= 1000000 then 1 else 0;
            var early := ((read - uptime) % 1000000 + (readNext - read)) / 1000000;
            var dated := WallTimeOf(None, uptime, SecondAt(base, read), readNext);
            && dated == SecondAt(base, uptime) + late - early
            && (dated == SecondAt(base, uptime) <==> late == early)
  {
    var a, x, g := base + uptime, read - uptime, readNext - read;
    Carries(a / 1000000, a % 1000000, x / 1000000, x % 1000000);
    assert a + x == 1000000 * (a / 1000000 + x / 1000000) + (a % 1000000 + x % 1000000);
    assert x + g == 1000000 * (x / 1000000) + (x % 1000000 + g);
    WholeSeconds(x / 1000000, x % 1000000 + g);
  }

  lemma Carries(p: nat, a: nat, q: nat, x: nat)
    requires a < 1000000 && x < 1000000
    ensures (1000000 * (p + q) + (a + x)) / 1000000 == p + q + if a + x >= 1000000 then 1 else 0
  {
  }

  lemma WholeSeconds(q: nat, r: nat)
    ensures (1000000 * q + r) / 1000000 == q + r / 1000000
  {
  }

  // Two events a microsecond apart can be dated a second apart the wrong way round, when the clock was set
  // between them.
  lemma DatesCanGoBackwards()
    ensures var read := 2400000;
            WallTimeOf(None, 500000, SecondAt(0, read), read) > WallTimeOf(Some(SecondAt(0, 500001)), 500001,
                                                                         SecondAt(0, read), read)
  {
  }

  // And an event can be dated a second early, when a second begins between the two reads.
  lemma DatesCanBeEarly()
    ensures WallTimeOf(None, 5000000, SecondAt(0, 9999999), 10000000) == SecondAt(0, 5000000) - 1
  {
  }
}
