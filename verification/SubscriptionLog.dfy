/**
  The record of subscriptions that the firmware writes to its card, one file a day
  (storage/subscription_log.cpp), and the day's log that it sends to the Diagnostics page, which is the
  input of Timeline.dfy.
  */
module SubscriptionLog {
  import opened Options
  import opened Timeline

  type Day = nat

  // The local midnight that a time belongs to.
  type Calendar = nat -> Day

  ghost predicate IsCalendar(midnight: Calendar) {
    && (forall t :: midnight(t) <= t && midnight(midnight(t)) == midnight(t))
    && (forall t, u :: t <= u ==> midnight(t) <= midnight(u))
  }

  // A record of a day's file.
  datatype Entry =
    | Event(kind: EventKind, nodeId: NodeId, ts: nat, error: nat)
    | Alive(ts: nat)

  // -------------------------------------------------------------------------
  // Writing
  // -------------------------------------------------------------------------

  // What one life of the monitor and the next have in common is the card; the nodes that are subscribed
  // are only remembered while it is up.
  datatype Monitor = Monitor(files: map<Day, seq<Entry>>, up: seq<NodeId>)

  const NEW_MONITOR := Monitor(map[], [])

  function Erase(up: seq<NodeId>, id: NodeId): seq<NodeId> {
    if up == [] then [] else if up[0] == id then up[1..] else [up[0]] + Erase(up[1..], id)
  }

  function ApplyToUp(up: seq<NodeId>, e: Entry): seq<NodeId> {
    match e
    case Alive(_) => up
    case Event(kind, id, _, _) =>
      match kind
      case Boot => []
      case Established => if id in up then up else up + [id]
      case Terminated => Erase(up, id)
      case Failed => Erase(up, id)
      case Removed => Erase(up, id)
      case DayStart => up
      case UpAtStart => up
  }

  function UpAtStarts(day: Day, up: seq<NodeId>): seq<Entry> {
    seq(|up|, i requires 0 <= i < |up| => Event(UpAtStart, up[i], day, 0))
  }

  // A new day's file names the nodes that are subscribed.
  function Header(day: Day, up: seq<NodeId>): seq<Entry> {
    [Event(DayStart, 0, day, 0)] + UpAtStarts(day, up)
  }

  function Opened(m: Monitor, day: Day): map<Day, seq<Entry>> {
    if day in m.files then m.files else m.files[day := Header(day, m.up)]
  }

  // The file is written before the nodes are updated, so that one opened for this entry starts from the
  // state before it.
  function WriteEntry(m: Monitor, e: Entry, midnight: Calendar): Monitor {
    var day := midnight(e.ts);
    var files := Opened(m, day);
    Monitor(files[day := files[day] + [e]], ApplyToUp(m.up, e))
  }

  datatype Step = Reboot | Write(entry: Entry)

  function TakeStep(m: Monitor, s: Step, midnight: Calendar): Monitor {
    match s
    case Reboot => m.(up := [])
    case Write(e) => WriteEntry(m, e, midnight)
  }

  function Written(steps: seq<Step>, midnight: Calendar): Monitor {
    if steps == [] then NEW_MONITOR
    else TakeStep(Written(steps[..|steps| - 1], midnight), steps[|steps| - 1], midnight)
  }

  // The wall time of an event: as it was recorded, or from its uptime in microseconds if the clock was not
  // set then. Times are whole seconds.
  function WallTimeOf(ts: Option<nat>, uptime: nat, now: nat, uptimeNow: nat): int
    requires uptime <= uptimeNow
  {
    if ts.Some? then ts.value else now - (uptimeNow - uptime) / 1000000
  }

  // A flush writes what was recorded and then that the monitor is alive.
  function FlushSteps(batch: seq<Entry>, now: nat): seq<Step> {
    seq(|batch|, i requires 0 <= i < |batch| => Write(batch[i])) + [Write(Alive(now))]
  }

  // Everything ever written, in order.
  function History(steps: seq<Step>): seq<Entry> {
    if steps == [] then []
    else
      var s := steps[|steps| - 1];
      History(steps[..|steps| - 1]) + (if s.Write? then [s.entry] else [])
  }

  // -------------------------------------------------------------------------
  // Sending
  // -------------------------------------------------------------------------

  datatype Sent = Sent(events: seq<SubEvent>, lastAlive: Option<nat>)

  // The signs of life are not sent: each boot carries the one before it. A time of zero means none.
  function Emit(s: Sent, e: Entry): Sent {
    match e
    case Alive(ts) => s.(lastAlive := if ts == 0 then None else Some(ts))
    case Event(kind, id, ts, error) =>
      s.(events := s.events + [SubEvent(
        ts as real, kind,
        if kind == Boot || kind == DayStart then None else Some(id),
        if kind == Boot && s.lastAlive.Some? then Some(s.lastAlive.value as real) else None,
        if kind == Failed && error != 0 then Some("error") else None)])
  }

  function SentFor(entries: seq<Entry>): Sent {
    if entries == [] then Sent([], None)
    else Emit(SentFor(entries[..|entries| - 1]), entries[|entries| - 1])
  }

  function LogOf(entries: seq<Entry>): SubLog {
    var s := SentFor(entries);
    SubLog(s.events, if s.lastAlive.Some? then Some(s.lastAlive.value as real) else None)
  }

  // -------------------------------------------------------------------------
  // Histories
  // -------------------------------------------------------------------------

  predicate Recordable(kind: EventKind) { kind != DayStart && kind != UpAtStart }

  // Times never go backwards.
  predicate Timed(entries: seq<Entry>) {
    forall i, j :: 0 <= i < j < |entries| ==> entries[i].ts <= entries[j].ts
  }

  // The first thing recorded after a reboot is the boot.
  predicate BootsFirst(steps: seq<Step>) {
    forall i :: 0 <= i < |steps| - 1 && steps[i].Reboot? ==>
      steps[i + 1].Write? && steps[i + 1].entry.Event? && steps[i + 1].entry.kind == Boot
  }

  predicate OrdinaryEntries(entries: seq<Entry>) {
    forall e :: e in entries && e.Event? ==> Recordable(e.kind)
  }

  // What was recorded after the last flush is lost in a reboot, so a boot follows a sign of life.
  predicate WholeFlushes(entries: seq<Entry>) {
    forall i :: 0 < i < |entries| && entries[i].Event? && entries[i].kind == Boot ==> entries[i - 1].Alive?
  }

  function Until(entries: seq<Entry>, day: Day, midnight: Calendar): seq<Entry> {
    if entries == [] then []
    else
      var e := entries[|entries| - 1];
      Until(entries[..|entries| - 1], day, midnight) + (if midnight(e.ts) < day then [e] else [])
  }

  function OnDay(entries: seq<Entry>, day: Day, midnight: Calendar): seq<Entry> {
    if entries == [] then []
    else
      var e := entries[|entries| - 1];
      OnDay(entries[..|entries| - 1], day, midnight) + (if midnight(e.ts) == day then [e] else [])
  }

  // What was written before the first entry of the day.
  function Before(entries: seq<Entry>, day: Day, midnight: Calendar): seq<Entry> {
    if OnDay(entries, day, midnight) == [] then entries else Before(entries[..|entries| - 1], day, midnight)
  }

  // Entries dated no later than the start of the day.
  function NoLater(e: Entry, day: Day): Entry {
    if e.ts <= day then e else e.(ts := day)
  }

  function AsOf(entries: seq<Entry>, day: Day): (dated: seq<Entry>)
    ensures |dated| == |entries| && forall i :: 0 <= i < |entries| ==> dated[i] == NoLater(entries[i], day)
  {
    seq(|entries|, i requires 0 <= i < |entries| => NoLater(entries[i], day))
  }

  function UpAfter(entries: seq<Entry>): seq<NodeId> {
    if entries == [] then []
    else ApplyToUp(UpAfter(entries[..|entries| - 1]), entries[|entries| - 1])
  }
}
