/** The subscription log as the firmware keeps it: a ring of pending events, flushed to the card. */
module SubscriptionLogger {
  import opened Options
  import opened Timeline
  import opened SubscriptionLog

  const RING_CAPACITY := 256

  // An event waiting for the next flush. `ts` is None until the clock is set; `uptime` is in microseconds.
  datatype Pending = Pending(uptime: nat, nodeId: NodeId, ts: Option<nat>, kind: EventKind, error: nat)

  // Only the latest events are kept.
  function Queued(waiting: seq<Pending>, p: Pending): seq<Pending> {
    if |waiting| == RING_CAPACITY then waiting[1..] + [p] else waiting + [p]
  }

  predicate Datable(p: Pending, now: nat, uptimeNow: nat) {
    p.uptime <= uptimeNow && (uptimeNow - p.uptime) / 1000000 <= now
  }

  function EntryOf(p: Pending, now: nat, uptimeNow: nat): Entry
    requires Datable(p, now, uptimeNow)
  {
    Event(p.kind, p.nodeId, WallTimeOf(p.ts, p.uptime, now, uptimeNow), p.error)
  }

  function Batch(waiting: seq<Pending>, now: nat, uptimeNow: nat): seq<Entry>
    requires forall p :: p in waiting ==> Datable(p, now, uptimeNow)
  {
    seq(|waiting|, i requires 0 <= i < |waiting| => EntryOf(waiting[i], now, uptimeNow))
  }

  function TakeSteps(m: Monitor, steps: seq<Step>, midnight: Calendar): Monitor {
    if steps == [] then m
    else TakeStep(TakeSteps(m, steps[..|steps| - 1], midnight), steps[|steps| - 1], midnight)
  }

  function UpAfterBatch(up: seq<NodeId>, batch: seq<Entry>): seq<NodeId> {
    if batch == [] then up else ApplyToUp(UpAfterBatch(up, batch[..|batch| - 1]), batch[|batch| - 1])
  }

  // Flush after flush, the card holds what was written from the start.
  lemma {:induction false} FlushesAddUp(before: seq<Step>, steps: seq<Step>, midnight: Calendar)
    ensures Written(before + steps, midnight) == TakeSteps(Written(before, midnight), steps, midnight)
  {
    if steps == [] {
      assert before + steps == before;
    } else {
      var init := steps[..|steps| - 1];
      assert (before + steps)[..|before + steps| - 1] == before + init;
      FlushesAddUp(before, init, midnight);
    }
  }

  // -------------------------------------------------------------------------
  // What is written is what was recorded
  // -------------------------------------------------------------------------

  // The entry of an event: its own kind, node and error, and its own date or, if it had none, the one worked
  // out from how long ago it happened.
  predicate Records(e: Entry, p: Pending, now: nat, uptimeNow: nat) {
    && e.Event? && e.kind == p.kind && e.nodeId == p.nodeId && e.error == p.error
    && (p.ts.Some? ==> e.ts == p.ts.value)
    && (p.ts.None? && p.uptime <= uptimeNow ==> e.ts == now - (uptimeNow - p.uptime) / 1000000)
  }

  // One entry for each event, in order, and then the sign of life.
  predicate RecordsAll(written: seq<Entry>, waiting: seq<Pending>, now: nat, uptimeNow: nat) {
    && |written| == |waiting| + 1
    && (forall k :: 0 <= k < |waiting| ==> Records(written[k], waiting[k], now, uptimeNow))
    && written[|waiting|] == Alive(now)
  }

  // A new file is the start of its day and nodes that were up.
  predicate IsHeader(start: seq<Entry>, day: Day) {
    && start != [] && start[0] == Event(DayStart, 0, day, 0)
    && forall i :: 1 <= i < |start| ==> start[i].Event? && start[i] == Event(UpAtStart, start[i].nodeId, day, 0)
  }

  predicate Extends(file: seq<Entry>, start: seq<Entry>, added: seq<Entry>) {
    file == start + added
  }

  // A day's file has got what was written for the day, in order, after what it had or after a new header; the
  // other files are as they were.
  ghost predicate DayGrew(before: map<Day, seq<Entry>>, after: map<Day, seq<Entry>>, added: seq<Entry>, day: Day) {
    if added == [] then (day in after <==> day in before) && (day in before ==> after[day] == before[day])
    else
      && day in after
      && if day in before then Extends(after[day], before[day], added)
         else exists start :: IsHeader(start, day) && Extends(after[day], start, added)
  }

  ghost predicate Grew(before: map<Day, seq<Entry>>, after: map<Day, seq<Entry>>, written: seq<Entry>,
                       midnight: Calendar) {
    forall day :: DayGrew(before, after, OnDay(written, day, midnight), day)
  }

  lemma DayGrewMore(a: map<Day, seq<Entry>>, b: map<Day, seq<Entry>>, c: map<Day, seq<Entry>>, x: seq<Entry>,
                    y: seq<Entry>, day: Day)
    requires DayGrew(a, b, x, day) && DayGrew(b, c, y, day)
    ensures DayGrew(a, c, x + y, day)
  {
    if x == [] {
      assert x + y == y;
    } else if y == [] {
      assert x + y == x;
    } else if day in a {
      assert c[day] == a[day] + (x + y);
    } else {
      var start :| IsHeader(start, day) && Extends(b[day], start, x);
      assert Extends(c[day], start, x + y);
    }
  }

  lemma {:induction false} OnDayJoins(x: seq<Entry>, y: seq<Entry>, day: Day, midnight: Calendar)
    ensures OnDay(x + y, day, midnight) == OnDay(x, day, midnight) + OnDay(y, day, midnight)
    decreases |y|
  {
    if y == [] {
      assert x + y == x;
    } else {
      var init, last := y[..|y| - 1], y[|y| - 1];
      assert (x + y)[..|x + y| - 1] == x + init;
      OnDayJoins(x, init, day, midnight);
    }
  }

  lemma GrewMore(a: map<Day, seq<Entry>>, b: map<Day, seq<Entry>>, c: map<Day, seq<Entry>>, x: seq<Entry>,
                 y: seq<Entry>, midnight: Calendar)
    requires Grew(a, b, x, midnight) && Grew(b, c, y, midnight)
    ensures Grew(a, c, x + y, midnight)
  {
    forall day ensures DayGrew(a, c, OnDay(x + y, day, midnight), day) {
      OnDayJoins(x, y, day, midnight);
      DayGrewMore(a, b, c, OnDay(x, day, midnight), OnDay(y, day, midnight), day);
    }
  }

  lemma WriteGrew(m: Monitor, e: Entry, midnight: Calendar)
    ensures Grew(m.files, WriteEntry(m, e, midnight).files, [e], midnight)
  {
    var files := WriteEntry(m, e, midnight).files;
    forall day ensures DayGrew(m.files, files, OnDay([e], day, midnight), day) {
      assert [e][..0] == [];
      if day == midnight(e.ts) {
        assert OnDay([e], day, midnight) == [e];
        if day !in m.files {
          assert IsHeader(Header(day, m.up), day) && Extends(files[day], Header(day, m.up), [e]);
        }
      } else {
        assert OnDay([e], day, midnight) == [];
      }
    }
  }

  function Writes(entries: seq<Entry>): seq<Step> {
    seq(|entries|, i requires 0 <= i < |entries| => Write(entries[i]))
  }

  lemma {:induction false} WritesGrew(m: Monitor, entries: seq<Entry>, midnight: Calendar)
    ensures Grew(m.files, TakeSteps(m, Writes(entries), midnight).files, entries, midnight)
  {
    if entries != [] {
      var init, last := entries[..|entries| - 1], entries[|entries| - 1];
      var m1 := TakeSteps(m, Writes(init), midnight);
      assert Writes(entries)[..|entries| - 1] == Writes(init) && entries == init + [last];
      WritesGrew(m, init, midnight);
      WriteGrew(m1, last, midnight);
      GrewMore(m.files, m1.files, WriteEntry(m1, last, midnight).files, init, [last], midnight);
    }
  }

  // A flush writes what was recorded.
  lemma FlushRecords(m: Monitor, waiting: seq<Pending>, now: nat, uptimeNow: nat, midnight: Calendar)
    requires forall p :: p in waiting ==> Datable(p, now, uptimeNow)
    ensures var batch := Batch(waiting, now, uptimeNow);
            && RecordsAll(batch + [Alive(now)], waiting, now, uptimeNow)
            && Grew(m.files, TakeSteps(m, FlushSteps(batch, now), midnight).files, batch + [Alive(now)], midnight)
  {
    var batch := Batch(waiting, now, uptimeNow);
    assert FlushSteps(batch, now) == Writes(batch + [Alive(now)]);
    WritesGrew(m, batch + [Alive(now)], midnight);
  }

  // -------------------------------------------------------------------------
  // A run of records and flushes
  // -------------------------------------------------------------------------

  datatype Op = Note(p: Pending) | Save(now: nat, uptimeNow: nat)

  // What was recorded since the last flush, and what was waiting at first if there has been none.
  function Noted(first: seq<Pending>, ops: seq<Op>): seq<Pending> {
    if ops == [] then first
    else
      var op := ops[|ops| - 1];
      if op.Note? then Noted(first, ops[..|ops| - 1]) + [op.p] else []
  }

  function Waits(first: seq<Pending>, ops: seq<Op>): seq<Pending> {
    if ops == [] then first
    else
      var op := ops[|ops| - 1];
      if op.Note? then Queued(Waits(first, ops[..|ops| - 1]), op.p) else []
  }

  function Latest<T>(all: seq<T>): seq<T> {
    if |all| <= RING_CAPACITY then all else all[|all| - RING_CAPACITY..]
  }

  // Whatever was recorded, the latest events are waiting, in order.
  lemma {:induction false} LatestWait(first: seq<Pending>, ops: seq<Op>)
    requires |first| <= RING_CAPACITY
    ensures Waits(first, ops) == Latest(Noted(first, ops))
  {
    if ops != [] {
      LatestWait(first, ops[..|ops| - 1]);
    }
  }

  // What the i-th of the run writes: the latest events recorded since the flush before, or nothing if it is
  // no flush.
  predicate PlayedAt(first: seq<Pending>, ops: seq<Op>, i: nat, batch: seq<Entry>)
    requires i < |ops|
  {
    if ops[i].Note? then batch == []
    else RecordsAll(batch, Latest(Noted(first, ops[..i])), ops[i].now, ops[i].uptimeNow)
  }

  ghost predicate PlayedAll(first: seq<Pending>, ops: seq<Op>, batches: seq<seq<Entry>>) {
    |batches| <= |ops| && forall i :: 0 <= i < |batches| ==> PlayedAt(first, ops, i, batches[i])
  }

  lemma PlayedMore(first: seq<Pending>, ops: seq<Op>, batches: seq<seq<Entry>>, batch: seq<Entry>)
    requires PlayedAll(first, ops, batches) && |batches| < |ops| && PlayedAt(first, ops, |batches|, batch)
    ensures PlayedAll(first, ops, batches + [batch])
  {
  }

  lemma WaitsNext(first: seq<Pending>, ops: seq<Op>, i: nat)
    requires |first| <= RING_CAPACITY && i < |ops| && AllDatable(first, ops)
    ensures Latest(Noted(first, ops[..i + 1])) ==
            if ops[i].Note? then Queued(Latest(Noted(first, ops[..i])), ops[i].p) else []
    ensures ops[i].Save? ==> DatableBy(Latest(Noted(first, ops[..i])), ops[i].now, ops[i].uptimeNow)
  {
    LatestWait(first, ops[..i]);
    LatestWait(first, ops[..i + 1]);
    assert ops[..i + 1][..i] == ops[..i];
  }

  // What the flushes of a run have written, one after the other.
  function Joined(batches: seq<seq<Entry>>): seq<Entry> {
    if batches == [] then [] else Joined(batches[..|batches| - 1]) + batches[|batches| - 1]
  }

  lemma JoinedSnoc(batches: seq<seq<Entry>>, batch: seq<Entry>)
    ensures Joined(batches + [batch]) == Joined(batches) + batch
  {
    assert (batches + [batch])[..|batches|] == batches;
  }

  ghost predicate AllDatable(first: seq<Pending>, ops: seq<Op>) {
    forall i :: 0 <= i < |ops| && ops[i].Save? ==> DatableBy(Noted(first, ops[..i]), ops[i].now, ops[i].uptimeNow)
  }

  predicate DatableBy(waiting: seq<Pending>, now: nat, uptimeNow: nat) {
    forall p :: p in waiting ==> Datable(p, now, uptimeNow)
  }

  lemma Wrapped(head: nat, i: nat)
    requires head < RING_CAPACITY && i <= RING_CAPACITY
    ensures (head + i) % RING_CAPACITY == if head + i < RING_CAPACITY then head + i else head + i - RING_CAPACITY
  {
  }

  function At(ring: seq<Pending>, head: nat, i: nat): Pending
    requires |ring| == RING_CAPACITY
  {
    ring[(head + i) % RING_CAPACITY]
  }

  // The ring, oldest first.
  function Unrolled(ring: seq<Pending>, head: nat, count: nat): seq<Pending>
    requires |ring| == RING_CAPACITY
  {
    seq(count, i requires 0 <= i < count => At(ring, head, i))
  }

  lemma RingAppends(ring: seq<Pending>, head: nat, count: nat, p: Pending)
    requires |ring| == RING_CAPACITY && head < RING_CAPACITY && count < RING_CAPACITY
    ensures Unrolled(ring[(head + count) % RING_CAPACITY := p], head, count + 1) == Unrolled(ring, head, count) + [p]
  {
    Wrapped(head, count);
    forall i | 0 <= i < count
      ensures At(ring[(head + count) % RING_CAPACITY := p], head, i) == At(ring, head, i)
    {
      Wrapped(head, i);
    }
  }

  lemma RingDrops(ring: seq<Pending>, head: nat, count: nat)
    requires |ring| == RING_CAPACITY && head < RING_CAPACITY && 0 < count <= RING_CAPACITY
    ensures Unrolled(ring, (head + 1) % RING_CAPACITY, count - 1) == Unrolled(ring, head, count)[1..]
  {
    forall i | 0 < i < count
      ensures At(ring, head, i) == At(ring, (head + 1) % RING_CAPACITY, i - 1)
    {
      Wrapped(head, 1);
      Wrapped(head, i);
      Wrapped((head + 1) % RING_CAPACITY, i - 1);
    }
  }

  class Logger {
    const ring: array<Pending>
    var head: nat
    var count: nat
    var dropped: nat
    var upNodes: seq<NodeId>
    var files: map<Day, seq<Entry>>
    const midnight: Calendar

    ghost predicate Valid()
      reads this
    {
      ring.Length == RING_CAPACITY && head < RING_CAPACITY && count <= RING_CAPACITY
    }

    ghost function Waiting(): seq<Pending>
      requires Valid()
      reads this, ring
    {
      Unrolled(ring[..], head, count)
    }

    function State(): Monitor
      reads this
    {
      Monitor(files, upNodes)
    }

    // A life of the monitor starts with a boot waiting.
    constructor (files: map<Day, seq<Entry>>, midnight: Calendar, uptime: nat, ts: Option<nat>)
      ensures Valid() && fresh(ring) && this.midnight == midnight && dropped == 0
      ensures State() == Monitor(files, []) && Waiting() == [Pending(uptime, 0, ts, Boot, 0)]
    {
      ring := new Pending[RING_CAPACITY](_ => Pending(uptime, 0, ts, Boot, 0));
      head, count, dropped, upNodes := 0, 1, 0, [];
      this.files, this.midnight := files, midnight;
    }

    method Record(p: Pending)
      requires Valid()
      modifies this`head, this`count, this`dropped, ring
      ensures Valid() && Waiting() == Queued(old(Waiting()), p)
      ensures dropped == old(dropped) + if |old(Waiting())| == RING_CAPACITY then 1 else 0
    {
      if count == RING_CAPACITY {
        RingDrops(ring[..], head, count);
        head := (head + 1) % RING_CAPACITY;
        count := count - 1;
        dropped := dropped + 1;
      }
      RingAppends(ring[..], head, count, p);
      ring[(head + count) % RING_CAPACITY] := p;
      count := count + 1;
    }

    // Takes everything that is waiting.
    method TakeAll() returns (batch: seq<Pending>)
      requires Valid()
      modifies this`head, this`count, this`dropped
      ensures Valid() && batch == old(Waiting()) && Waiting() == [] && dropped == 0
    {
      batch := [];
      for i := 0 to count
        invariant batch == Waiting()[..i]
      {
        batch := batch + [ring[(head + i) % RING_CAPACITY]];
      }
      head, count, dropped := 0, 0, 0;
    }

    method OpenDay(day: Day)
      modifies this`files
      ensures files == Opened(old(State()), day)
    {
      if day !in files {
        files := files[day := Header(day, upNodes)];
      }
    }

    // Writes a record to the file of its day, which stays open for the next.
    method WriteRecord(e: Entry, open: Option<Day>) returns (openFor: Option<Day>)
      requires open.Some? ==> open.value in files
      modifies this`files
      ensures openFor.Some? && openFor.value in files
      ensures Monitor(files, ApplyToUp(upNodes, e)) == WriteEntry(old(State()), e, midnight)
    {
      var day := midnight(e.ts);
      if open != Some(day) {
        OpenDay(day);
      }
      files := files[day := files[day] + [e]];
      return Some(day);
    }

    method ApplyToUpNodes(e: Entry)
      modifies this`upNodes
      ensures upNodes == ApplyToUp(old(upNodes), e)
    {
      upNodes := ApplyToUp(upNodes, e);
    }

    // Without a card only the nodes are kept up to date; without a clock everything waits.
    method Flush(clockValid: bool, now: nat, uptimeNow: nat, card: bool) returns (ghost written: seq<Entry>)
      requires Valid() && forall p :: p in Waiting() ==> Datable(p, now, uptimeNow)
      modifies this`head, this`count, this`dropped, this`upNodes, this`files
      ensures Valid()
      ensures !clockValid ==> Waiting() == old(Waiting()) && State() == old(State())
      ensures clockValid ==> Waiting() == []
      ensures clockValid && card ==>
                State() == TakeSteps(old(State()), FlushSteps(Batch(old(Waiting()), now, uptimeNow), now), midnight)
      ensures clockValid && card ==>
                && RecordsAll(written, old(Waiting()), now, uptimeNow)
                && Grew(old(files), files, written, midnight)
      ensures clockValid && !card ==>
                State() == Monitor(old(files), UpAfterBatch(old(upNodes), Batch(old(Waiting()), now, uptimeNow)))
    {
      written := [];
      if !clockValid {
        return;
      }
      var taken := TakeAll();
      if card {
        written := WriteBatch(taken, now, uptimeNow);
      } else {
        SkipBatch(taken, now, uptimeNow);
      }
    }

    method WriteBatch(taken: seq<Pending>, now: nat, uptimeNow: nat) returns (ghost written: seq<Entry>)
      requires forall p :: p in taken ==> Datable(p, now, uptimeNow)
      modifies this`upNodes, this`files
      ensures State() == TakeSteps(old(State()), FlushSteps(Batch(taken, now, uptimeNow), now), midnight)
      ensures RecordsAll(written, taken, now, uptimeNow) && Grew(old(files), files, written, midnight)
    {
      FlushRecords(State(), taken, now, uptimeNow, midnight);
      written := Batch(taken, now, uptimeNow) + [Alive(now)];
      ghost var steps := FlushSteps(Batch(taken, now, uptimeNow), now);
      var openFor: Option<Day> := None;
      for i := 0 to |taken|
        invariant openFor.Some? ==> openFor.value in files
        invariant State() == TakeSteps(old(State()), steps[..i], midnight)
      {
        assert steps[..i + 1][..i] == steps[..i];
        var e := EntryOf(taken[i], now, uptimeNow);
        assert steps[i] == Write(e);
        openFor := WriteRecord(e, openFor);
        ApplyToUpNodes(e);
      }
      assert steps[..|steps| - 1] == steps[..|taken|] && steps[|taken|] == Write(Alive(now));
      openFor := WriteRecord(Alive(now), openFor);
    }

    method SkipBatch(taken: seq<Pending>, now: nat, uptimeNow: nat)
      requires forall p :: p in taken ==> Datable(p, now, uptimeNow)
      modifies this`upNodes
      ensures upNodes == UpAfterBatch(old(upNodes), Batch(taken, now, uptimeNow))
    {
      ghost var batch := Batch(taken, now, uptimeNow);
      for i := 0 to |taken|
        invariant upNodes == UpAfterBatch(old(upNodes), batch[..i])
      {
        assert batch[..i + 1][..i] == batch[..i];
        ApplyToUpNodes(EntryOf(taken[i], now, uptimeNow));
      }
      assert batch[..|taken|] == batch;
    }

    // One record or flush of a run.
    method PlayOne(op: Op) returns (ghost batch: seq<Entry>)
      requires Valid() && (op.Save? ==> DatableBy(Waiting(), op.now, op.uptimeNow))
      modifies this`head, this`count, this`dropped, this`upNodes, this`files, ring
      ensures Valid() && Waiting() == if op.Note? then Queued(old(Waiting()), op.p) else []
      ensures if op.Save? then RecordsAll(batch, old(Waiting()), op.now, op.uptimeNow) else batch == []
      ensures Grew(old(files), files, batch, midnight)
    {
      batch := [];
      if op.Note? {
        Record(op.p);
      } else {
        batch := Flush(true, op.now, op.uptimeNow, true);
      }
    }

    // A run of records and flushes, with a card: each flush writes the latest events recorded since the one
    // before, in order and as they were recorded, and the files have got all of that and nothing else.
    method Play(ops: seq<Op>) returns (ghost batches: seq<seq<Entry>>)
      requires Valid() && AllDatable(Waiting(), ops)
      modifies this`head, this`count, this`dropped, this`upNodes, this`files, ring
      ensures Valid() && Waiting() == Latest(Noted(old(Waiting()), ops))
      ensures |batches| == |ops| && PlayedAll(old(Waiting()), ops, batches)
      ensures Grew(old(files), files, Joined(batches), midnight)
    {
      batches := [];
      assert ops[..0] == [];
      for i := 0 to |ops|
        invariant Valid() && Waiting() == Latest(Noted(old(Waiting()), ops[..i])) && |batches| == i
        invariant PlayedAll(old(Waiting()), ops, batches)
        invariant Grew(old(files), files, Joined(batches), midnight)
      {
        ghost var was := files;
        WaitsNext(old(Waiting()), ops, i);
        ghost var batch := PlayOne(ops[i]);
        GrewMore(old(files), was, files, Joined(batches), batch, midnight);
        JoinedSnoc(batches, batch);
        PlayedMore(old(Waiting()), ops, batches, batch);
        batches := batches + [batch];
      }
      assert ops[..|ops|] == ops;
    }
  }
}
