/** What the page is sent of the entries of a day's file, field by field. */
module SubscriptionSent {
  import opened Options
  import opened Timeline
  import opened SubscriptionLog

  // How many of the entries are events; the others are signs of life.
  function Events(entries: seq<Entry>): nat {
    if entries == [] then 0
    else Events(entries[..|entries| - 1]) + (if entries[|entries| - 1].Event? then 1 else 0)
  }

  // The j-th entry is the last sign of life.
  predicate LastAliveAt(entries: seq<Entry>, j: int) {
    0 <= j < |entries| && entries[j].Alive? && forall k :: j < k < |entries| ==> entries[k].Event?
  }

  // The last sign of life, if there is one and it has a date.
  ghost predicate SignOfLife(entries: seq<Entry>, at: Option<real>) {
    match at
    case Some(t) => t != 0.0 && exists j :: LastAliveAt(entries, j) && entries[j].ts as real == t
    case None => forall j :: LastAliveAt(entries, j) ==> entries[j].ts == 0
  }

  // The i-th entry as it is sent: its own date and kind, its node unless it speaks of all, an error iff it is a
  // failure that has one, and the last sign of life before it iff it is a boot.
  ghost predicate SentAs(e: SubEvent, entries: seq<Entry>, i: nat)
    requires i < |entries| && entries[i].Event?
  {
    && e.ts == entries[i].ts as real && e.kind == entries[i].kind
    && e.nodeId == (if e.kind in {Boot, DayStart} then None else Some(entries[i].nodeId))
    && (e.error.Some? <==> e.kind == Failed && entries[i].error > 0)
    && (if e.kind == Boot then SignOfLife(entries[..i], e.lastAlive) else e.lastAlive == None)
  }

  lemma {:induction false} SentSignOfLife(entries: seq<Entry>)
    ensures SignOfLife(entries, LogOf(entries).lastAlive)
  {
    if entries != [] {
      var init, last := entries[..|entries| - 1], entries[|entries| - 1];
      SentSignOfLife(init);
      if last.Alive? {
        assert LastAliveAt(entries, |init|);
        assert forall j :: LastAliveAt(entries, j) ==> j == |init|;
      } else {
        forall j ensures LastAliveAt(entries, j) <==> LastAliveAt(init, j) {
          assert LastAliveAt(init, j) ==> forall k :: j < k < |entries| ==> entries[k].Event?;
          assert LastAliveAt(entries, j) ==> forall k :: j < k < |init| ==> init[k] == entries[k];
        }
      }
    }
  }

  // The event sent of the i-th entry is there, and says what it should.
  ghost predicate IsSent(entries: seq<Entry>, i: nat)
    requires i < |entries| && entries[i].Event?
  {
    && Events(entries[..i]) < |LogOf(entries).events|
    && SentAs(LogOf(entries).events[Events(entries[..i])], entries, i)
  }

  lemma StaysSent(init: seq<Entry>, last: Entry, i: nat)
    requires i < |init| && init[i].Event? && IsSent(init, i)
    ensures IsSent(init + [last], i)
  {
    var entries := init + [last];
    assert entries[..|entries| - 1] == init && entries[..i] == init[..i];
  }

  lemma LastIsSent(init: seq<Entry>, last: Entry)
    requires last.Event? && |LogOf(init).events| == Events(init)
    ensures IsSent(init + [last], |init|)
  {
    var entries := init + [last];
    assert entries[..|entries| - 1] == init && entries[..|init|] == init;
    SentSignOfLife(init);
  }

  // The page is sent one event for each entry that is one, in order, as SentAs says, and with them the last sign
  // of life of the file.
  lemma {:induction false} SentIs(entries: seq<Entry>)
    ensures |LogOf(entries).events| == Events(entries)
    ensures forall i :: 0 <= i < |entries| && entries[i].Event? ==> IsSent(entries, i)
    ensures SignOfLife(entries, LogOf(entries).lastAlive)
  {
    SentSignOfLife(entries);
    if entries != [] {
      var init, last := entries[..|entries| - 1], entries[|entries| - 1];
      assert entries == init + [last];
      SentIs(init);
      forall i | 0 <= i < |entries| && entries[i].Event? ensures IsSent(entries, i) {
        if i < |init| {
          StaysSent(init, last, i);
        } else {
          LastIsSent(init, last);
        }
      }
    }
  }
}
