/** Which requests a save sends, in which order, and where it stops. */
module RoomRequests {
  import opened Options
  import opened RoomSave

  // The device as the k-th request found it, of those sent between two logs.
  function Found(l: Log, m: Log, k: nat): Device
    requires |l.requests| <= k < |m.requests| == |m.states|
  {
    if k == |l.requests| then l.device else m.states[k - 1]
  }

  // A request went well enough to go on: it was accepted, or for a deletion there was some reply.
  predicate WentWell(q: Request, reply: Reply) {
    if q.DeleteRadiator? then reply != Thrown else reply == Accepted
  }

  predicate Passed(l: Log, m: Log, k: nat, fates: Fates)
    requires |l.requests| <= k < |m.requests| == |m.states|
  {
    WentWell(m.requests[k], ReplyTo(Found(l, m, k), m.requests[k], fates(k)))
  }

  predicate Grows(l: Log, m: Log) {
    && |m.requests| == |m.states| && l.requests <= m.requests && l.states <= m.states
    && m.device == if |m.states| == |l.states| then l.device else m.states[|m.states| - 1]
  }

  // Everything sent but the last went well, and the last did iff the whole is successful.
  ghost predicate StopsRight(l: Log, m: Log, ok: bool, fates: Fates) {
    && |l.requests| == |l.states| && Grows(l, m)
    && (forall k :: |l.requests| <= k < |m.requests| - 1 ==> Passed(l, m, k, fates))
    && (ok <==> |m.requests| == |l.requests| || Passed(l, m, |m.requests| - 1, fates))
  }

  lemma OneSent(l: Log, q: Request, fates: Fates)
    requires |l.requests| == |l.states|
    ensures StopsRight(l, Send(l, q, fates), WentWell(q, ReplyOf(l, q, fates)), fates)
  {
  }

  lemma FoundLater(a: Log, b: Log, c: Log, k: nat)
    requires |a.requests| == |a.states| && Grows(a, b) && Grows(b, c) && |a.requests| <= k < |c.requests|
    ensures Grows(a, c) && c.requests[..|b.requests|] == b.requests
    ensures k >= |b.requests| ==> Found(a, c, k) == Found(b, c, k)
    ensures k < |b.requests| ==> Found(a, c, k) == Found(a, b, k) && c.requests[k] == b.requests[k]
  {
  }

  // Going on after a success.
  lemma ThenSent(a: Log, b: Log, c: Log, ok: bool, fates: Fates)
    requires StopsRight(a, b, true, fates) && StopsRight(b, c, ok, fates)
    ensures StopsRight(a, c, ok, fates)
  {
    forall k | |a.requests| <= k < |c.requests|
      ensures Passed(a, c, k, fates) == if k < |b.requests| then Passed(a, b, k, fates) else Passed(b, c, k, fates)
    {
      FoundLater(a, b, c, k);
    }
  }

  // The request for an emitter: its radiator is changed to what the form shows, or a new one is made of it.
  predicate Asks(q: Request, e: Emitter) {
    match e.radiatorId
    case Some(id) => q == PutRadiator(id, e.details)
    case None => q == PostRadiator(e.details)
  }

  // One request for each of the first emitters, in order.
  predicate AsksFor(sent: seq<Request>, emitters: seq<Emitter>) {
    |sent| <= |emitters| && forall k :: 0 <= k < |sent| ==> Asks(sent[k], emitters[k])
  }

  predicate Deletes(sent: seq<Request>, ids: seq<Id>) {
    |sent| <= |ids| && forall k :: 0 <= k < |sent| ==> sent[k] == DeleteRadiator(ids[k])
  }

  function Sent(l: Log, m: Log): seq<Request>
    requires l.requests <= m.requests
  {
    m.requests[|l.requests|..]
  }

  lemma {:induction false} EmittersSent(l: Log, emitters: seq<Emitter>, ids: seq<Id>, fates: Fates)
    requires |l.requests| == |l.states|
    ensures var s := SaveEmitters(l, emitters, ids, fates);
            && StopsRight(l, s.log, s.ok, fates)
            && AsksFor(Sent(l, s.log), emitters)
            && (s.ok ==> |Sent(l, s.log)| == |emitters|)
    decreases |emitters|
  {
    if emitters != [] {
      var q := RequestFor(emitters[0]);
      var l1 := Send(l, q, fates);
      OneSent(l, q, fates);
      if ReplyOf(l, q, fates).Accepted? {
        var more := ids + [IdOf(l, emitters[0], fates)];
        var s := SaveEmitters(l1, emitters[1..], more, fates);
        EmittersSent(l1, emitters[1..], more, fates);
        ThenSent(l, l1, s.log, s.ok, fates);
        assert Sent(l, s.log) == [q] + Sent(l1, s.log);
      }
    }
  }

  lemma {:induction false} DeletionsSent(l: Log, ids: seq<Id>, fates: Fates)
    requires |l.requests| == |l.states|
    ensures var s := DeleteAll(l, ids, fates);
            && StopsRight(l, s.log, s.ok, fates)
            && Deletes(Sent(l, s.log), ids)
            && (s.ok ==> |Sent(l, s.log)| == |ids|)
    decreases |ids|
  {
    if ids != [] {
      var q := DeleteRadiator(ids[0]);
      var l1 := Send(l, q, fates);
      OneSent(l, q, fates);
      if !ReplyOf(l, q, fates).Thrown? {
        var s := DeleteAll(l1, ids[1..], fates);
        DeletionsSent(l1, ids[1..], fates);
        ThenSent(l, l1, s.log, s.ok, fates);
        assert Sent(l, s.log) == [q] + Sent(l1, s.log);
      }
    }
  }

  // The radiators of the form's emitters, then the room, then the deletion of those it no longer refers to.
  predicate Plan(sent: seq<Request>, emitters: seq<Emitter>, radiatorIds: seq<Id>, gone: seq<Id>) {
    var n := |emitters|;
    if |sent| <= n then AsksFor(sent, emitters)
    else AsksFor(sent[..n], emitters) && sent[n] == PutRoom(radiatorIds) && Deletes(sent[n + 1..], gone)
  }

  // The room and then deletions, all of them if `ok`.
  ghost predicate IsRest(sent: seq<Request>, ok: bool, radiatorIds: seq<Id>, gone: seq<Id>) {
    && sent != [] && sent[0] == PutRoom(radiatorIds) && Deletes(sent[1..], gone)
    && (ok ==> |sent| == 1 + |gone|)
  }

  lemma PlanOf(first: seq<Request>, rest: seq<Request>, ok: bool, emitters: seq<Emitter>, radiatorIds: seq<Id>,
               gone: seq<Id>)
    requires AsksFor(first, emitters) && |first| == |emitters| && IsRest(rest, ok, radiatorIds, gone)
    ensures Plan(first + rest, emitters, radiatorIds, gone)
    ensures ok ==> |first + rest| == |emitters| + 1 + |gone|
  {
    var all := first + rest;
    assert all[..|emitters|] == first && all[|emitters| + 1..] == rest[1..];
  }

  lemma SentJoins(a: Log, b: Log, c: Log)
    requires a.requests <= b.requests <= c.requests
    ensures a.requests <= c.requests && Sent(a, c) == Sent(a, b) + Sent(b, c)
  {
  }

  // What follows the emitters: the room, and then the deletions.
  ghost predicate RestIsSent(l: Log, m: Log, ok: bool, radiatorIds: seq<Id>, gone: seq<Id>, fates: Fates) {
    StopsRight(l, m, ok, fates) && IsRest(Sent(l, m), ok, radiatorIds, gone)
  }

  lemma RoomSent(l: Log, radiatorIds: seq<Id>, gone: seq<Id>, fates: Fates)
    requires |l.requests| == |l.states| && !ReplyOf(l, PutRoom(radiatorIds), fates).Accepted?
    ensures RestIsSent(l, Send(l, PutRoom(radiatorIds), fates), false, radiatorIds, gone, fates)
  {
    var q := PutRoom(radiatorIds);
    OneSent(l, q, fates);
    assert Sent(l, Send(l, q, fates)) == [q];
  }

  lemma RestSent(l: Log, radiatorIds: seq<Id>, gone: seq<Id>, fates: Fates)
    requires |l.requests| == |l.states| && ReplyOf(l, PutRoom(radiatorIds), fates).Accepted?
    ensures var t := DeleteAll(Send(l, PutRoom(radiatorIds), fates), gone, fates);
            RestIsSent(l, t.log, t.ok, radiatorIds, gone, fates)
  {
    var q := PutRoom(radiatorIds);
    var m := Send(l, q, fates);
    var t := DeleteAll(m, gone, fates);
    OneSent(l, q, fates);
    DeletionsSent(m, gone, fates);
    ThenSent(l, m, t.log, t.ok, fates);
    SentJoins(l, m, t.log);
    assert Sent(l, m) == [q];
    assert Sent(l, t.log)[1..] == Sent(m, t.log);
  }

  lemma WholeSent(l: Log, a: Log, m: Log, ok: bool, emitters: seq<Emitter>, radiatorIds: seq<Id>, gone: seq<Id>,
                  fates: Fates)
    requires StopsRight(l, a, true, fates) && AsksFor(Sent(l, a), emitters) && |Sent(l, a)| == |emitters|
    requires RestIsSent(a, m, ok, radiatorIds, gone, fates)
    ensures StopsRight(l, m, ok, fates) && Plan(Sent(l, m), emitters, radiatorIds, gone)
    ensures ok ==> |Sent(l, m)| == |emitters| + 1 + |gone|
  {
    ThenSent(l, a, m, ok, fates);
    SentJoins(l, a, m);
    PlanOf(Sent(l, a), Sent(a, m), ok, emitters, radiatorIds, gone);
  }

  // A save sends its requests in that order up to the first that fails, a deletion only failing when there is no
  // reply; and it succeeds exactly when none has failed, all being sent then.
  lemma SaveSendsInOrder(l: Log, emitters: seq<Emitter>, original: seq<Id>, fates: Fates)
    requires |l.requests| == |l.states|
    ensures var s := Save(l, emitters, original, fates);
            && StopsRight(l, s.log, s.ok, fates)
            && Plan(Sent(l, s.log), emitters, s.radiatorIds, Missing(original, s.radiatorIds))
            && (s.ok ==> |Sent(l, s.log)| == |emitters| + 1 + |Missing(original, s.radiatorIds)|)
  {
    var a, s := SaveEmitters(l, emitters, [], fates), Save(l, emitters, original, fates);
    EmittersSent(l, emitters, [], fates);
    if a.ok {
      var gone := Missing(original, a.radiatorIds);
      if ReplyOf(a.log, PutRoom(a.radiatorIds), fates).Accepted? {
        RestSent(a.log, a.radiatorIds, gone, fates);
      } else {
        RoomSent(a.log, a.radiatorIds, gone, fates);
      }
      WholeSent(l, a.log, s.log, s.ok, emitters, a.radiatorIds, gone, fates);
    }
  }
}
