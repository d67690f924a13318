/**
  What a lookup is told is what its queries delivered. Each query's delivery goes on record when the query
  notifies, before anything is done with it, and the queries of a lookup when they are started, so the
  report is compared with the network rather than with the lookup's own context.
  */
module DnssdTruth {
  import opened Options
  import opened Dnssd
  import opened DnssdLedger
  import opened DnssdProofs

  // -------------------------------------------------------------------------
  // Reports
  // -------------------------------------------------------------------------

  // A resolve's query that finds nothing is answered by the delegated services.
  function Answered(delivery: Delivery): Results {
    if delivery.found != [] then delivery.found else delivery.delegated
  }

  // Host and port as the SRV query delivered them, the text as the TXT query did, and the addresses that
  // came with the SRV answer or else those that the query for its host delivered.
  predicate Reports(asked: Asked, delivered: map<Handle, Delivery>, service: Service, ips: seq<Ip>)
    requires asked.ForResolve?
  {
    && asked.srv in delivered && asked.txt in delivered
    && var srv, txt := Answered(delivered[asked.srv]), Answered(delivered[asked.txt]);
    && srv != [] && ips != []
    && service.instance == srv[0].instance && service.host == srv[0].host && service.port == srv[0].port
    && service.txt == (if txt == [] then [] else txt[0].txt)
    && if srv[0].ips != [] then ips == srv[0].ips
       else
         && asked.addr.Some? && asked.addr.value.host == srv[0].host && asked.addr.value.handle in delivered
         && var addr := Answered(delivered[asked.addr.value.handle]);
            addr != [] && ips == addr[0].ips
  }

  // The SRV query delivered nothing, or it delivered no address and neither did the query for its host.
  predicate NoAddress(asked: Asked, delivered: map<Handle, Delivery>)
    requires asked.ForResolve?
  {
    && asked.srv in delivered
    && var srv := Answered(delivered[asked.srv]);
    srv == [] ||
    ( && srv[0].ips == [] && asked.addr.Some? && asked.addr.value.handle in delivered
      && var addr := Answered(delivered[asked.addr.value.handle]);
         addr == [] || addr[0].ips == [])
  }

  predicate Describes(service: Service, e: Entry) {
    service.instance == e.instance && service.host == e.host && service.port == e.port && service.txt == e.txt
  }

  // One service for every delegated node, the last first, and then one for every node found.
  predicate Lists(delivery: Delivery, services: seq<Service>) {
    var found, delegated := delivery.found, delivery.delegated;
    && |services| == |delegated| + |found|
    && (forall i :: 0 <= i < |delegated| ==> Describes(services[i], delegated[|delegated| - 1 - i]))
    && (forall i :: 0 <= i < |found| ==> Describes(services[|delegated| + i], found[i]))
  }

  predicate TruthfulOutcome(outcome: Outcome, asked: Asked, delivered: map<Handle, Delivery>) {
    match outcome
    case Services(services) => asked.ForBrowse? && asked.handle in delivered && Lists(delivered[asked.handle], services)
    case Resolved(service, ips) => asked.ForResolve? && Reports(asked, delivered, service, ips)
    case Failed(error) =>
      && error != IncorrectState
      && (error == InvalidArgument ==> asked.ForResolve? && NoAddress(asked, delivered))
  }

  predicate TruthfulAction(a: Action, asked: map<Id, Asked>, delivered: map<Handle, Delivery>) {
    a.Called? ==> a.id in asked && TruthfulOutcome(a.outcome, asked[a.id], delivered)
  }

  ghost predicate Truthful(d: Dns) {
    forall j :: 0 <= j < |d.trace| ==> TruthfulAction(d.trace[j], d.asked, d.delivered)
  }

  // -------------------------------------------------------------------------
  // Contexts hold what their queries delivered
  // -------------------------------------------------------------------------

  predicate Gave(delivered: map<Handle, Delivery>, h: Handle, list: Results) {
    h in delivered && Answered(delivered[h]) == list
  }

  predicate Holds(c: Context, asked: Asked, delivered: map<Handle, Delivery>)
    requires c.Resolve? && asked.ForResolve?
  {
    && asked.txt == c.txtHandle
    && c.srvHandle == (if asked.addr.Some? then asked.addr.value.handle else asked.srv)
    && (c.srv != [] ==> Gave(delivered, asked.srv, c.srv))
    && (c.txtFinished ==> Gave(delivered, asked.txt, c.txt))
    && (asked.addr.Some? ==> c.srv != [] && c.srv[0].ips == [] && asked.addr.value.host == c.srv[0].host)
    && (asked.addr.None? && !c.addrFinished ==> c.srv == [])
    && (c.addrFinished ==>
          && c.srv != [] && c.addr != []
          && if asked.addr.Some? then Gave(delivered, asked.addr.value.handle, c.addr)
             else c.addr == c.srv && c.srv[0].ips != [])
  }

  predicate Fits(c: Context, asked: Asked, delivered: map<Handle, Delivery>) {
    if c.Browse? then asked == ForBrowse(c.handle) else asked.ForResolve? && Holds(c, asked, delivered)
  }

  predicate OnRecord(c: Context, asked: map<Id, Asked>, delivered: map<Handle, Delivery>) {
    c.id in asked && Fits(c, asked[c.id], delivered)
  }

  // Every context but the one at `busy` holds what its queries delivered, and no query delivers twice.
  ghost predicate Recorded(d: Dns, busy: int) {
    && (forall i :: 0 <= i < |d.queries| && i != busy ==> OnRecord(d.queries[i], d.asked, d.delivered))
    && (forall h :: h in d.delivered ==> h !in d.pending && h < d.nextHandle)
    && (forall id :: id in d.asked ==> id < d.nextId)
  }

  ghost predicate Told(d: Dns, busy: int) { Recorded(d, busy) && Truthful(d) }

  // -------------------------------------------------------------------------
  // The pieces of a step
  // -------------------------------------------------------------------------

  lemma QuietTold(d: Dns, m: Dns, busy: int, a: Action)
    requires Told(d, busy) && !a.Called?
    requires m == d.(trace := d.trace + [a], seen := m.seen)
    ensures Told(m, busy)
  {
  }

  lemma ObtainTold(d: Dns, busy: int, es: Results)
    requires Told(d, busy)
    ensures Told(Obtain(d, es), busy)
  {
    if es != [] {
      QuietTold(d, Obtain(d, es), busy, Obtained(es));
    }
  }

  lemma {:induction false} FreeAllTold(d: Dns, busy: int, owner: Id, lists: seq<Results>)
    requires Told(d, busy)
    ensures Told(FreeAll(d, owner, lists), busy)
    decreases |lists|
  {
    if lists != [] {
      if lists[0] != [] {
        QuietTold(d, Free(d, Some(owner), lists[0]), busy, Freed(Some(owner), lists[0]));
      }
      FreeAllTold(Free(d, Some(owner), lists[0]), busy, owner, lists[1..]);
    }
  }

  lemma FinishTold(d: Dns, k: nat, outcome: Outcome)
    requires k < |d.queries| && Told(d, k)
    requires TruthfulAction(Called(d.queries[k].id, outcome), d.asked, d.delivered)
    ensures Told(Finish(d, k, outcome), -1)
  {
    var c := d.queries[k];
    var called := Log(d, Called(c.id, outcome)).(queries := Without(d.queries, k));
    assert forall i :: 0 <= i < |called.queries| ==> called.queries[i] == d.queries[if i < k then i else i + 1];
    assert Told(called, -1);
    FreeAllTold(called, -1, c.id, Owned(c));
  }

  lemma PutTold(d: Dns, k: nat, c: Context)
    requires k < |d.queries| && Told(d, k)
    ensures Told(Put(d, k, c), k)
    ensures OnRecord(c, d.asked, d.delivered) ==> Told(Put(d, k, c), -1)
  {
  }

  // -------------------------------------------------------------------------
  // A resolve
  // -------------------------------------------------------------------------

  lemma OutcomeIsTruthful(c: Context, asked: Asked, delivered: map<Handle, Delivery>, memory: Memory)
    requires c.Resolve? && Fits(c, asked, delivered) && c.addrFinished && c.txtFinished
    ensures TruthfulOutcome(ResolveOutcome(c, memory), asked, delivered)
  {
  }

  lemma SettleTold(d: Dns, k: nat, memory: Memory)
    requires k < |d.queries| && Told(d, -1) && d.queries[k].Resolve?
    ensures Told(Settle(d, k, memory), -1)
  {
    var c := d.queries[k];
    assert OnRecord(c, d.asked, d.delivered);
    if c.addrFinished && c.txtFinished {
      OutcomeIsTruthful(c, d.asked[c.id], d.delivered, memory);
      FinishTold(d, k, ResolveOutcome(c, memory));
    }
  }

  // A new version of the context, with what has just been delivered, is settled.
  lemma StoreTold(d: Dns, k: nat, c1: Context, memory: Memory)
    requires k < |d.queries| && Told(d, k) && c1.Resolve? && OnRecord(c1, d.asked, d.delivered)
    ensures Told(Settle(Put(d, k, c1), k, memory), -1)
  {
    PutTold(d, k, c1);
    SettleTold(Put(d, k, c1), k, memory);
  }

  lemma {:induction false} NotCalledNotInTrace(trace: seq<Action>, id: Id, j: nat)
    requires j < |trace| && trace[j].Called? && trace[j].id == id
    ensures Calls(trace, id) > 0
    decreases |trace|
  {
    if j < |trace| - 1 {
      NotCalledNotInTrace(trace[..|trace| - 1], id, j);
    }
  }

  // A lookup that has not been called can ask another query: what others were told stays true.
  lemma AskForTold(d: Dns, k: nat, host: string)
    requires k < |d.queries| && Told(d, k) && Separate(d.queries) && Calls(d.trace, d.queries[k].id) == 0
    ensures Told(AskFor(d, d.queries[k].id, host), k)
  {
    var id := d.queries[k].id;
    var m := AskFor(d, id, host);
    forall i | 0 <= i < |m.queries| && i != k ensures OnRecord(m.queries[i], m.asked, m.delivered) {
      assert OnRecord(d.queries[i], d.asked, d.delivered) && d.queries[i].id != id;
    }
    forall j | 0 <= j < |m.trace| ensures TruthfulAction(m.trace[j], m.asked, m.delivered) {
      if m.trace[j].Called? && m.trace[j].id == id {
        NotCalledNotInTrace(d.trace, id, j);
      }
    }
  }

  // The first answer has no address: the query for its host takes the place of the SRV query.
  lemma AskedTold(d: Dns, k: nat, answer: Results)
    requires k < |d.queries| && Told(d, k) && Separate(d.queries) && Calls(d.trace, d.queries[k].id) == 0
    requires answer != [] && answer[0].ips == []
    requires var c := d.queries[k];
             && c.Resolve? && c.id in d.asked && Fits(c, d.asked[c.id], d.delivered)
             && c.srv == [] && !c.addrFinished && Gave(d.delivered, c.srvHandle, answer)
    ensures var c := d.queries[k];
            var c1 := c.(srv := answer, addr := [], srvHandle := d.nextHandle);
            Told(NewQuery(Put(AskFor(d, c.id, answer[0].host), k, c1)), -1)
  {
    var c := d.queries[k];
    var c1 := c.(srv := answer, addr := [], srvHandle := d.nextHandle);
    var m := AskFor(d, c.id, answer[0].host);
    AskForTold(d, k, answer[0].host);
    assert Holds(c1, m.asked[c.id], m.delivered);
    PutTold(m, k, c1);
  }

  lemma FirstAnswerTold(d: Dns, k: nat, answer: Results, memory: Memory)
    requires k < |d.queries| && Told(d, k) && Separate(d.queries) && Calls(d.trace, d.queries[k].id) == 0
    requires answer != []
    requires var c := d.queries[k];
             && c.Resolve? && c.id in d.asked && Fits(c, d.asked[c.id], d.delivered)
             && c.srv == [] && !c.addrFinished && Gave(d.delivered, c.srvHandle, answer)
    ensures Told(SrvDone(d, k, answer, memory), -1)
  {
    var c := d.queries[k];
    if answer[0].ips != [] {
      StoreTold(d, k, c.(srv := answer, addr := answer, addrFinished := true), memory);
    } else if memory.followUp {
      AskedTold(d, k, answer);
      var stored := Put(d, k, c.(srv := answer));
      assert AskFor(stored, c.id, answer[0].host) == Put(AskFor(d, c.id, answer[0].host), k, c.(srv := answer));
    } else {
      var c1 := c.(srv := answer);
      PutTold(d, k, c1);
      PutTold(Put(d, k, c1), k, c1.(addr := []));
      FinishTold(Put(Put(d, k, c1), k, c1.(addr := [])), k, Failed(NoMemory));
    }
  }

  lemma SrvDoneTold(d: Dns, k: nat, answer: Results, memory: Memory)
    requires k < |d.queries| && Told(d, -1) && Separate(d.queries) && Calls(d.trace, d.queries[k].id) == 0
    requires d.queries[k].Resolve? && !d.queries[k].addrFinished && d.queries[k].addr == []
    requires Gave(d.delivered, d.queries[k].srvHandle, answer)
    ensures Told(SrvDone(d, k, answer, memory), -1)
  {
    var c := d.queries[k];
    assert OnRecord(c, d.asked, d.delivered);
    if answer == [] {
      assert NoAddress(d.asked[c.id], d.delivered);
      FinishTold(d, k, Failed(InvalidArgument));
    } else if c.srv == [] {
      FirstAnswerTold(d, k, answer, memory);
    } else {
      StoreTold(d, k, c.(addr := answer, addrFinished := true), memory);
    }
  }

  lemma TxtDoneTold(d: Dns, k: nat, answer: Results, memory: Memory)
    requires k < |d.queries| && Told(d, -1) && d.queries[k].Resolve?
    requires Gave(d.delivered, d.queries[k].txtHandle, answer)
    ensures Told(TxtDone(d, k, answer, memory), -1)
  {
    assert OnRecord(d.queries[k], d.asked, d.delivered);
    StoreTold(d, k, d.queries[k].(txt := answer, txtFinished := true), memory);
  }

  // -------------------------------------------------------------------------
  // A browse
  // -------------------------------------------------------------------------

  lemma {:induction false} ReversedAt(es: Results, i: nat)
    requires i < |es|
    ensures |Reversed(es)| == |es| && Reversed(es)[i] == es[|es| - 1 - i]
  {
    ReversedKeeps(es[1..]);
    if i < |es| - 1 {
      ReversedAt(es[1..], i);
    }
  }

  lemma ServiceAt(es: Results, i: nat, e: Entry)
    requires i < |es| && es[i] == e
    ensures |ServicesOf(es)| == |es| && Describes(ServicesOf(es)[i], e)
  {
  }

  lemma SpliceLists(found: Results, delegated: Results)
    ensures Lists(Delivery(found, delegated), ServicesOf(Reversed(delegated) + found))
  {
    var all, n := Reversed(delegated) + found, |delegated|;
    ReversedKeeps(delegated);
    forall i | 0 <= i < n ensures Describes(ServicesOf(all)[i], delegated[n - 1 - i]) {
      ReversedAt(delegated, i);
      ServiceAt(all, i, delegated[n - 1 - i]);
    }
    forall i | 0 <= i < |found| ensures Describes(ServicesOf(all)[n + i], found[i]) {
      ServiceAt(all, n + i, found[i]);
    }
  }

  lemma BrowseDoneTold(d: Dns, k: nat, found: Results, delegated: Results, memory: Memory)
    requires k < |d.queries| && Told(d, -1) && d.queries[k].Browse?
    requires d.queries[k].handle in d.delivered && d.delivered[d.queries[k].handle] == Delivery(found, delegated)
    ensures Told(BrowseDone(d, k, found, delegated, memory), -1)
  {
    var results := Reversed(delegated) + found;
    var c := d.queries[k];
    assert OnRecord(c, d.asked, d.delivered);
    SpliceLists(found, delegated);
    ObtainTold(d, -1, delegated);
    PutTold(Obtain(d, delegated), k, c.(results := results));
    FinishTold(Put(Obtain(d, delegated), k, c.(results := results)), k, BrowseOutcome(results, memory));
  }

  // -------------------------------------------------------------------------
  // Any input
  // -------------------------------------------------------------------------

  lemma NotifiedTold(d: Dns, h: Handle, delivery: Delivery)
    requires Told(d, -1) && h in d.pending && h < d.nextHandle
    ensures Told(Notified(d, h, delivery), -1)
  {
    var m := Notified(d, h, delivery);
    assert h !in d.delivered;
    forall i | 0 <= i < |m.queries| ensures OnRecord(m.queries[i], m.asked, m.delivered) {
      assert OnRecord(d.queries[i], d.asked, d.delivered);
    }
    forall j | 0 <= j < |m.trace| ensures TruthfulAction(m.trace[j], m.asked, m.delivered) {
      assert TruthfulAction(d.trace[j], d.asked, d.delivered);
    }
  }

  lemma FreeTold(d: Dns, es: Results)
    requires Told(d, -1)
    ensures Told(Free(d, None, es), -1)
  {
    if es != [] {
      QuietTold(d, Free(d, None, es), -1, Freed(None, es));
    }
  }

  // Obtaining a list is no call.
  lemma ObtainCalls(d: Dns, es: Results, id: Id)
    ensures Calls(Obtain(d, es).trace, id) == Calls(d.trace, id)
  {
    LogReads(d.trace, Obtained(es));
  }

  lemma QueryDoneTold(d: Dns, h: Handle, k: nat, found: Results, delegated: Results, memory: Memory)
    requires k == Find(d.queries, h) <= |d.queries| && Told(d, -1) && Separate(d.queries)
    requires h in d.delivered && d.delivered[h] == Delivery(found, delegated)
    requires k < |d.queries| ==> Calls(d.trace, d.queries[k].id) == 0
    requires k < |d.queries| && d.queries[k].Resolve? && d.queries[k].srvHandle == h ==>
               !d.queries[k].addrFinished && d.queries[k].addr == []
    ensures Told(QueryDone(d, h, found, delegated, memory), -1)
  {
    QueryDoneCases(d, h, found, delegated, memory);
    FindIsFirst(d.queries, h);
    var d1 := Obtain(d, found);
    ObtainTold(d, -1, found);
    if k == |d.queries| {
      FreeTold(d1, found);
    } else if d.queries[k].Browse? {
      BrowseDoneTold(d1, k, found, delegated, memory);
    } else {
      var d2 := if found == [] then Obtain(d1, delegated) else d1;
      ObtainTold(d1, -1, delegated);
      ObtainCalls(d, found, d.queries[k].id);
      ObtainCalls(d1, delegated, d.queries[k].id);
      if d.queries[k].srvHandle == h {
        SrvDoneTold(d2, k, Answer(found, delegated), memory);
      } else {
        TxtDoneTold(d2, k, Answer(found, delegated), memory);
      }
    }
  }

  lemma DoneTold(d: Dns, h: Handle, delivery: Delivery, memory: Memory)
    requires Inv(d) && Told(d, -1) && h in d.pending
    ensures Told(QueryDone(Notified(d, h, delivery), h, delivery.found, delivery.delegated, memory), -1)
  {
    var k, m := Find(d.queries, h), Notified(d, h, delivery);
    NotifiedTold(d, h, delivery);
    TakeOrderly(d, h, delivery);
    if k < |d.queries| {
      assert Numbered(d.queries[k], d) && d.queries[k].id in Ids(d.queries);
    }
    QueryDoneTold(m, h, k, delivery.found, delivery.delegated, memory);
  }

  lemma NewQueryTold(d: Dns)
    requires Told(d, -1)
    ensures Told(NewQuery(d), -1)
  {
  }

  // What is asked under a new number was told to nobody.
  lemma AcceptTold(d: Dns, c: Context, asked: Asked)
    requires Told(d, -1) && c.id == d.nextId && Fits(c, asked, d.delivered)
    ensures Told(Accept(d, c, asked), -1)
  {
    var m := Accept(d, c, asked);
    assert c.id !in d.asked;
    forall i | 0 <= i < |m.queries| ensures OnRecord(m.queries[i], m.asked, m.delivered) {
      if i > 0 {
        assert m.queries[i] == d.queries[i - 1];
        assert OnRecord(d.queries[i - 1], d.asked, d.delivered);
      }
    }
    forall j | 0 <= j < |m.trace| ensures TruthfulAction(m.trace[j], m.asked, m.delivered) {
      assert TruthfulAction(d.trace[j], d.asked, d.delivered);
    }
  }

  lemma StartTold(d: Dns, i: Input)
    requires Told(d, -1) && !i.Done?
    ensures Told(Next(d, i), -1)
  {
    NewQueryTold(d);
    NewQueryTold(NewQuery(d));
    if i.StartBrowse? {
      AcceptTold(NewQuery(d), Browse(d.nextId, d.nextHandle, []), ForBrowse(d.nextHandle));
    } else {
      ResolveStartedCases(d, i.srvOk, i.txtOk, i.contextOk, i.listOk);
      AcceptTold(NewQuery(NewQuery(d)), Resolve(d.nextId, d.nextHandle, [], [], false, d.nextHandle + 1, [], false),
        ForResolve(d.nextHandle, d.nextHandle + 1, None));
    }
  }

  lemma {:induction false} RunTold(inputs: seq<Input>)
    ensures Told(Run(START, inputs), -1)
  {
    if inputs != [] {
      var init, last := inputs[..|inputs| - 1], inputs[|inputs| - 1];
      var d := Run(START, init);
      RunInv(init);
      RunTold(init);
      if !last.Done? {
        StartTold(d, last);
      } else if Possible(d, last) {
        DoneTold(d, last.h, Delivery(last.result, last.delegated), last.memory);
      }
    }
  }

  // -------------------------------------------------------------------------
  // What every run promises
  // -------------------------------------------------------------------------

  // On every run, each callback told the truth about what the lookup's own queries delivered: a resolve
  // reports the SRV, TXT and address queries, a browse lists its nodes and the delegated ones, and one that
  // fails for another reason than memory was delivered no address.
  lemma EveryCallIsTruthful(inputs: seq<Input>, id: Id, outcome: Outcome)
    ensures var d := Run(START, inputs);
            Called(id, outcome) in d.trace ==> id in d.asked && TruthfulOutcome(outcome, d.asked[id], d.delivered)
  {
    RunTold(inputs);
    var d := Run(START, inputs);
    if Called(id, outcome) in d.trace {
      var j :| 0 <= j < |d.trace| && d.trace[j] == Called(id, outcome);
      assert TruthfulAction(d.trace[j], d.asked, d.delivered);
    }
  }

  // What goes on record stays: a query delivers once, its delivery is what the network gave it, and a lookup
  // keeps the queries it was started with.
  lemma RecordsStay(inputs: seq<Input>, i: Input)
    ensures var d, m := Run(START, inputs), Run(START, inputs + [i]);
            && (forall h :: h in d.delivered ==> h in m.delivered && m.delivered[h] == d.delivered[h])
            && AskedKept(d, m) && d.nextId <= m.nextId
            && (i.Done? && Possible(d, i) ==>
                  i.h !in d.delivered && i.h in m.delivered && m.delivered[i.h] == Delivery(i.result, i.delegated))
  {
    var d := Run(START, inputs);
    assert (inputs + [i])[..|inputs|] == inputs;
    RunTold(inputs);
    RunInv(inputs);
    if i.Done? && Possible(d, i) {
      QueryDoneKeepsRecord(Notified(d, i.h, Delivery(i.result, i.delegated)), i.h, i.result, i.delegated, i.memory);
    }
  }

  // A lookup keeps the queries it was started with; only an address query can be added.
  predicate SameQueries(a: Asked, b: Asked) {
    if a.ForBrowse? then b == a else b.ForResolve? && b.srv == a.srv && b.txt == a.txt
  }

  ghost predicate AskedKept(d: Dns, m: Dns) {
    forall id :: id in d.asked ==> id in m.asked && SameQueries(d.asked[id], m.asked[id])
  }

  ghost predicate KeepsRecord(d: Dns, m: Dns) {
    m.delivered == d.delivered && m.nextId == d.nextId && AskedKept(d, m)
  }

  lemma {:induction false} FreeAllKeepsRecord(d: Dns, owner: Id, lists: seq<Results>)
    ensures KeepsRecord(d, FreeAll(d, owner, lists))
    decreases |lists|
  {
    if lists != [] {
      FreeAllKeepsRecord(Free(d, Some(owner), lists[0]), owner, lists[1..]);
    }
  }

  lemma FinishKeepsRecord(d: Dns, k: nat, outcome: Outcome)
    requires k < |d.queries|
    ensures KeepsRecord(d, Finish(d, k, outcome))
  {
    var c := d.queries[k];
    FreeAllKeepsRecord(Log(d, Called(c.id, outcome)).(queries := Without(d.queries, k)), c.id, Owned(c));
  }

  lemma SettleKeepsRecord(d: Dns, k: nat, memory: Memory)
    requires k < |d.queries| && d.queries[k].Resolve?
    ensures KeepsRecord(d, Settle(d, k, memory))
  {
    if d.queries[k].addrFinished && d.queries[k].txtFinished {
      FinishKeepsRecord(d, k, ResolveOutcome(d.queries[k], memory));
    }
  }

  lemma SrvDoneKeepsRecord(d: Dns, k: nat, answer: Results, memory: Memory)
    requires k < |d.queries| && d.queries[k].Resolve?
    ensures KeepsRecord(d, SrvDone(d, k, answer, memory))
  {
    var c := d.queries[k];
    if answer == [] {
      FinishKeepsRecord(d, k, Failed(InvalidArgument));
    } else if c.srv == [] && answer[0].ips != [] {
      SettleKeepsRecord(Put(d, k, c.(srv := answer, addr := answer, addrFinished := true)), k, memory);
    } else if c.srv == [] {
      FinishKeepsRecord(Put(Put(d, k, c.(srv := answer)), k, c.(srv := answer, addr := [])), k, Failed(NoMemory));
    } else if c.addr == [] {
      SettleKeepsRecord(Put(d, k, c.(addr := answer, addrFinished := true)), k, memory);
    } else {
      FinishKeepsRecord(d, k, Failed(IncorrectState));
    }
  }

  lemma QueryDoneKeepsRecord(d: Dns, h: Handle, found: Results, delegated: Results, memory: Memory)
    ensures KeepsRecord(d, QueryDone(d, h, found, delegated, memory))
  {
    var k := Find(d.queries, h);
    QueryDoneCases(d, h, found, delegated, memory);
    var d1 := Obtain(d, found);
    if k < |d.queries| && d.queries[k].Browse? {
      var results := Reversed(delegated) + found;
      var stored := Put(Obtain(d1, delegated), k, d.queries[k].(results := results));
      FinishKeepsRecord(stored, k, BrowseOutcome(results, memory));
    } else if k < |d.queries| {
      var d2, answer := if found == [] then Obtain(d1, delegated) else d1, Answer(found, delegated);
      if d.queries[k].srvHandle == h {
        SrvDoneKeepsRecord(d2, k, answer, memory);
      } else {
        SettleKeepsRecord(Put(d2, k, d.queries[k].(txt := answer, txtFinished := true)), k, memory);
      }
    }
  }
}
