/** What the lookups promise over every interleaving of their completions. */
module DnssdProofs {
  import opened Options
  import opened Dnssd
  import opened DnssdLedger

  // -------------------------------------------------------------------------
  // The invariant
  // -------------------------------------------------------------------------

  function HandlesOf(c: Context): set<Handle> {
    match c
    case Browse(_, handle, _) => {handle}
    case Resolve(_, srvHandle, _, _, _, txtHandle, _, _) => {srvHandle, txtHandle}
  }

  ghost predicate Separate(queries: seq<Context>) {
    && (forall i, j :: 0 <= i < j < |queries| ==> queries[i].id != queries[j].id)
    && (forall i, j :: 0 <= i < j < |queries| ==> HandlesOf(queries[i]) !! HandlesOf(queries[j]))
    && (forall i :: 0 <= i < |queries| && queries[i].Resolve? ==> queries[i].srvHandle != queries[i].txtHandle)
  }

  // A resolve context agrees with which of its queries are still out.
  predicate InStep(c: Context, pending: set<Handle>) {
    && c.Resolve?
    && (c.srvHandle in pending <==> !c.addrFinished)
    && (c.txtHandle in pending <==> !c.txtFinished)
    && (if c.addrFinished then c.srv != [] && c.addr != [] else c.addr == [])
    && (!c.addrFinished && c.srv != [] ==> c.srv[0].ips == [])
    && (c.addrFinished && c.srv[0].ips != [] ==> c.addr == c.srv)
    && (!c.txtFinished ==> c.txt == [])
  }

  // A listed context always has a query out.
  predicate Waiting(c: Context, pending: set<Handle>) {
    if c.Browse? then c.handle in pending && c.results == []
    else InStep(c, pending) && !(c.addrFinished && c.txtFinished)
  }

  predicate Numbered(c: Context, d: Dns) {
    c.id < d.nextId && forall h :: h in HandlesOf(c) ==> h < d.nextHandle
  }

  // All contexts but the one at `busy`, whose completion is being handled, are waiting.
  ghost predicate Orderly(d: Dns, busy: int) {
    && Separate(d.queries)
    && (forall i :: 0 <= i < |d.queries| ==> Numbered(d.queries[i], d))
    && (forall h :: h in d.pending ==> h < d.nextHandle)
    && (forall i :: 0 <= i < |d.queries| && i != busy ==> Waiting(d.queries[i], d.pending))
  }

  // Every lookup accepted so far has been called once, unless it is still listed.
  ghost predicate CallsOk(d: Dns) {
    && (forall id :: d.nextId <= id ==> Calls(d.trace, id) == 0)
    && (forall id :: 0 <= id < d.nextId ==> Calls(d.trace, id) == if Listed(d, id) then 0 else 1)
  }

  ghost predicate Books(d: Dns, flight: multiset<Entry>) {
    Ledger(d, flight) && CallsOk(d)
  }

  ghost predicate Inv(d: Dns) {
    Orderly(d, -1) && Books(d, multiset{})
  }

  // An action that is no call leaves the calls as they are.
  lemma QuietCalls(d: Dns, m: Dns, a: Action)
    requires CallsOk(d) && !a.Called?
    requires m.trace == d.trace + [a] && m.queries == d.queries && m.nextId == d.nextId
    ensures CallsOk(m)
  {
    LogReads(d.trace, a);
    assert forall id :: Calls(m.trace, id) == Calls(d.trace, id);
  }

  // -------------------------------------------------------------------------
  // Finishing a lookup
  // -------------------------------------------------------------------------

  lemma WithoutSeparate(queries: seq<Context>, k: nat)
    requires k < |queries| && Separate(queries)
    ensures Separate(Without(queries, k))
  {
    var rest := Without(queries, k);
    assert forall i :: 0 <= i < |rest| ==> rest[i] == queries[if i < k then i else i + 1];
  }

  lemma WithoutIds(queries: seq<Context>, k: nat)
    requires k < |queries| && Separate(queries)
    ensures Ids(Without(queries, k)) == Ids(queries) - {queries[k].id}
  {
    var rest := Without(queries, k);
    forall id | id in Ids(queries) - {queries[k].id} ensures id in Ids(rest) {
      var i :| 0 <= i < |queries| && queries[i].id == id;
      assert rest[if i < k then i else i - 1] == queries[i];
    }
    forall id | id in Ids(rest) ensures id in Ids(queries) - {queries[k].id} {
      var i :| 0 <= i < |rest| && rest[i].id == id;
      assert rest[i] == queries[if i < k then i else i + 1];
    }
  }

  lemma FinishOrderly(d: Dns, k: nat, outcome: Outcome)
    requires k < |d.queries| && Orderly(d, k)
    requires Finish(d, k, outcome) == d.(queries := Without(d.queries, k), trace := Finish(d, k, outcome).trace)
    ensures Orderly(Finish(d, k, outcome), -1)
  {
    WithoutSeparate(d.queries, k);
    var rest := Without(d.queries, k);
    assert forall i :: 0 <= i < |rest| ==> rest[i] == d.queries[if i < k then i else i + 1];
  }

  // One more call, for a lookup no longer listed.
  lemma CallsAfterFinish(d: Dns, m: Dns, id: Id)
    requires CallsOk(d) && id in Ids(d.queries) && id < d.nextId && m.nextId == d.nextId
    requires Ids(m.queries) == Ids(d.queries) - {id}
    requires forall i :: Calls(m.trace, i) == Calls(d.trace, i) + (if i == id then 1 else 0)
    ensures CallsOk(m)
  {
  }

  lemma FinishBooks(d: Dns, k: nat, outcome: Outcome, flight: multiset<Entry>)
    requires k < |d.queries| && Separate(d.queries) && d.queries[k].id < d.nextId && Books(d, flight)
    ensures Books(Finish(d, k, outcome), flight)
    ensures Finish(d, k, outcome) == d.(queries := Without(d.queries, k), trace := Finish(d, k, outcome).trace)
  {
    var id := d.queries[k].id;
    FinishLedger(d, k, outcome, flight);
    WithoutIds(d.queries, k);
    CallsAfterFinish(d, Finish(d, k, outcome), id);
  }

  lemma FinishInv(d: Dns, k: nat, outcome: Outcome)
    requires k < |d.queries| && Orderly(d, k) && Books(d, multiset{})
    ensures Inv(Finish(d, k, outcome))
  {
    FinishBooks(d, k, outcome, multiset{});
    FinishOrderly(d, k, outcome);
  }

  // -------------------------------------------------------------------------
  // Storing an answer
  // -------------------------------------------------------------------------

  lemma PutIds(queries: seq<Context>, k: nat, c: Context)
    requires k < |queries| && c.id == queries[k].id
    ensures Ids(queries[k := c]) == Ids(queries)
  {
    var m := queries[k := c];
    forall id | id in Ids(queries) ensures id in Ids(m) {
      var i :| 0 <= i < |queries| && queries[i].id == id;
      assert m[i] in m && m[i].id == id;
    }
    forall id | id in Ids(m) ensures id in Ids(queries) {
      var i :| 0 <= i < |m| && m[i].id == id;
      assert queries[i] in queries && queries[i].id == id;
    }
  }

  lemma PutOrderly(d: Dns, k: nat, c: Context)
    requires k < |d.queries| && Orderly(d, k) && c.id == d.queries[k].id
    requires HandlesOf(c) == HandlesOf(d.queries[k])
    requires c.Resolve? ==> c.srvHandle != c.txtHandle
    ensures Orderly(Put(d, k, c), k)
  {
    var m := Put(d, k, c);
    assert forall i :: 0 <= i < |d.queries| && i != k ==> m.queries[i] == d.queries[i];
    assert forall i, j :: 0 <= i < j < |d.queries| ==>
        HandlesOf(m.queries[i]) == HandlesOf(d.queries[i]) && HandlesOf(m.queries[j]) == HandlesOf(d.queries[j]);
  }

  lemma PutBooks(d: Dns, k: nat, c: Context, before: multiset<Entry>, after: multiset<Entry>)
    requires k < |d.queries| && Books(d, before) && c.id == d.queries[k].id
    requires before + All(Owned(d.queries[k])) == after + All(Owned(c))
    ensures Books(Put(d, k, c), after)
  {
    PutLedger(d, k, c, before, after);
    PutIds(d.queries, k, c);
  }

  lemma AllOwnedResolve(c: Context)
    requires c.Resolve?
    ensures All(Owned(c)) ==
            multiset(c.srv) + (if SameList(c.addr, c.srv) then multiset{} else multiset(c.addr)) + multiset(c.txt)
  {
    var addr := if SameList(c.addr, c.srv) then [] else c.addr;
    var lists := [c.srv, addr, c.txt];
    assert lists[1..] == [addr, c.txt] && [addr, c.txt][1..] == [c.txt] && [c.txt][1..] == [];
    assert All([c.txt]) == multiset(c.txt);
    assert All([addr, c.txt]) == multiset(addr) + multiset(c.txt);
    assert All(lists) == multiset(c.srv) + (multiset(addr) + multiset(c.txt));
  }

  // A node in flight is not one that a context holds.
  lemma HeldIsNotInFlight(d: Dns, flight: multiset<Entry>, e: Entry, f: Entry)
    requires Ledger(d, flight) && e in HeldBy(d.queries) && f in flight
    ensures e.address != f.address
  {
    var obtained := ObtainedIn(d.trace);
    assert obtained[e] == FreedIn(d.trace)[e] + HeldBy(d.queries)[e] + flight[e];
    assert e in obtained && f in obtained;
  }

  // A list just obtained is not the one a context already holds.
  lemma AnswerIsNew(d: Dns, k: nat, answer: Results)
    requires k < |d.queries| && d.queries[k].Resolve? && Ledger(d, multiset(answer))
    ensures !SameList(answer, d.queries[k].srv)
  {
    var srv := d.queries[k].srv;
    if answer != [] && srv != [] {
      AllOwnedResolve(d.queries[k]);
      HeldByHas(d.queries, k);
      assert srv[0] in multiset(srv) && answer[0] in multiset(answer);
      HeldIsNotInFlight(d, multiset(answer), srv[0], answer[0]);
    }
  }

  // -------------------------------------------------------------------------
  // Completions
  // -------------------------------------------------------------------------

  lemma SettleInv(d: Dns, k: nat, memory: Memory)
    requires k < |d.queries| && Orderly(d, k) && Books(d, multiset{})
    requires InStep(d.queries[k], d.pending)
    ensures Inv(Settle(d, k, memory))
  {
    var c := d.queries[k];
    if c.addrFinished && c.txtFinished {
      FinishInv(d, k, ResolveOutcome(c, memory));
    }
  }

  // The context whose SRV or address query has just answered.
  predicate AwaitsAnswer(c: Context, d: Dns) {
    && c.Resolve? && c.srvHandle !in d.pending && !c.addrFinished && c.addr == []
    && (c.srv != [] ==> c.srv[0].ips == [])
    && (c.txtHandle in d.pending <==> !c.txtFinished)
    && (!c.txtFinished ==> c.txt == [])
  }

  lemma FollowUpFails(d: Dns, k: nat)
    requires k < |d.queries| && Orderly(d, k) && Books(d, multiset{}) && AwaitsAnswer(d.queries[k], d)
    ensures Inv(Finish(Put(d, k, d.queries[k].(addr := [])), k, Failed(NoMemory)))
  {
    var c1 := d.queries[k].(addr := []);
    assert Owned(c1) == Owned(d.queries[k]);
    PutOrderly(d, k, c1);
    PutBooks(d, k, c1, multiset{}, multiset{});
    FinishInv(Put(d, k, c1), k, Failed(NoMemory));
  }

  // The address query has been started and put in place of the SRV query that answered.
  lemma FollowUpAsked(d: Dns, k: nat, host: string, memory: Memory)
    requires k < |d.queries| && Books(d, multiset{}) && d.queries[k].Resolve? && d.queries[k].addr == []
    requires memory.followUp
    ensures Books(AskAddress(d, k, host, memory), multiset{})
  {
    var c := d.queries[k];
    var c1 := c.(addr := [], srvHandle := d.nextHandle);
    assert Owned(c1) == Owned(c);
    PutBooks(d, k, c1, multiset{}, multiset{});
    LedgerMoves(Put(d, k, c1), AskAddress(d, k, host, memory), multiset{}, multiset{});
  }

  lemma AskAddressInv(d: Dns, k: nat, host: string, memory: Memory)
    requires k < |d.queries| && Orderly(d, k) && Books(d, multiset{}) && AwaitsAnswer(d.queries[k], d)
    requires d.queries[k].srv != [] && d.queries[k].srv[0].host == host
    ensures Inv(AskAddress(d, k, host, memory))
  {
    if memory.followUp {
      FollowUpAsked(d, k, host, memory);
      NewHandleOrderly(d, k, d.queries[k].(addr := [], srvHandle := d.nextHandle), AskAddress(d, k, host, memory));
    } else {
      FollowUpFails(d, k);
    }
  }

  // A context given a fresh query in place of the one that answered is waiting again.
  lemma NewHandleOrderly(d: Dns, k: nat, c1: Context, m: Dns)
    requires k < |d.queries| && Orderly(d, k) && AwaitsAnswer(d.queries[k], d)
    requires c1 == d.queries[k].(addr := [], srvHandle := d.nextHandle)
    requires m.queries == d.queries[k := c1] && m.nextId == d.nextId && m.nextHandle == d.nextHandle + 1
    requires m.pending == d.pending + {d.nextHandle}
    ensures Orderly(m, -1)
  {
    assert Numbered(d.queries[k], d) && c1.txtHandle in HandlesOf(d.queries[k]);
    assert HandlesOf(c1) <= HandlesOf(d.queries[k]) + {d.nextHandle};
    forall i | 0 <= i < |m.queries| && i != k
      ensures m.queries[i] == d.queries[i] && d.nextHandle !in HandlesOf(m.queries[i])
      ensures Waiting(m.queries[i], m.pending) && Numbered(m.queries[i], m)
    {
      assert Numbered(d.queries[i], d) && d.queries[i].id != c1.id;
      assert d.nextHandle !in HandlesOf(d.queries[i]);
    }
    forall i, j | 0 <= i < j < |m.queries| ensures HandlesOf(m.queries[i]) !! HandlesOf(m.queries[j]) {
      assert HandlesOf(d.queries[i]) !! HandlesOf(d.queries[j]);
    }
  }

  // Storing an answer moves it from flight into the context.
  lemma StoreAnswer(d: Dns, k: nat, c1: Context, answer: Results)
    requires k < |d.queries| && Orderly(d, k) && Books(d, multiset(answer))
    requires d.queries[k].Resolve? && c1.Resolve? && c1.id == d.queries[k].id
    requires c1.srvHandle == d.queries[k].srvHandle && c1.txtHandle == d.queries[k].txtHandle
    requires All(Owned(c1)) == All(Owned(d.queries[k])) + multiset(answer)
    ensures Orderly(Put(d, k, c1), k) && Books(Put(d, k, c1), multiset{})
  {
    PutOrderly(d, k, c1);
    assert multiset(answer) + All(Owned(d.queries[k])) == multiset{} + All(Owned(c1));
    PutBooks(d, k, c1, multiset(answer), multiset{});
  }

  lemma FirstAnswerOwned(c: Context, answer: Results, c1: Context)
    requires c.Resolve? && c.srv == [] == c.addr
    requires c1 == c.(srv := answer, addr := answer, addrFinished := true) || c1 == c.(srv := answer)
    ensures All(Owned(c1)) == All(Owned(c)) + multiset(answer)
  {
    AllOwnedResolve(c);
    AllOwnedResolve(c1);
  }

  lemma FollowUpOwned(c: Context, answer: Results)
    requires c.Resolve? && c.addr == [] && !SameList(answer, c.srv)
    ensures All(Owned(c.(addr := answer, addrFinished := true))) == All(Owned(c)) + multiset(answer)
  {
    AllOwnedResolve(c);
    AllOwnedResolve(c.(addr := answer, addrFinished := true));
  }

  lemma TxtOwned(c: Context, answer: Results)
    requires c.Resolve? && c.txt == []
    ensures All(Owned(c.(txt := answer, txtFinished := true))) == All(Owned(c)) + multiset(answer)
  {
    AllOwnedResolve(c);
    AllOwnedResolve(c.(txt := answer, txtFinished := true));
  }

  lemma FirstAnswerInv(d: Dns, k: nat, answer: Results, memory: Memory)
    requires k < |d.queries| && Orderly(d, k) && Books(d, multiset(answer)) && AwaitsAnswer(d.queries[k], d)
    requires answer != [] && d.queries[k].srv == []
    ensures Inv(SrvDone(d, k, answer, memory))
  {
    var c := d.queries[k];
    if answer[0].ips != [] {
      var c1 := c.(srv := answer, addr := answer, addrFinished := true);
      FirstAnswerOwned(c, answer, c1);
      StoreAnswer(d, k, c1, answer);
      SettleInv(Put(d, k, c1), k, memory);
    } else {
      var c1 := c.(srv := answer);
      FirstAnswerOwned(c, answer, c1);
      StoreAnswer(d, k, c1, answer);
      AskAddressInv(Put(d, k, c1), k, answer[0].host, memory);
    }
  }

  lemma SrvDoneInv(d: Dns, k: nat, answer: Results, memory: Memory)
    requires k < |d.queries| && Orderly(d, k) && Books(d, multiset(answer)) && AwaitsAnswer(d.queries[k], d)
    ensures Inv(SrvDone(d, k, answer, memory))
  {
    if answer == [] {
      assert multiset(answer) == multiset{};
      FinishInv(d, k, Failed(InvalidArgument));
    } else if d.queries[k].srv == [] {
      FirstAnswerInv(d, k, answer, memory);
    } else {
      FollowUpInv(d, k, answer, memory);
    }
  }

  lemma FollowUpInv(d: Dns, k: nat, answer: Results, memory: Memory)
    requires k < |d.queries| && Orderly(d, k) && Books(d, multiset(answer)) && AwaitsAnswer(d.queries[k], d)
    requires answer != [] && d.queries[k].srv != []
    ensures Inv(SrvDone(d, k, answer, memory))
  {
    var c1 := d.queries[k].(addr := answer, addrFinished := true);
    AnswerIsNew(d, k, answer);
    FollowUpOwned(d.queries[k], answer);
    StoreAnswer(d, k, c1, answer);
    SettleInv(Put(d, k, c1), k, memory);
  }

  // The context whose TXT query has just answered.
  predicate AwaitsText(c: Context, d: Dns) {
    && c.Resolve? && c.txtHandle !in d.pending && !c.txtFinished && c.txt == []
    && InStep(c, d.pending + {c.txtHandle}) && c.srvHandle != c.txtHandle
  }

  lemma TextInStep(c: Context, d: Dns, answer: Results)
    requires AwaitsText(c, d)
    ensures var c1 := c.(txt := answer, txtFinished := true);
            InStep(c1, d.pending)
  {
  }

  lemma TxtDoneInv(d: Dns, k: nat, answer: Results, memory: Memory)
    requires k < |d.queries| && Orderly(d, k) && Books(d, multiset(answer)) && AwaitsText(d.queries[k], d)
    ensures Inv(TxtDone(d, k, answer, memory))
  {
    var c1 := d.queries[k].(txt := answer, txtFinished := true);
    TxtOwned(d.queries[k], answer);
    StoreAnswer(d, k, c1, answer);
    TextInStep(d.queries[k], d, answer);
    SettleInv(Put(d, k, c1), k, memory);
  }

  // -------------------------------------------------------------------------
  // Browsing
  // -------------------------------------------------------------------------

  lemma {:induction false} ReversedKeeps(es: Results)
    ensures multiset(Reversed(es)) == multiset(es) && |Reversed(es)| == |es|
  {
    if es != [] {
      ReversedKeeps(es[1..]);
      assert es == [es[0]] + es[1..];
    }
  }

  // Splicing the delegated services in front of the query's own results loses none and duplicates
  // none, and a service is filled in for every node.
  lemma SpliceKeepsAll(result: Results, delegated: Results)
    ensures var all := Reversed(delegated) + result;
            && multiset(all) == multiset(result) + multiset(delegated)
            && |all| == |result| + |delegated| == |ServicesOf(all)|
            && forall i :: 0 <= i < |all| ==> ServicesOf(all)[i] == ServiceOf(all[i], all[i].txt)
  {
    ReversedKeeps(delegated);
  }

  lemma BrowseOwned(c: Context, results: Results)
    requires c.Browse? && c.results == []
    ensures All(Owned(c)) == multiset{} && All(Owned(c.(results := results))) == multiset(results)
  {
    assert Owned(c)[1..] == [] && Owned(c.(results := results))[1..] == [];
  }

  lemma BrowseStored(d: Dns, k: nat, results: Results)
    requires k < |d.queries| && Orderly(d, k) && Books(d, multiset(results))
    requires d.queries[k].Browse? && d.queries[k].results == []
    ensures var m := Put(d, k, d.queries[k].(results := results)); Orderly(m, k) && Books(m, multiset{})
  {
    var c1 := d.queries[k].(results := results);
    BrowseOwned(d.queries[k], results);
    PutOrderly(d, k, c1);
    PutLedger(d, k, c1, multiset(results), multiset{});
    PutIds(d.queries, k, c1);
  }

  lemma BrowseDoneInv(d: Dns, k: nat, result: Results, delegated: Results, memory: Memory)
    requires k < |d.queries| && Orderly(d, k) && Books(d, multiset(result)) && FreshNodes(d, delegated)
    requires d.queries[k].Browse? && d.queries[k].results == []
    ensures Inv(BrowseDone(d, k, result, delegated, memory))
  {
    var results := Reversed(delegated) + result;
    var d1 := Obtain(d, delegated);
    ObtainBooks(d, delegated, multiset(result));
    SpliceKeepsAll(result, delegated);
    ObtainOrderly(d, delegated, k);
    BrowseStored(d1, k, results);
    var d2 := Put(d1, k, d.queries[k].(results := results));
    FinishInv(d2, k, BrowseOutcome(results, memory));
  }

  lemma ObtainOrderly(d: Dns, es: Results, busy: int)
    requires Orderly(d, busy)
    ensures Orderly(Obtain(d, es), busy) && Obtain(d, es).queries == d.queries
  {
    assert Obtain(d, es) == d.(trace := Obtain(d, es).trace, seen := Obtain(d, es).seen);
  }

  lemma ObtainBooks(d: Dns, es: Results, flight: multiset<Entry>)
    requires Books(d, flight) && FreshNodes(d, es)
    ensures Books(Obtain(d, es), flight + multiset(es))
  {
    ObtainLedger(d, es, flight);
    if es != [] {
      QuietCalls(d, Obtain(d, es), Obtained(es));
    }
  }

  // -------------------------------------------------------------------------
  // Any input
  // -------------------------------------------------------------------------

  // Taking a query that has notified: only the context that asked it is affected.
  lemma TakeOrderly(d: Dns, h: Handle, delivery: Delivery)
    requires Orderly(d, -1) && h in d.pending
    ensures var k, m := Find(d.queries, h), Notified(d, h, delivery);
            k <= |d.queries| && Orderly(m, k)
            && (k < |d.queries| ==>
                  var c := d.queries[k];
                  if c.Browse? then c.results == []
                  else if c.srvHandle == h then AwaitsAnswer(c, m) else AwaitsText(c, m))
  {
    var k, m := Find(d.queries, h), Notified(d, h, delivery);
    FindIsFirst(d.queries, h);
    forall i | 0 <= i < |d.queries| && i != k ensures Waiting(d.queries[i], m.pending) {
      assert h !in HandlesOf(d.queries[i]) by {
        if i > k {
          assert h in HandlesOf(d.queries[k]);
        }
      }
    }
    if k < |d.queries| && d.queries[k].Resolve? && d.queries[k].srvHandle != h {
      assert m.pending + {h} == d.pending;
    }
  }

  lemma FreshAfter(d: Dns, result: Results, delegated: Results)
    requires FreshNodes(d, result + delegated)
    ensures FreshNodes(d, result) && FreshNodes(d, delegated) && FreshNodes(Obtain(d, result), delegated)
  {
    var all := result + delegated;
    assert forall i :: 0 <= i < |result| ==> all[i] == result[i];
    assert forall i :: 0 <= i < |delegated| ==> all[|result| + i] == delegated[i];
    forall x, e | x in result && e in delegated ensures x.address != e.address {
      var i :| 0 <= i < |result| && result[i] == x;
      var j :| 0 <= j < |delegated| && delegated[j] == e;
      assert all[i].address != all[|result| + j].address;
    }
  }

  lemma FreeBooks(d: Dns, es: Results)
    requires Books(d, multiset(es))
    ensures Books(Free(d, None, es), multiset{})
  {
    FreeLedger(d, None, es, multiset(es));
    if es != [] {
      QuietCalls(d, Free(d, None, es), Freed(None, es));
    }
  }

  // The lookup is gone, or never was accepted: its results are freed at once.
  lemma OrphanInv(d: Dns, result: Results)
    requires Orderly(d, -1) && Books(d, multiset{}) && FreshNodes(d, result)
    ensures Inv(Free(Obtain(d, result), None, result))
  {
    ObtainBooks(d, result, multiset{});
    assert multiset{} + multiset(result) == multiset(result);
    FreeBooks(Obtain(d, result), result);
    ObtainOrderly(d, result, -1);
    OrderlySame(d, Free(Obtain(d, result), None, result));
  }

  // Only the lists and the queries matter to the order.
  lemma OrderlySame(d: Dns, m: Dns)
    requires Orderly(d, -1) && m == d.(trace := m.trace, seen := m.seen)
    ensures Orderly(m, -1)
  {
  }

  lemma TakeBooks(d: Dns, h: Handle, delivery: Delivery)
    requires Books(d, multiset{})
    ensures Books(Notified(d, h, delivery), multiset{})
  {
    LedgerMoves(d, Notified(d, h, delivery), multiset{}, multiset{});
  }

  // A resolve takes what its query found, or else the delegated services.
  lemma TakeAnswer(d: Dns, k: nat, result: Results, delegated: Results)
    requires Orderly(d, k) && Books(d, multiset{}) && FreshNodes(d, result + delegated)
    ensures var m := if result == [] then Obtain(Obtain(d, result), delegated) else Obtain(d, result);
            && m == d.(trace := m.trace, seen := m.seen)
            && Orderly(m, k) && Books(m, multiset(Answer(result, delegated)))
  {
    var answer := Answer(result, delegated);
    FreshAfter(d, result, delegated);
    ObtainBooks(d, answer, multiset{});
    assert multiset{} + multiset(answer) == multiset(answer);
    ObtainOrderly(d, answer, k);
  }

  lemma BrowseQueryInv(d: Dns, k: nat, result: Results, delegated: Results, memory: Memory)
    requires k < |d.queries| && Orderly(d, k) && Books(d, multiset{}) && FreshNodes(d, result + delegated)
    requires d.queries[k].Browse? && d.queries[k].results == []
    ensures Inv(BrowseDone(Obtain(d, result), k, result, delegated, memory))
  {
    FreshAfter(d, result, delegated);
    ObtainBooks(d, result, multiset{});
    assert multiset{} + multiset(result) == multiset(result);
    ObtainOrderly(d, result, k);
    BrowseDoneInv(Obtain(d, result), k, result, delegated, memory);
  }

  lemma SrvQueryInv(d: Dns, k: nat, result: Results, delegated: Results, memory: Memory)
    requires k < |d.queries| && Orderly(d, k) && Books(d, multiset{}) && FreshNodes(d, result + delegated)
    requires AwaitsAnswer(d.queries[k], d)
    ensures var m := if result == [] then Obtain(Obtain(d, result), delegated) else Obtain(d, result);
            Inv(SrvDone(m, k, Answer(result, delegated), memory))
  {
    TakeAnswer(d, k, result, delegated);
    var m := if result == [] then Obtain(Obtain(d, result), delegated) else Obtain(d, result);
    SrvDoneInv(m, k, Answer(result, delegated), memory);
  }

  lemma TxtQueryInv(d: Dns, k: nat, result: Results, delegated: Results, memory: Memory)
    requires k < |d.queries| && Orderly(d, k) && Books(d, multiset{}) && FreshNodes(d, result + delegated)
    requires AwaitsText(d.queries[k], d)
    ensures var m := if result == [] then Obtain(Obtain(d, result), delegated) else Obtain(d, result);
            Inv(TxtDone(m, k, Answer(result, delegated), memory))
  {
    TakeAnswer(d, k, result, delegated);
    var m := if result == [] then Obtain(Obtain(d, result), delegated) else Obtain(d, result);
    TxtDoneInv(m, k, Answer(result, delegated), memory);
  }

  // A completion, once its query is off the list of those running.
  lemma QueryDoneInv(d: Dns, h: Handle, k: nat, result: Results, delegated: Results, memory: Memory)
    requires k == Find(d.queries, h) <= |d.queries| && Orderly(d, k) && Books(d, multiset{})
    requires FreshNodes(d, result + delegated)
    requires k < |d.queries| ==>
               if d.queries[k].Browse? then d.queries[k].results == []
               else if d.queries[k].srvHandle == h then AwaitsAnswer(d.queries[k], d) else AwaitsText(d.queries[k], d)
    ensures Inv(QueryDone(d, h, result, delegated, memory))
  {
    QueryDoneCases(d, h, result, delegated, memory);
    if k == |d.queries| {
      FreshAfter(d, result, delegated);
      OrphanInv(d, result);
    } else if d.queries[k].Browse? {
      BrowseQueryInv(d, k, result, delegated, memory);
    } else if d.queries[k].srvHandle == h {
      SrvQueryInv(d, k, result, delegated, memory);
    } else {
      TxtQueryInv(d, k, result, delegated, memory);
    }
  }

  lemma NewQueryInv(d: Dns)
    requires Inv(d)
    ensures Inv(NewQuery(d))
  {
    var m := NewQuery(d);
    LedgerMoves(d, m, multiset{}, multiset{});
    forall i | 0 <= i < |d.queries| ensures Waiting(m.queries[i], m.pending) {
      assert Numbered(d.queries[i], d);
      assert d.nextHandle !in HandlesOf(d.queries[i]);
    }
  }

  // A lookup is listed with queries nobody else has.
  lemma AcceptOrderly(d: Dns, c: Context, asked: Asked)
    requires Orderly(d, -1) && c.id == d.nextId && Waiting(c, d.pending)
    requires forall h :: h in HandlesOf(c) ==> h < d.nextHandle
    requires c.Resolve? ==> c.srvHandle != c.txtHandle
    requires forall i :: 0 <= i < |d.queries| ==> HandlesOf(d.queries[i]) !! HandlesOf(c)
    ensures Orderly(Accept(d, c, asked), -1)
  {
    var m := Accept(d, c, asked);
    assert forall i :: 0 < i < |m.queries| ==> m.queries[i] == d.queries[i - 1];
    assert forall i :: 0 <= i < |d.queries| ==> Numbered(d.queries[i], d);
    forall i, j | 0 <= i < j < |m.queries|
      ensures m.queries[i].id != m.queries[j].id && HandlesOf(m.queries[i]) !! HandlesOf(m.queries[j])
    {
      if i == 0 {
        assert HandlesOf(d.queries[j - 1]) !! HandlesOf(c);
      } else {
        assert HandlesOf(d.queries[i - 1]) !! HandlesOf(d.queries[j - 1]);
      }
    }
  }

  lemma AcceptBooks(d: Dns, c: Context, asked: Asked)
    requires Books(d, multiset{}) && c.id == d.nextId && All(Owned(c)) == multiset{}
    ensures Books(Accept(d, c, asked), multiset{})
  {
    var m := Accept(d, c, asked);
    assert m.queries[1..] == d.queries && m.queries[0] == c;
    HeldByHead(m.queries, c, multiset{});
    LedgerMoves(d, m, multiset{}, multiset{});
    assert Ids(m.queries) == Ids(d.queries) + {c.id};
  }

  // Queries just started are nobody's yet.
  lemma NobodysYet(d: Dns, m: Dns, h: Handle)
    requires Orderly(d, -1) && m.queries == d.queries && d.nextHandle <= h
    ensures forall i :: 0 <= i < |m.queries| ==> h !in HandlesOf(m.queries[i])
  {
    assert forall i :: 0 <= i < |d.queries| ==> Numbered(d.queries[i], d);
  }

  lemma BrowseStartedInv(d: Dns, queryOk: bool, contextOk: bool, listOk: bool)
    requires Inv(d)
    ensures Inv(BrowseStarted(d, queryOk, contextOk, listOk))
  {
    NewQueryInv(d);
    var c := Browse(d.nextId, d.nextHandle, []);
    NobodysYet(d, NewQuery(d), d.nextHandle);
    BrowseOwned(c, []);
    AcceptOrderly(NewQuery(d), c, ForBrowse(d.nextHandle));
    AcceptBooks(NewQuery(d), c, ForBrowse(d.nextHandle));
  }

  lemma AcceptResolveInv(d: Dns, c: Context, asked: Asked)
    requires Inv(d) && c.Resolve? && c == Resolve(d.nextId, c.srvHandle, [], [], false, c.txtHandle, [], false)
    requires c.srvHandle in d.pending && c.txtHandle in d.pending && c.srvHandle != c.txtHandle
    requires forall i :: 0 <= i < |d.queries| ==>
               c.srvHandle !in HandlesOf(d.queries[i]) && c.txtHandle !in HandlesOf(d.queries[i])
    ensures Inv(Accept(d, c, asked))
  {
    AllOwnedResolve(c);
    AcceptBooks(d, c, asked);
    AcceptOrderly(d, c, asked);
  }

  lemma ResolveStartedInv(d: Dns, d1: Dns, d2: Dns, srvOk: bool, txtOk: bool, contextOk: bool, listOk: bool)
    requires Inv(d) && d1 == NewQuery(d) && d2 == NewQuery(d1)
    ensures Inv(Next(d, StartResolve(srvOk, txtOk, contextOk, listOk)))
  {
    NewQueryInv(d);
    NewQueryInv(d1);
    NobodysYet(d, d2, d.nextHandle);
    NobodysYet(d, d2, d.nextHandle + 1);
    ResolveStartedCases(d, srvOk, txtOk, contextOk, listOk);
    var c := Resolve(d.nextId, d.nextHandle, [], [], false, d.nextHandle + 1, [], false);
    AcceptResolveInv(d2, c, ForResolve(d.nextHandle, d.nextHandle + 1, None));
  }

  lemma DoneInv(d: Dns, h: Handle, delivery: Delivery, memory: Memory)
    requires Inv(d) && h in d.pending && FreshNodes(d, delivery.found + delivery.delegated)
    ensures Inv(QueryDone(Notified(d, h, delivery), h, delivery.found, delivery.delegated, memory))
  {
    TakeOrderly(d, h, delivery);
    TakeBooks(d, h, delivery);
    QueryDoneInv(Notified(d, h, delivery), h, Find(d.queries, h), delivery.found, delivery.delegated, memory);
  }

  lemma NextInv(d: Dns, i: Input)
    requires Inv(d)
    ensures Inv(Next(d, i))
  {
    match i
    case StartBrowse(queryOk, contextOk, listOk) => BrowseStartedInv(d, queryOk, contextOk, listOk);
    case StartResolve(srvOk, txtOk, contextOk, listOk) =>
      ResolveStartedInv(d, NewQuery(d), NewQuery(NewQuery(d)), srvOk, txtOk, contextOk, listOk);
    case Done(h, result, delegated, memory) =>
      if Possible(d, i) {
        DoneInv(d, h, Delivery(result, delegated), memory);
      }
  }

  lemma {:induction false} RunInv(inputs: seq<Input>)
    ensures Inv(Run(START, inputs))
  {
    if inputs != [] {
      RunInv(inputs[..|inputs| - 1]);
      NextInv(Run(START, inputs[..|inputs| - 1]), inputs[|inputs| - 1]);
    }
  }

  // -------------------------------------------------------------------------
  // What every run promises
  // -------------------------------------------------------------------------

  // Over every interleaving of the completions of any number of lookups: an accepted lookup has been
  // called at most once, is on the list iff it has not, and has been called once it has no query left
  // to wait for. A lookup that was never accepted is never called.
  lemma CalledExactlyOnce(inputs: seq<Input>, id: Id)
    ensures var d := Run(START, inputs);
            && (id >= d.nextId ==> Calls(d.trace, id) == 0)
            && (id < d.nextId ==> Calls(d.trace, id) == if Listed(d, id) then 0 else 1)
            && (id < d.nextId && Calls(d.trace, id) == 0 ==>
                  exists c :: c in d.queries && c.id == id &&
                    if c.Browse? then c.handle in d.pending
                    else c.srvHandle in d.pending || c.txtHandle in d.pending)
  {
    RunInv(inputs);
    var d := Run(START, inputs);
    if id < d.nextId && Calls(d.trace, id) == 0 {
      var k :| 0 <= k < |d.queries| && d.queries[k].id == id;
      assert Waiting(d.queries[k], d.pending);
      assert d.queries[k] in d.queries;
    }
  }

  // The branch for a result when both the SRV and the address result are already there is unreachable:
  // a context whose current SRV or address query can still complete has no address result.
  lemma BothPresentIsUnreachable(inputs: seq<Input>, k: nat)
    ensures var d := Run(START, inputs);
            k < |d.queries| && d.queries[k].Resolve? && d.queries[k].srvHandle in d.pending ==>
              d.queries[k].addr == [] && !d.queries[k].addrFinished
  {
    RunInv(inputs);
    var d := Run(START, inputs);
    if k < |d.queries| {
      assert Waiting(d.queries[k], d.pending);
    }
  }

  // Every result node obtained is freed exactly once, or is held by exactly one lookup that has not
  // been called yet; and what a context frees it frees after its callback.
  lemma FreedExactlyOnce(inputs: seq<Input>)
    ensures var d := Run(START, inputs);
            && (forall e :: e in ObtainedIn(d.trace) ==> FreedIn(d.trace)[e] + HeldBy(d.queries)[e] == 1)
            && (forall e :: e !in ObtainedIn(d.trace) ==> FreedIn(d.trace)[e] == 0)
            && FreedAfterCall(d.trace)
            && (d.queries == [] ==> FreedIn(d.trace) == ObtainedIn(d.trace))
  {
    RunInv(inputs);
    LedgerCounts(Run(START, inputs));
  }

  // -------------------------------------------------------------------------
  // With memory to spare
  // -------------------------------------------------------------------------

  predicate Starved(a: Action) { a.Called? && a.outcome == Failed(NoMemory) }

  // The history goes on from `d` to `m` without a lookup failing for the lack of memory.
  ghost predicate Goes(d: Dns, m: Dns) {
    d.trace <= m.trace && forall j :: |d.trace| <= j < |m.trace| ==> !Starved(m.trace[j])
  }

  lemma {:induction false} FreeAllGoes(d: Dns, owner: Id, lists: seq<Results>)
    ensures Goes(d, FreeAll(d, owner, lists))
    decreases |lists|
  {
    if lists != [] {
      FreeAllGoes(Free(d, Some(owner), lists[0]), owner, lists[1..]);
    }
  }

  lemma FinishGoes(d: Dns, k: nat, outcome: Outcome)
    requires k < |d.queries| && outcome != Failed(NoMemory)
    ensures Goes(d, Finish(d, k, outcome))
  {
    var c := d.queries[k];
    FreeAllGoes(Log(d, Called(c.id, outcome)).(queries := Without(d.queries, k)), c.id, Owned(c));
  }

  predicate Plenty(memory: Memory) {
    memory.services && memory.service && memory.addresses && memory.followUp
  }

  lemma SettleGoes(d: Dns, k: nat, memory: Memory)
    requires k < |d.queries| && d.queries[k].Resolve? && Plenty(memory)
    ensures Goes(d, Settle(d, k, memory))
  {
    if d.queries[k].addrFinished && d.queries[k].txtFinished {
      FinishGoes(d, k, ResolveOutcome(d.queries[k], memory));
    }
  }

  lemma SrvDoneGoes(d: Dns, k: nat, answer: Results, memory: Memory)
    requires k < |d.queries| && d.queries[k].Resolve? && Plenty(memory)
    ensures Goes(d, SrvDone(d, k, answer, memory))
  {
    var c := d.queries[k];
    if answer == [] {
      FinishGoes(d, k, Failed(InvalidArgument));
    } else if c.srv == [] {
      if answer[0].ips != [] {
        SettleGoes(Put(d, k, c.(srv := answer, addr := answer, addrFinished := true)), k, memory);
      }
    } else if c.addr == [] {
      SettleGoes(Put(d, k, c.(addr := answer, addrFinished := true)), k, memory);
    } else {
      FinishGoes(d, k, Failed(IncorrectState));
    }
  }

  lemma GoesOn(d: Dns, m: Dns, n: Dns)
    requires Goes(d, m) && Goes(m, n)
    ensures Goes(d, n)
  {
    assert forall j :: 0 <= j < |m.trace| ==> n.trace[j] == m.trace[j];
  }

  lemma BrowseDoneGoes(d: Dns, k: nat, result: Results, delegated: Results, memory: Memory)
    requires k < |d.queries| && d.queries[k].Browse? && Plenty(memory)
    ensures Goes(d, BrowseDone(d, k, result, delegated, memory))
  {
    var results := Reversed(delegated) + result;
    var m := Put(Obtain(d, delegated), k, d.queries[k].(results := results));
    FinishGoes(m, k, BrowseOutcome(results, memory));
    GoesOn(d, m, BrowseDone(d, k, result, delegated, memory));
  }

  lemma TxtDoneGoes(d: Dns, k: nat, answer: Results, memory: Memory)
    requires k < |d.queries| && d.queries[k].Resolve? && Plenty(memory)
    ensures Goes(d, TxtDone(d, k, answer, memory))
  {
    SettleGoes(Put(d, k, d.queries[k].(txt := answer, txtFinished := true)), k, memory);
  }

  lemma QueryDoneGoes(d: Dns, h: Handle, result: Results, delegated: Results, memory: Memory)
    requires Plenty(memory)
    ensures Goes(d, QueryDone(d, h, result, delegated, memory))
  {
    var k := Find(d.queries, h);
    QueryDoneCases(d, h, result, delegated, memory);
    var d1 := Obtain(d, result);
    var d2 := if result == [] then Obtain(d1, delegated) else d1;
    if k < |d.queries| {
      if d.queries[k].Browse? {
        BrowseDoneGoes(d1, k, result, delegated, memory);
        GoesOn(d, d1, BrowseDone(d1, k, result, delegated, memory));
      } else if d.queries[k].srvHandle == h {
        SrvDoneGoes(d2, k, Answer(result, delegated), memory);
        GoesOn(d, d2, SrvDone(d2, k, Answer(result, delegated), memory));
      } else {
        TxtDoneGoes(d2, k, Answer(result, delegated), memory);
        GoesOn(d, d2, TxtDone(d2, k, Answer(result, delegated), memory));
      }
    }
  }

  // While there is memory, no lookup fails for the lack of it.
  lemma {:induction false} OnlyStarvedLookupsStarve(inputs: seq<Input>)
    requires forall i :: i in inputs && i.Done? ==> Plenty(i.memory)
    ensures forall a :: a in Run(START, inputs).trace ==> !Starved(a)
  {
    if inputs != [] {
      var init, last := inputs[..|inputs| - 1], inputs[|inputs| - 1];
      OnlyStarvedLookupsStarve(init);
      var d := Run(START, init);
      if last.Done? && Possible(d, last) {
        assert last in inputs;
        var m := Notified(d, last.h, Delivery(last.result, last.delegated));
        QueryDoneGoes(m, last.h, last.result, last.delegated, last.memory);
      }
    }
  }
}
