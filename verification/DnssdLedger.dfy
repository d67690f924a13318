/** Accounting for result lists and callbacks: what each piece of a step of Dnssd.dfy does to them. */
module DnssdLedger {
  import opened Options
  import opened Dnssd

  // -------------------------------------------------------------------------
  // One more action
  // -------------------------------------------------------------------------

  lemma LogReads(trace: seq<Action>, a: Action)
    ensures ObtainedIn(trace + [a]) == ObtainedIn(trace) + (if a.Obtained? then multiset(a.entries) else multiset{})
    ensures FreedIn(trace + [a]) == FreedIn(trace) + (if a.Freed? then multiset(a.entries) else multiset{})
    ensures forall id :: Calls(trace + [a], id) == Calls(trace, id) + (if a.Called? && a.id == id then 1 else 0)
  {
    assert (trace + [a])[..|trace|] == trace;
  }

  lemma {:induction false} CalledSomewhere(trace: seq<Action>, id: Id)
    requires Calls(trace, id) > 0
    ensures exists i :: 0 <= i < |trace| && trace[i].Called? && trace[i].id == id
  {
    var last := trace[|trace| - 1];
    if !(last.Called? && last.id == id) {
      CalledSomewhere(trace[..|trace| - 1], id);
    }
  }

  lemma FreedAfterCallSnoc(trace: seq<Action>, a: Action)
    requires FreedAfterCall(trace)
    requires a.Freed? && a.owner.Some? ==> Calls(trace, a.owner.value) > 0
    ensures FreedAfterCall(trace + [a])
  {
    var all := trace + [a];
    forall j | 0 <= j < |all| && all[j].Freed? && all[j].owner.Some?
      ensures exists i :: 0 <= i < j && all[i].Called? && all[i].id == all[j].owner.value
    {
      if j == |trace| {
        CalledSomewhere(trace, a.owner.value);
        var i :| 0 <= i < |trace| && trace[i].Called? && trace[i].id == a.owner.value;
        assert all[i] == trace[i];
      } else {
        var i :| 0 <= i < j && trace[i].Called? && trace[i].id == trace[j].owner.value;
        assert all[i] == trace[i];
      }
    }
  }

  // -------------------------------------------------------------------------
  // What the contexts hold
  // -------------------------------------------------------------------------

  lemma Associate<T>(a: multiset<T>, b: multiset<T>, c: multiset<T>)
    ensures a + (b + c) == (a + b) + c
  {
  }

  // HeldBy, one context at a time.
  lemma HeldByHead(queries: seq<Context>, c: Context, held: multiset<Entry>)
    requires queries != [] && queries[0] == c && held == All(Owned(c))
    ensures HeldBy(queries) == held + HeldBy(queries[1..])
  {
  }

  lemma WithoutTail(queries: seq<Context>, k: nat)
    requires 0 < k < |queries|
    ensures Without(queries, k) != [] && Without(queries, k)[0] == queries[0]
    ensures Without(queries, k)[1..] == Without(queries[1..], k - 1)
  {
  }

  lemma HeldByWithout(queries: seq<Context>, k: nat, was: multiset<Entry>)
    requires k < |queries| && was == All(Owned(queries[k]))
    ensures HeldBy(queries) == HeldBy(Without(queries, k)) + was
    decreases k
  {
    var rest := Without(queries, k);
    if k == 0 {
      assert rest == queries[1..];
      HeldByHead(queries, queries[0], was);
    } else {
      var first := All(Owned(queries[0]));
      HeldByHead(queries, queries[0], first);
      HeldByWithout(queries[1..], k - 1, was);
      WithoutTail(queries, k);
      HeldByHead(rest, queries[0], first);
      Associate(first, HeldBy(rest[1..]), was);
    }
  }

  lemma Swap<T>(rest: multiset<T>, was: multiset<T>, now: multiset<T>)
    ensures (rest + now) + was == (rest + was) + now
  {
  }

  lemma HeldByPut(queries: seq<Context>, k: nat, c: Context, was: multiset<Entry>, now: multiset<Entry>)
    requires k < |queries| && was == All(Owned(queries[k])) && now == All(Owned(c))
    ensures HeldBy(queries[k := c]) + was == HeldBy(queries) + now
  {
    var m := queries[k := c];
    HeldByWithout(queries, k, was);
    HeldByWithout(m, k, now);
    assert Without(m, k) == Without(queries, k);
    Swap(HeldBy(Without(queries, k)), was, now);
  }

  lemma {:induction false} HeldByHas(queries: seq<Context>, k: nat)
    requires k < |queries|
    ensures All(Owned(queries[k])) <= HeldBy(queries)
  {
    if k > 0 {
      HeldByHas(queries[1..], k - 1);
    }
  }

  // -------------------------------------------------------------------------
  // The ledger
  // -------------------------------------------------------------------------

  ghost predicate NodesDistinct(entries: multiset<Entry>, seen: set<Address>) {
    && (forall e :: e in entries ==> entries[e] == 1 && e.address in seen)
    && (forall e, f :: e in entries && f in entries && e.address == f.address ==> e == f)
  }

  // Every node obtained has been freed once, is held by a context, or is in flight.
  ghost predicate Ledger(d: Dns, flight: multiset<Entry>) {
    && ObtainedIn(d.trace) == FreedIn(d.trace) + HeldBy(d.queries) + flight
    && NodesDistinct(ObtainedIn(d.trace), d.seen)
    && FreedAfterCall(d.trace)
  }

  lemma LogQuietly(d: Dns, a: Action, flight: multiset<Entry>)
    requires Ledger(d, flight) && !a.Obtained? && !a.Freed?
    ensures Ledger(Log(d, a), flight)
  {
    LogReads(d.trace, a);
    FreedAfterCallSnoc(d.trace, a);
  }

  lemma {:induction false} FreshMultiset(es: Results)
    requires forall i, j :: 0 <= i < j < |es| ==> es[i].address != es[j].address
    ensures forall e :: e in es ==> multiset(es)[e] == 1
  {
    if es != [] {
      FreshMultiset(es[1..]);
      assert es == [es[0]] + es[1..];
      assert es[0] !in es[1..];
    }
  }

  // Fresh nodes, each once, keep every address on one node.
  lemma NodesGrow(was: multiset<Entry>, seen: set<Address>, es: Results)
    requires NodesDistinct(was, seen)
    requires forall e :: e in es ==> e.address !in seen
    requires forall i, j :: 0 <= i < j < |es| ==> es[i].address != es[j].address
    ensures NodesDistinct(was + multiset(es), seen + Addresses(es))
  {
    FreshMultiset(es);
    assert forall e :: e in es ==> e !in was;
    forall e, f | e in es && f in es && e.address == f.address ensures e == f {
      var i :| 0 <= i < |es| && es[i] == e;
      var j :| 0 <= j < |es| && es[j] == f;
    }
  }

  lemma ObtainLedger(d: Dns, es: Results, flight: multiset<Entry>)
    requires Ledger(d, flight) && FreshNodes(d, es)
    ensures Ledger(Obtain(d, es), flight + multiset(es))
  {
    if es == [] {
      assert flight + multiset(es) == flight;
    } else {
      LogReads(d.trace, Obtained(es));
      FreedAfterCallSnoc(d.trace, Obtained(es));
      NodesGrow(ObtainedIn(d.trace), d.seen, es);
      Associate(FreedIn(d.trace) + HeldBy(d.queries), flight, multiset(es));
    }
  }

  lemma FreeLedger(d: Dns, owner: Option<Id>, es: Results, flight: multiset<Entry>)
    requires Ledger(d, flight) && multiset(es) <= flight
    requires owner.Some? ==> Calls(d.trace, owner.value) > 0
    ensures Ledger(Free(d, owner, es), flight - multiset(es))
    ensures forall id :: Calls(Free(d, owner, es).trace, id) == Calls(d.trace, id)
  {
    if es != [] {
      LogReads(d.trace, Freed(owner, es));
      FreedAfterCallSnoc(d.trace, Freed(owner, es));
    }
  }

  lemma {:induction false} FreeAllLedger(d: Dns, owner: Id, lists: seq<Results>, flight: multiset<Entry>)
    requires Ledger(d, flight + All(lists))
    requires Calls(d.trace, owner) > 0
    ensures Ledger(FreeAll(d, owner, lists), flight)
    ensures FreeAll(d, owner, lists) == d.(trace := FreeAll(d, owner, lists).trace)
    ensures forall id :: Calls(FreeAll(d, owner, lists).trace, id) == Calls(d.trace, id)
    decreases |lists|
  {
    if lists == [] {
      assert flight + All(lists) == flight;
    } else {
      FreeLedger(d, Some(owner), lists[0], flight + All(lists));
      assert flight + All(lists) - multiset(lists[0]) == flight + All(lists[1..]);
      FreeAllLedger(Free(d, Some(owner), lists[0]), owner, lists[1..], flight);
    }
  }

  lemma Exchange<T>(was: multiset<T>, now: multiset<T>, gone: multiset<T>, come: multiset<T>,
                    before: multiset<T>, after: multiset<T>)
    requires now + gone == was + come
    requires before + gone == after + come
    ensures was + before == now + after
  {
    forall e ensures (was + before)[e] == (now + after)[e] {
      assert (now + gone)[e] == (was + come)[e];
      assert (before + gone)[e] == (after + come)[e];
    }
  }

  lemma LedgerMoves(d: Dns, m: Dns, before: multiset<Entry>, after: multiset<Entry>)
    requires Ledger(d, before) && m.trace == d.trace && m.seen == d.seen
    requires HeldBy(d.queries) + before == HeldBy(m.queries) + after
    ensures Ledger(m, after)
  {
    var freed := FreedIn(d.trace);
    assert freed + HeldBy(d.queries) + before == freed + (HeldBy(d.queries) + before);
    assert freed + HeldBy(m.queries) + after == freed + (HeldBy(m.queries) + after);
  }

  lemma PutLedger(d: Dns, k: nat, c: Context, before: multiset<Entry>, after: multiset<Entry>)
    requires k < |d.queries| && Ledger(d, before)
    requires before + All(Owned(d.queries[k])) == after + All(Owned(c))
    ensures Ledger(Put(d, k, c), after)
  {
    var was, now := All(Owned(d.queries[k])), All(Owned(c));
    HeldByPut(d.queries, k, c, was, now);
    Exchange(HeldBy(d.queries), HeldBy(d.queries[k := c]), was, now, before, after);
    LedgerMoves(d, Put(d, k, c), before, after);
  }

  // Calling back and destroying a context: one more call, and its lists are freed after it.
  lemma FinishLedger(d: Dns, k: nat, outcome: Outcome, flight: multiset<Entry>)
    requires k < |d.queries| && Ledger(d, flight)
    ensures var m := Finish(d, k, outcome);
            && Ledger(m, flight)
            && m == d.(queries := Without(d.queries, k), trace := m.trace)
            && forall id :: Calls(m.trace, id) == Calls(d.trace, id) + (if id == d.queries[k].id then 1 else 0)
  {
    var c := d.queries[k];
    var owned := Owned(c);
    var a := Called(c.id, outcome);
    LogQuietly(d, a, flight);
    LogReads(d.trace, a);
    HeldByWithout(d.queries, k, All(owned));
    var called := Log(d, a);
    var d1 := called.(queries := Without(d.queries, k));
    assert (HeldBy(d1.queries) + All(owned)) + flight == HeldBy(d1.queries) + (flight + All(owned));
    LedgerMoves(called, d1, flight, flight + All(owned));
    FreeAllLedger(d1, c.id, owned, flight);
  }

  // Everything freed was obtained, no node is freed twice, and what is not freed is held.
  lemma LedgerCounts(d: Dns)
    requires Ledger(d, multiset{})
    ensures forall e :: e in ObtainedIn(d.trace) ==> FreedIn(d.trace)[e] + HeldBy(d.queries)[e] == 1
    ensures forall e :: e !in ObtainedIn(d.trace) ==> FreedIn(d.trace)[e] == 0 && HeldBy(d.queries)[e] == 0
  {
    var obtained := ObtainedIn(d.trace);
    forall e ensures obtained[e] == FreedIn(d.trace)[e] + HeldBy(d.queries)[e] {
      assert obtained == FreedIn(d.trace) + HeldBy(d.queries) + multiset{};
    }
  }
}
