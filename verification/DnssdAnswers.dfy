/** Every lookup that was accepted is answered once its queries have notified. */
module DnssdAnswers {
  import opened Options
  import opened Dnssd
  import opened DnssdLedger
  import opened DnssdProofs
  import opened DnssdTruth

  // -------------------------------------------------------------------------
  // Starting
  // -------------------------------------------------------------------------

  // The start that returns no error: the query or queries and both allocations succeed.
  predicate NoError(i: Input) {
    (i.StartBrowse? && i.queryOk && i.contextOk && i.listOk) ||
    (i.StartResolve? && i.srvOk && i.txtOk && i.contextOk && i.listOk)
  }

  // A lookup is listed under a new number with new queries of its own, which are running.
  predicate ListedAnew(d: Dns, m: Dns, c: Context) {
    && c.id == d.nextId && m.nextId == d.nextId + 1 && m.queries == [c] + d.queries
    && (c.Browse? ==> c.results == [] && c.handle in m.pending && c.handle >= d.nextHandle)
    && (c.Resolve? ==>
          && c.srv == [] == c.addr && c.txt == [] && !c.addrFinished && !c.txtFinished
          && c.srvHandle in m.pending && c.txtHandle in m.pending && c.srvHandle != c.txtHandle
          && c.srvHandle >= d.nextHandle && c.txtHandle >= d.nextHandle)
  }

  // A start without error lists a new lookup, one of the kind asked for; one with an error lists none.
  lemma StartIsListed(d: Dns, i: Input)
    requires !i.Done?
    ensures var m := Next(d, i);
            if NoError(i) then
              && m.queries != [] && ListedAnew(d, m, m.queries[0])
              && (m.queries[0].Browse? <==> i.StartBrowse?)
              && AsOnRecord(m, m.queries[0])
            else m.queries == d.queries && m.nextId == d.nextId && m.asked == d.asked
  {
  }

  // The queries on record for a lookup are those of its context.
  predicate AsOnRecord(d: Dns, c: Context) {
    c.id in d.asked &&
    d.asked[c.id] == if c.Browse? then ForBrowse(c.handle) else ForResolve(c.srvHandle, c.txtHandle, None)
  }

  // -------------------------------------------------------------------------
  // Every run
  // -------------------------------------------------------------------------

  lemma AskedKeptOn(a: Dns, b: Dns, c: Dns)
    requires AskedKept(a, b) && AskedKept(b, c)
    ensures AskedKept(a, c)
  {
  }

  lemma StepKeepsAsked(inputs: seq<Input>, i: Input)
    ensures AskedKept(Run(START, inputs), Run(START, inputs + [i]))
  {
    RecordsStay(inputs, i);
  }

  lemma {:induction false} RunKeepsAsked(inputs: seq<Input>, k: nat)
    requires k <= |inputs|
    ensures AskedKept(Run(START, inputs[..k]), Run(START, inputs))
  {
    if k == |inputs| {
      assert inputs[..k] == inputs;
    } else {
      var init, last := inputs[..|inputs| - 1], inputs[|inputs| - 1];
      assert init[..k] == inputs[..k] && inputs == init + [last];
      RunKeepsAsked(init, k);
      StepKeepsAsked(init, last);
      AskedKeptOn(Run(START, inputs[..k]), Run(START, init), Run(START, inputs));
    }
  }

  // The queries that a lookup still waits for.
  function Outstanding(asked: Asked, pending: set<Handle>): set<Handle> {
    var mine :=
      if asked.ForBrowse? then {asked.handle}
      else {asked.srv, asked.txt} + (if asked.addr.Some? then {asked.addr.value.handle} else {});
    mine * pending
  }

  // A lookup on record that has no query outstanding has been called exactly once.
  lemma SettledIsCalled(inputs: seq<Input>, id: Id)
    ensures var d := Run(START, inputs);
            id in d.asked && Outstanding(d.asked[id], d.pending) == {} ==> Calls(d.trace, id) == 1
  {
    var d := Run(START, inputs);
    RunInv(inputs);
    RunTold(inputs);
    if id in d.asked && Listed(d, id) {
      var k :| 0 <= k < |d.queries| && d.queries[k].id == id;
      var c := d.queries[k];
      assert Waiting(c, d.pending) && OnRecord(c, d.asked, d.delivered);
      if c.Browse? {
        assert c.handle in Outstanding(d.asked[id], d.pending);
      } else if !c.addrFinished {
        assert c.srvHandle in Outstanding(d.asked[id], d.pending);
      } else {
        assert c.txtHandle in Outstanding(d.asked[id], d.pending);
      }
    }
  }

  // What a lookup has been told.
  lemma CalledWith(inputs: seq<Input>, id: Id) returns (outcome: Outcome)
    requires Calls(Run(START, inputs).trace, id) == 1
    ensures var d := Run(START, inputs);
            Called(id, outcome) in d.trace && id in d.asked && TruthfulOutcome(outcome, d.asked[id], d.delivered)
  {
    var d := Run(START, inputs);
    CalledSomewhere(d.trace, id);
    var j :| 0 <= j < |d.trace| && d.trace[j].Called? && d.trace[j].id == id;
    outcome := d.trace[j].outcome;
    assert d.trace[j] == Called(id, outcome);
    EveryCallIsTruthful(inputs, id, outcome);
  }

  ghost predicate PlentyAlways(inputs: seq<Input>) {
    forall i :: i in inputs && i.Done? ==> Plenty(i.memory)
  }

  // A browse that was started without error is answered once its query has notified: it has been called
  // exactly once, and with the services that the query delivered if memory lasted.
  lemma EveryBrowseIsAnswered(inputs: seq<Input>, k: nat) returns (outcome: Outcome)
    requires k < |inputs| && inputs[k].StartBrowse? && NoError(inputs[k])
    requires Run(START, inputs[..k]).nextHandle !in Run(START, inputs).pending
    ensures var d, id, h := Run(START, inputs), Run(START, inputs[..k]).nextId, Run(START, inputs[..k]).nextHandle;
            && Calls(d.trace, id) == 1 && Called(id, outcome) in d.trace
            && (PlentyAlways(inputs) ==>
                  outcome.Services? && h in d.delivered && Lists(d.delivered[h], outcome.services))
  {
    var d0, d := Run(START, inputs[..k]), Run(START, inputs);
    StartedOnRecord(inputs, k);
    SettledIsCalled(inputs, d0.nextId);
    outcome := CalledWith(inputs, d0.nextId);
    if PlentyAlways(inputs) {
      OnlyStarvedLookupsStarve(inputs);
      assert !Starved(Called(d0.nextId, outcome));
    }
  }

  // The queries of a lookup that was started without error stay on record.
  lemma StartedOnRecord(inputs: seq<Input>, k: nat)
    requires k < |inputs| && NoError(inputs[k])
    ensures var d0, d := Run(START, inputs[..k]), Run(START, inputs);
            && d0.nextId in d.asked
            && (inputs[k].StartBrowse? ==> d.asked[d0.nextId] == ForBrowse(d0.nextHandle))
            && (inputs[k].StartResolve? ==>
                  && d.asked[d0.nextId].ForResolve?
                  && d.asked[d0.nextId].srv == d0.nextHandle && d.asked[d0.nextId].txt == d0.nextHandle + 1)
  {
    var d0, d1, d := Run(START, inputs[..k]), Run(START, inputs[..k + 1]), Run(START, inputs);
    assert inputs[..k + 1][..k] == inputs[..k];
    assert d1 == Next(d0, inputs[k]);
    RunKeepsAsked(inputs, k + 1);
    if inputs[k].StartResolve? {
      ResolveStartedCases(d0, true, true, true, true);
      assert d1.asked[d0.nextId] == ForResolve(d0.nextHandle, d0.nextHandle + 1, None);
    } else {
      assert d1.asked[d0.nextId] == ForBrowse(d0.nextHandle);
    }
  }

  // A resolve that was started without error is answered once its queries have notified, the address query
  // included if there was one: called exactly once, and if memory lasted either with what they delivered or,
  // if they delivered no address, with an error.
  lemma EveryResolveIsAnswered(inputs: seq<Input>, k: nat) returns (outcome: Outcome)
    requires k < |inputs| && inputs[k].StartResolve? && NoError(inputs[k])
    requires var d0, d := Run(START, inputs[..k]), Run(START, inputs);
             d0.nextId in d.asked && Outstanding(d.asked[d0.nextId], d.pending) == {}
    ensures var d, id, h := Run(START, inputs), Run(START, inputs[..k]).nextId, Run(START, inputs[..k]).nextHandle;
            && Calls(d.trace, id) == 1 && Called(id, outcome) in d.trace
            && d.asked[id].ForResolve? && d.asked[id].srv == h && d.asked[id].txt == h + 1
            && (PlentyAlways(inputs) ==>
                  if outcome.Resolved? then Reports(d.asked[id], d.delivered, outcome.service, outcome.ips)
                  else outcome == Failed(InvalidArgument) && NoAddress(d.asked[id], d.delivered))
  {
    var d0, d := Run(START, inputs[..k]), Run(START, inputs);
    StartedOnRecord(inputs, k);
    SettledIsCalled(inputs, d0.nextId);
    outcome := CalledWith(inputs, d0.nextId);
    if PlentyAlways(inputs) {
      OnlyStarvedLookupsStarve(inputs);
      assert !Starved(Called(d0.nextId, outcome));
    }
  }
}
