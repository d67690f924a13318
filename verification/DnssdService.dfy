/**
  The lookups of ESP32DnssdImpl.cpp as objects: the query list is spliced in place and a context's
  results and flags are set step by step. Each method is the step of Dnssd.dfy of the same purpose.
  */
module DnssdService {
  import opened Options
  import opened Dnssd

  // A browse uses the first handle and result list only.
  class LookupContext {
    const id: Id
    const browsing: bool
    var queryHandle: Handle
    var queryResult: Results
    var addrResult: Results
    var addrFinished: bool
    const txtHandle: Handle
    var txtResult: Results
    var txtFinished: bool

    constructor (id: Id, browsing: bool, queryHandle: Handle, txtHandle: Handle)
      ensures View() == if browsing then Browse(id, queryHandle, [])
                        else Resolve(id, queryHandle, [], [], false, txtHandle, [], false)
    {
      this.id, this.browsing, this.queryHandle, this.txtHandle := id, browsing, queryHandle, txtHandle;
      queryResult, addrResult, txtResult := [], [], [];
      addrFinished, txtFinished := false, false;
    }

    function View(): Context
      reads this
    {
      if browsing then Browse(id, queryHandle, queryResult)
      else Resolve(id, queryHandle, queryResult, addrResult, addrFinished, txtHandle, txtResult, txtFinished)
    }
  }

  class MdnsQuery {
    const ctx: LookupContext
    var next: MdnsQuery?

    constructor (ctx: LookupContext, next: MdnsQuery?)
      ensures this.ctx == ctx && this.next == next
    {
      this.ctx, this.next := ctx, next;
    }
  }

  // -------------------------------------------------------------------------
  // The list as a sequence
  // -------------------------------------------------------------------------

  ghost function At(nodes: seq<MdnsQuery>, i: nat): MdnsQuery? {
    if i < |nodes| then nodes[i] else null
  }

  ghost predicate Chain(head: MdnsQuery?, nodes: seq<MdnsQuery>)
    reads nodes
  {
    && head == At(nodes, 0)
    && (forall i :: 0 <= i < |nodes| ==> nodes[i].next == At(nodes, i + 1))
  }

  ghost predicate Distinct(contexts: seq<LookupContext>) {
    forall i, j :: 0 <= i < j < |contexts| ==> contexts[i] != contexts[j]
  }

  ghost function Views(contexts: seq<LookupContext>): (views: seq<Context>)
    reads contexts
    ensures |views| == |contexts|
    ensures forall i :: 0 <= i < |contexts| ==> views[i] == contexts[i].View()
  {
    seq(|contexts|, i requires 0 <= i < |contexts| reads contexts => contexts[i].View())
  }

  lemma WithoutAt<T>(all: seq<T>, k: nat)
    requires k < |all|
    ensures |Without(all, k)| == |all| - 1
    ensures forall i :: 0 <= i < |all| - 1 ==> Without(all, k)[i] == all[if i < k then i else i + 1]
  {
  }

  lemma WithoutViews(contexts: seq<LookupContext>, k: nat)
    requires k < |contexts|
    ensures Views(Without(contexts, k)) == Without(Views(contexts), k)
  {
    WithoutAt(contexts, k);
  }

  lemma WithoutDistinct(contexts: seq<LookupContext>, k: nat)
    requires k < |contexts| && Distinct(contexts)
    ensures Distinct(Without(contexts, k))
  {
    WithoutAt(contexts, k);
  }

  // One context has been written to.
  lemma ViewsPut(was: seq<Context>, contexts: seq<LookupContext>, k: nat)
    requires k < |contexts| == |was|
    requires forall i :: 0 <= i < |contexts| && i != k ==> contexts[i].View() == was[i]
    ensures Views(contexts) == was[k := contexts[k].View()]
  {
  }

  lemma ViewsCons(ctx: LookupContext, contexts: seq<LookupContext>)
    ensures Views([ctx] + contexts) == [ctx.View()] + Views(contexts)
  {
  }

  twostate lemma ViewsKept(contexts: seq<LookupContext>)
    requires forall i :: 0 <= i < |contexts| ==> unchanged(contexts[i])
    ensures Views(contexts) == old(Views(contexts))
  {
  }

  // Ending a lookup, with the list kept apart.
  lemma FinishParts(d: Dns, queries: seq<Context>, k: nat, outcome: Outcome)
    requires k < |queries|
    ensures var c := queries[k];
            Finish(d.(queries := queries), k, outcome) ==
            FreeAll(Log(d, Called(c.id, outcome)), c.id, Owned(c)).(queries := Without(queries, k))
  {
    var c := queries[k];
    FreeAllCommutes(Log(d, Called(c.id, outcome)), Without(queries, k), c.id, Owned(c));
  }

  lemma FindSkips(queries: seq<Context>, h: Handle, k: nat)
    requires k <= |queries| && forall i :: 0 <= i < k ==> !Owns(queries[i], h)
    ensures k == |queries| || Owns(queries[k], h) ==> Find(queries, h) == k
  {
    FindIsFirst(queries, h);
    if k == |queries| || Owns(queries[k], h) {
      assert Find(queries, h) >= k;
      assert Find(queries, h) <= k;
    }
  }

  lemma FreeThree(d: Dns, owner: Id, a: Results, b: Results, c: Results)
    ensures FreeAll(d, owner, [a, b, c]) == Free(Free(Free(d, Some(owner), a), Some(owner), b), Some(owner), c)
  {
    assert [a, b, c][1..] == [b, c] && [b, c][1..] == [c] && [c][1..] == [];
    var d2 := Free(Free(d, Some(owner), a), Some(owner), b);
    assert FreeAll(d2, owner, [c]) == Free(d2, Some(owner), c);
  }

  lemma FreeOne(d: Dns, owner: Id, a: Results)
    ensures FreeAll(d, owner, [a]) == Free(d, Some(owner), a)
  {
    assert [a][1..] == [];
  }

  lemma FreeAllCommutes(d: Dns, q: seq<Context>, owner: Id, lists: seq<Results>)
    ensures FreeAll(d.(queries := q), owner, lists) == FreeAll(d, owner, lists).(queries := q)
    decreases |lists|
  {
    if lists != [] {
      assert Free(d.(queries := q), Some(owner), lists[0]) == Free(d, Some(owner), lists[0]).(queries := q);
      FreeAllCommutes(Free(d, Some(owner), lists[0]), q, owner, lists[1..]);
    }
  }

  // -------------------------------------------------------------------------
  // Results
  // -------------------------------------------------------------------------

  method GetResultSize(results: Results) returns (size: nat)
    ensures size == |results|
  {
    size := 0;
    var result := results;
    while result != []
      invariant size + |result| == |results|
      decreases |result|
    {
      size, result := size + 1, result[1..];
    }
  }

  lemma {:induction false} ReversedSnoc(es: Results, e: Entry)
    ensures Reversed(es + [e]) == [e] + Reversed(es)
  {
    if es == [] {
      assert Reversed([e]) == Reversed([]) + [e];
    } else {
      assert (es + [e])[1..] == es[1..] + [e];
      ReversedSnoc(es[1..], e);
      assert Reversed(es + [e]) == [e] + Reversed(es[1..]) + [es[0]];
    }
  }

  // Moves the delegated services, one at a time, to the front of a browse's results.
  method Splice(result: Results, delegated: Results) returns (all: Results, size: nat)
    ensures all == Reversed(delegated) + result && size == |all|
  {
    all := result;
    size := GetResultSize(result);
    var rest := delegated;
    ghost var moved := [];
    while rest != []
      invariant moved + rest == delegated && all == Reversed(moved) + result && size == |all|
      decreases |rest|
    {
      ReversedSnoc(moved, rest[0]);
      moved := moved + [rest[0]];
      all, rest := [rest[0]] + all, rest[1..];
      size := size + 1;
    }
    assert moved == delegated;
  }

  // Fills one service for every node.
  method FillServices(results: Results, size: nat, memory: Memory) returns (outcome: Outcome)
    requires size == |results|
    ensures outcome == BrowseOutcome(results, memory)
  {
    if results == [] {
      return Services([]);
    }
    if !memory.services {
      return Failed(NoMemory);
    }
    var services := new Service[size](_ => Service("", "", 0, []));
    var current, index := results, 0;
    while current != []
      invariant index <= size && current == results[index..]
      invariant forall i :: 0 <= i < index ==> services[i] == ServiceOf(results[i], results[i].txt)
      decreases |current|
    {
      services[index] := ServiceOf(current[0], current[0].txt);
      current, index := current[1..], index + 1;
    }
    assert services[..] == ServicesOf(results);
    return Services(services[..]);
  }

  method ParseSrvResult(srv: Results, memory: Memory) returns (error: Option<Error>, service: Service)
    ensures error == if srv == [] then Some(InvalidArgument) else if !memory.service then Some(NoMemory) else None
    ensures error.None? ==> service == ServiceOf(srv[0], [])
  {
    service := Service("", "", 0, []);
    if srv == [] {
      return Some(InvalidArgument), service;
    }
    if !memory.service {
      return Some(NoMemory), service;
    }
    service := service.(instance := srv[0].instance, host := srv[0].host);
    service := service.(port := srv[0].port);
    return None, service;
  }

  method ParseIPAddresses(addr: Results, memory: Memory) returns (error: Option<Error>, ips: seq<Ip>)
    ensures error == if addr == [] || addr[0].ips == [] then Some(InvalidArgument)
                     else if !memory.addresses then Some(NoMemory) else None
    ensures error.None? ==> ips == addr[0].ips
  {
    if addr == [] || addr[0].ips == [] {
      return Some(InvalidArgument), [];
    }
    if !memory.addresses {
      return Some(NoMemory), [];
    }
    var addresses := new Ip[|addr[0].ips|];
    var rest, index := addr[0].ips, 0;
    while rest != []
      invariant index <= addresses.Length && rest == addr[0].ips[index..]
      invariant addresses[..index] == addr[0].ips[..index]
      decreases |rest|
    {
      addresses[index] := rest[0];
      rest, index := rest[1..], index + 1;
    }
    return None, addresses[..];
  }

  method ParseTxtResult(service: Service, txt: Results) returns (parsed: Service)
    ensures parsed == service.(txt := if txt == [] then [] else txt[0].txt)
  {
    if txt != [] {
      return service.(txt := txt[0].txt);
    }
    return service.(txt := []);
  }

  class EspDnssd {
    var queryList: MdnsQuery?
    ghost var nodes: seq<MdnsQuery>
    ghost var contexts: seq<LookupContext>

    // What is outside the list: the queries running, the nodes given out and the history.
    ghost var world: Dns

    ghost predicate Valid()
      reads this, nodes
    {
      && Chain(queryList, nodes)
      && |nodes| == |contexts| && (forall i :: 0 <= i < |nodes| ==> nodes[i].ctx == contexts[i])
      && Distinct(contexts)
    }

    ghost function View(): Dns
      reads this, contexts
    {
      world.(queries := Views(contexts))
    }

    constructor ()
      ensures Valid() && View() == START
    {
      queryList, nodes, contexts, world := null, [], [], START;
    }

    method AddQueryList(ctx: LookupContext, listOk: bool) returns (ok: bool)
      requires Valid() && ctx !in contexts
      modifies this`queryList, this`nodes, this`contexts
      ensures Valid() && ok == listOk
      ensures contexts == if ok then [ctx] + old(contexts) else old(contexts)
      ensures forall n :: n in nodes ==> n in old(nodes) || fresh(n)
    {
      if !listOk {
        return false;
      }
      var ret := new MdnsQuery(ctx, queryList);
      queryList := ret;
      nodes := [ret] + nodes;
      contexts := [ctx] + contexts;
      return true;
    }

    method FindMdnsQuery(h: Handle) returns (ctx: LookupContext?)
      requires Valid()
      ensures var k := Find(Views(contexts), h);
              if k < |contexts| then ctx == contexts[k] else ctx == null && k == |contexts|
    {
      var current := queryList;
      ghost var k := 0;
      while current != null
        invariant k <= |nodes| && current == At(nodes, k)
        invariant forall i :: 0 <= i < k ==> !Owns(Views(contexts)[i], h)
        decreases |nodes| - k
      {
        FindSkips(Views(contexts), h, k);
        if current.ctx.browsing {
          if current.ctx.queryHandle == h {
            return current.ctx;
          }
        } else if current.ctx.queryHandle == h || current.ctx.txtHandle == h {
          return current.ctx;
        }
        current, k := current.next, k + 1;
      }
      FindSkips(Views(contexts), h, k);
      return null;
    }

    // The destructor of a context frees the results it owns.
    method Delete(ctx: LookupContext)
      modifies this`world
      ensures world == FreeAll(old(world), ctx.id, Owned(ctx.View()))
    {
      ghost var owner := Some(ctx.id);
      if ctx.browsing {
        FreeOne(world, ctx.id, ctx.queryResult);
      } else {
        FreeThree(world, ctx.id, ctx.queryResult,
          if SameList(ctx.addrResult, ctx.queryResult) then [] else ctx.addrResult, ctx.txtResult);
      }
      if ctx.queryResult != [] {
        world := Free(world, owner, ctx.queryResult);
      }
      if !ctx.browsing {
        if ctx.addrResult != [] && !SameList(ctx.addrResult, ctx.queryResult) {
          world := Free(world, owner, ctx.addrResult);
        }
        if ctx.txtResult != [] {
          world := Free(world, owner, ctx.txtResult);
        }
      }
    }

    // Takes the node of a context out of the list.
    method Unlink(ctx: LookupContext, ghost k: nat)
      requires Valid() && k < |nodes| && contexts[k] == ctx
      modifies this`queryList, this`nodes, this`contexts, nodes`next
      ensures Valid() && nodes == Without(old(nodes), k) && contexts == Without(old(contexts), k)
    {
      var current, front: MdnsQuery? := queryList, null;
      ghost var i := 0;
      while current.ctx != ctx
        invariant i <= k && current == nodes[i] && front == if i == 0 then null else nodes[i - 1]
        decreases k - i
      {
        front, current, i := current, current.next, i + 1;
      }
      assert i == k;
      if front != null {
        front.next := current.next;
      } else {
        queryList := current.next;
      }
      nodes, contexts := Without(nodes, k), Without(contexts, k);
      WithoutAt(old(nodes), k);
      WithoutAt(old(contexts), k);
      WithoutDistinct(old(contexts), k);
    }

    method RemoveMdnsQuery(ctx: LookupContext, ghost k: nat)
      requires Valid() && k < |nodes| && contexts[k] == ctx
      modifies this, nodes`next
      ensures Valid() && nodes == Without(old(nodes), k) && contexts == Without(old(contexts), k)
      ensures world == FreeAll(old(world), ctx.id, Owned(ctx.View()))
    {
      Unlink(ctx, k);
      Delete(ctx);
    }

    // Tells the lookup its outcome and ends it.
    method Conclude(ctx: LookupContext, ghost k: nat, outcome: Outcome)
      requires Valid() && k < |nodes| && contexts[k] == ctx
      modifies this, nodes`next
      ensures Valid() && View() == Finish(old(View()), k, outcome)
    {
      FinishParts(world, Views(contexts), k, outcome);
      world := Log(world, Called(ctx.id, outcome));
      RemoveMdnsQuery(ctx, k);
      ViewsKept(old(contexts));
      WithoutViews(old(contexts), k);
    }

    method SetResults(ctx: LookupContext, ghost k: nat, results: Results)
      requires Valid() && k < |nodes| && contexts[k] == ctx && ctx.browsing
      modifies ctx`queryResult
      ensures Valid() && ctx.queryResult == results
      ensures View() == Put(old(View()), k, old(View()).queries[k].(results := results))
    {
      ghost var was := Views(contexts);
      ctx.queryResult := results;
      ViewsPut(was, contexts, k);
    }

    method AddDelegated(ctx: LookupContext, ghost k: nat, delegated: Results) returns (size: nat)
      requires Valid() && k < |nodes| && contexts[k] == ctx && ctx.browsing
      modifies this`world, ctx`queryResult
      ensures Valid() && size == |ctx.queryResult|
      ensures ctx.queryResult == Reversed(delegated) + old(ctx.queryResult)
      ensures View() == Put(Obtain(old(View()), delegated), k,
                            old(View()).queries[k].(results := Reversed(delegated) + old(ctx.queryResult)))
    {
      world := Obtain(world, delegated);
      var all;
      all, size := Splice(ctx.queryResult, delegated);
      SetResults(ctx, k, all);
    }

    method OnBrowseDone(ctx: LookupContext, ghost k: nat, delegated: Results, memory: Memory)
      requires Valid() && k < |nodes| && contexts[k] == ctx && ctx.browsing
      modifies this, nodes`next, ctx
      ensures Valid() && View() == BrowseDone(old(View()), k, old(ctx.queryResult), delegated, memory)
    {
      var size := AddDelegated(ctx, k, delegated);
      var outcome := FillServices(ctx.queryResult, size, memory);
      Conclude(ctx, k, outcome);
    }

    method ParseResults(ctx: LookupContext, memory: Memory) returns (outcome: Outcome)
      requires !ctx.browsing
      ensures outcome == ResolveOutcome(ctx.View(), memory)
    {
      if !ctx.addrFinished || !ctx.txtFinished {
        return Failed(IncorrectState);
      }
      var error, service := ParseSrvResult(ctx.queryResult, memory);
      if error.Some? {
        return Failed(error.value);
      }
      var ips;
      error, ips := ParseIPAddresses(ctx.addrResult, memory);
      if error.Some? {
        return Failed(error.value);
      }
      service := ParseTxtResult(service, ctx.txtResult);
      return Resolved(service, ips);
    }

    method OnResolveDone(ctx: LookupContext, ghost k: nat, memory: Memory)
      requires Valid() && k < |nodes| && contexts[k] == ctx && !ctx.browsing
      modifies this, nodes`next
      ensures Valid() && View() == Finish(old(View()), k, ResolveOutcome(old(ctx.View()), memory))
    {
      var outcome := ParseResults(ctx, memory);
      Conclude(ctx, k, outcome);
    }

    method Finished(ctx: LookupContext, ghost k: nat, memory: Memory)
      requires Valid() && k < |nodes| && contexts[k] == ctx && !ctx.browsing
      modifies this, nodes`next
      ensures Valid() && View() == Settle(old(View()), k, memory)
    {
      if ctx.txtFinished && ctx.addrFinished {
        OnResolveDone(ctx, k, memory);
      }
    }

    // The first answer to the SRV query, with the addresses in it if it has any.
    method StoreFirst(ctx: LookupContext, ghost k: nat, answer: Results)
      requires Valid() && k < |nodes| && contexts[k] == ctx && !ctx.browsing && answer != []
      modifies ctx
      ensures Valid()
      ensures var c := old(ctx.View());
              View() == Put(old(View()), k,
                if answer[0].ips != [] then c.(srv := answer, addr := answer, addrFinished := true)
                else c.(srv := answer))
    {
      ghost var was := Views(contexts);
      ctx.queryResult := answer;
      if answer[0].ips != [] {
        ctx.addrResult := answer;
        ctx.addrFinished := true;
      }
      ViewsPut(was, contexts, k);
    }

    method StoreAddress(ctx: LookupContext, ghost k: nat, answer: Results)
      requires Valid() && k < |nodes| && contexts[k] == ctx && !ctx.browsing
      modifies ctx
      ensures Valid()
      ensures View() == Put(old(View()), k, old(ctx.View()).(addr := answer, addrFinished := true))
    {
      ghost var was := Views(contexts);
      ctx.addrResult := answer;
      ctx.addrFinished := true;
      ViewsPut(was, contexts, k);
    }

    method StoreText(ctx: LookupContext, ghost k: nat, answer: Results)
      requires Valid() && k < |nodes| && contexts[k] == ctx && !ctx.browsing
      modifies ctx
      ensures Valid()
      ensures View() == Put(old(View()), k, old(ctx.View()).(txt := answer, txtFinished := true))
    {
      ghost var was := Views(contexts);
      ctx.txtResult := answer;
      ctx.txtFinished := true;
      ViewsPut(was, contexts, k);
    }

    // The address query takes the place of the SRV query that answered.
    method StoreHandle(ctx: LookupContext, ghost k: nat, handle: Handle)
      requires Valid() && k < |nodes| && contexts[k] == ctx && !ctx.browsing
      modifies ctx
      ensures Valid()
      ensures View() == Put(old(View()), k, old(ctx.View()).(addr := [], srvHandle := handle))
    {
      ghost var was := Views(contexts);
      ctx.addrResult := [];
      ctx.queryHandle := handle;
      ViewsPut(was, contexts, k);
    }

    // A query has been started.
    ghost method Launch(handle: Handle)
      requires Valid() && handle == world.nextHandle
      modifies this`world
      ensures Valid() && View() == NewQuery(old(View()))
    {
      world := NewQuery(world);
    }

    // The history of the address query that was sent.
    ghost method Ask(id: Id, host: string)
      requires Valid()
      modifies this`world
      ensures Valid() && View() == AskFor(old(View()), id, host) && world.nextHandle == old(world.nextHandle)
    {
      world := AskFor(world, id, host);
    }

    method QueryAddress(ctx: LookupContext, ghost k: nat, handle: Handle, host: string, memory: Memory)
      requires Valid() && k < |nodes| && contexts[k] == ctx && !ctx.browsing && handle == world.nextHandle
      modifies this, nodes`next, ctx
      ensures Valid() && View() == AskAddress(old(View()), k, host, memory)
    {
      if !memory.followUp {
        StoreHandle(ctx, k, ctx.queryHandle);
        Conclude(ctx, k, Failed(NoMemory));
      } else {
        Ask(ctx.id, host);
        StoreHandle(ctx, k, handle);
        Launch(handle);
      }
    }

    method OnSrvAnswer(ctx: LookupContext, ghost k: nat, handle: Handle, answer: Results, memory: Memory)
      requires Valid() && k < |nodes| && contexts[k] == ctx && !ctx.browsing && handle == world.nextHandle
      modifies this, nodes`next, ctx
      ensures Valid() && View() == SrvDone(old(View()), k, answer, memory)
    {
      if answer == [] {
        Conclude(ctx, k, Failed(InvalidArgument));
      } else if ctx.queryResult == [] {
        StoreFirst(ctx, k, answer);
        if answer[0].ips != [] {
          Finished(ctx, k, memory);
        } else {
          QueryAddress(ctx, k, handle, answer[0].host, memory);
        }
      } else if ctx.addrResult == [] {
        StoreAddress(ctx, k, answer);
        Finished(ctx, k, memory);
      } else {
        Conclude(ctx, k, Failed(IncorrectState));
      }
    }

    method OnTxtAnswer(ctx: LookupContext, ghost k: nat, answer: Results, memory: Memory)
      requires Valid() && k < |nodes| && contexts[k] == ctx && !ctx.browsing
      modifies this, nodes`next, ctx
      ensures Valid() && View() == TxtDone(old(View()), k, answer, memory)
    {
      StoreText(ctx, k, answer);
      Finished(ctx, k, memory);
    }

    // A query has notified. Results for a query nobody waits for are freed.
    method MdnsQueryDone(h: Handle, handle: Handle, found: Results, delegated: Results, memory: Memory)
      requires Valid() && handle == world.nextHandle
      requires Possible(View(), Done(h, found, delegated, memory))
      modifies this, nodes`next, contexts
      ensures Valid() && View() == Next(old(View()), Done(h, found, delegated, memory))
    {
      world := Notified(world, h, Delivery(found, delegated));
      Completed(h, handle, found, delegated, memory);
    }

    method OnBrowseAnswer(ctx: LookupContext, ghost k: nat, found: Results, delegated: Results, memory: Memory)
      requires Valid() && k < |nodes| && contexts[k] == ctx && ctx.browsing
      modifies this, nodes`next, ctx
      ensures Valid() && View() == BrowseDone(old(View()), k, found, delegated, memory)
    {
      SetResults(ctx, k, found);
      OnBrowseDone(ctx, k, delegated, memory);
    }

    method OnResolveAnswer(ctx: LookupContext, ghost k: nat, h: Handle, handle: Handle, found: Results,
                           delegated: Results, memory: Memory)
      requires Valid() && k < |nodes| && contexts[k] == ctx && !ctx.browsing && handle == world.nextHandle
      modifies this, nodes`next, ctx
      ensures var d := if found == [] then Obtain(old(View()), delegated) else old(View());
              && Valid()
              && View() == if old(ctx.queryHandle) == h then SrvDone(d, k, Answer(found, delegated), memory)
                           else TxtDone(d, k, Answer(found, delegated), memory)
    {
      var result := found;
      if result == [] {
        Take(delegated);
        result := delegated;
      }
      if ctx.queryHandle == h {
        OnSrvAnswer(ctx, k, handle, result, memory);
      } else {
        OnTxtAnswer(ctx, k, result, memory);
      }
    }

    // A result list comes in, and one that nobody waits for goes out.
    ghost method Take(es: Results)
      requires Valid()
      modifies this`world
      ensures Valid() && View() == Obtain(old(View()), es) && world.nextHandle == old(world.nextHandle)
    {
      world := Obtain(world, es);
    }

    ghost method Drop(es: Results)
      requires Valid()
      modifies this`world
      ensures Valid() && View() == Free(old(View()), None, es)
    {
      world := Free(world, None, es);
    }

    method Completed(h: Handle, handle: Handle, found: Results, delegated: Results, memory: Memory)
      requires Valid() && handle == world.nextHandle
      modifies this, nodes`next, contexts
      ensures Valid() && View() == QueryDone(old(View()), h, found, delegated, memory)
    {
      ghost var k := Find(Views(contexts), h);
      QueryDoneCases(View(), h, found, delegated, memory);
      var ctx := FindMdnsQuery(h);
      Take(found);
      if ctx == null {
        Drop(found);
      } else if ctx.browsing {
        OnBrowseAnswer(ctx, k, found, delegated, memory);
      } else {
        OnResolveAnswer(ctx, k, h, handle, found, delegated, memory);
      }
    }

    // Lists a context for new queries and accepts the lookup.
    method Enlist(ctx: LookupContext, ghost asked: Asked, listOk: bool) returns (ok: bool)
      requires Valid() && ctx !in contexts && ctx.id == world.nextId
      modifies this
      ensures Valid() && ok == listOk
      ensures View() == if ok then Accept(old(View()), ctx.View(), asked) else old(View())
    {
      ok := AddQueryList(ctx, listOk);
      ViewsKept(old(contexts));
      if ok {
        ViewsCons(ctx, old(contexts));
        world := world.(nextId := world.nextId + 1, asked := world.asked[ctx.id := asked]);
      }
    }

    method EspDnssdBrowse(id: Id, handle: Handle, queryOk: bool, contextOk: bool, listOk: bool)
        returns (error: Option<Error>)
      requires Valid() && id == world.nextId && handle == world.nextHandle
      modifies this
      ensures Valid() && View() == Next(old(View()), StartBrowse(queryOk, contextOk, listOk))
      ensures error == if queryOk && contextOk && listOk then None else Some(NoMemory)
      ensures error.None? ==>
                && View().queries == [Browse(id, handle, [])] + old(View()).queries && View().nextId == id + 1
                && handle in View().pending && View().asked == old(View()).asked[id := ForBrowse(handle)]
      ensures error.Some? ==> View().queries == old(View()).queries && View().nextId == id
    {
      if !queryOk {
        return Some(NoMemory);
      }
      Launch(handle);
      if !contextOk {
        return Some(NoMemory);
      }
      var ctx := new LookupContext(id, true, handle, handle);
      ViewsKept(contexts);
      var ok := Enlist(ctx, ForBrowse(handle), listOk);
      return if ok then None else Some(NoMemory);
    }

    method EnlistResolve(id: Id, srv: Handle, txt: Handle, contextOk: bool, listOk: bool)
        returns (ok: bool)
      requires Valid() && id == world.nextId
      modifies this
      ensures Valid() && ok == (contextOk && listOk)
      ensures View() == if ok
                        then Accept(old(View()), Resolve(id, srv, [], [], false, txt, [], false),
                                    ForResolve(srv, txt, None))
                        else old(View())
    {
      if !contextOk {
        return false;
      }
      var ctx := new LookupContext(id, false, srv, txt);
      ViewsKept(contexts);
      ok := Enlist(ctx, ForResolve(srv, txt, None), listOk);
    }

    method EspDnssdResolve(id: Id, srv: Handle, txt: Handle, srvOk: bool, txtOk: bool, contextOk: bool, listOk: bool)
        returns (error: Option<Error>)
      requires Valid() && id == world.nextId && srv == world.nextHandle && txt == srv + 1
      modifies this
      ensures Valid() && View() == Next(old(View()), StartResolve(srvOk, txtOk, contextOk, listOk))
      ensures error == if srvOk && txtOk && contextOk && listOk then None else Some(NoMemory)
      ensures error.None? ==>
                && View().queries == [Resolve(id, srv, [], [], false, txt, [], false)] + old(View()).queries
                && View().nextId == id + 1 && srv in View().pending && txt in View().pending
                && View().asked == old(View()).asked[id := ForResolve(srv, txt, None)]
      ensures error.Some? ==> View().queries == old(View()).queries && View().nextId == id
    {
      ResolveStartedCases(View(), srvOk, txtOk, contextOk, listOk);
      if !srvOk {
        return Some(NoMemory);
      }
      Launch(srv);
      if !txtOk {
        return Some(NoMemory);
      }
      Launch(txt);
      assert View() == NewQuery(NewQuery(old(View())));
      var ok := EnlistResolve(id, srv, txt, contextOk, listOk);
      return if ok then None else Some(NoMemory);
    }
  }
}
