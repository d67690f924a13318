/**
  The mDNS lookups of ESP32DnssdImpl.cpp: a list of contexts advanced by the asynchronous completions
  of their queries, in any order. A handle and a result node stand for the address of an object, and
  every new one is fresh. The object form of the list and the steps is in DnssdService.dfy.
  */
module Dnssd {
  import opened Options

  type Handle = nat
  type Id = nat
  type Address = nat
  type Ip = nat

  // One node of a result list; a list is its nodes in order and a null pointer is the empty list.
  datatype Entry = Entry(address: Address, instance: string, host: string, port: nat, ips: seq<Ip>, txt: seq<string>)

  type Results = seq<Entry>

  datatype Service = Service(instance: string, host: string, port: nat, txt: seq<string>)

  datatype Error = InvalidArgument | NoMemory | IncorrectState

  datatype Outcome =
    | Services(services: seq<Service>)
    | Resolved(service: Service, ips: seq<Ip>)
    | Failed(error: Error)

  datatype Context =
    | Browse(id: Id, handle: Handle, results: Results)
    | Resolve(id: Id, srvHandle: Handle, srv: Results, addr: Results, addrFinished: bool,
              txtHandle: Handle, txt: Results, txtFinished: bool)

  // What happened, in order: result lists obtained, callbacks called, result lists freed. `owner` is
  // the context whose destructor freed the list.
  datatype Action =
    | Obtained(entries: Results)
    | Called(id: Id, outcome: Outcome)
    | Freed(owner: Option<Id>, entries: Results)

  // What a query delivered when it notified: what it found, and what a lookup of the delegated services
  // would give at that moment.
  datatype Delivery = Delivery(found: Results, delegated: Results)

  // The queries that a lookup has started, as they were started; the address query is for a host.
  datatype AddressQuery = AddressQuery(handle: Handle, host: string)

  datatype Asked =
    | ForBrowse(handle: Handle)
    | ForResolve(srv: Handle, txt: Handle, addr: Option<AddressQuery>)

  // `pending` holds the queries that have not notified yet and `seen` the result nodes so far. `asked` and
  // `delivered` are history: nothing below reads them.
  datatype Dns = Dns(queries: seq<Context>, pending: set<Handle>, nextHandle: Handle, nextId: Id,
                     seen: set<Address>, trace: seq<Action>, asked: map<Id, Asked>,
                     delivered: map<Handle, Delivery>)

  const START := Dns([], {}, 0, 0, {}, [], map[], map[])

  // Which allocations succeed while a completion is handled.
  datatype Memory = Memory(services: bool, service: bool, addresses: bool, followUp: bool)

  datatype Input =
    | StartBrowse(queryOk: bool, contextOk: bool, listOk: bool)
    | StartResolve(srvOk: bool, txtOk: bool, contextOk: bool, listOk: bool)
    // The query notifies; `result` is what it found and `delegated` what a lookup of the delegated
    // services would give.
    | Done(h: Handle, result: Results, delegated: Results, memory: Memory)

  // -------------------------------------------------------------------------
  // Result lists
  // -------------------------------------------------------------------------

  // The pointers are equal: the lists start with the same node.
  predicate SameList(a: Results, b: Results) { a != [] && b != [] && a[0].address == b[0].address }

  // The lists a context owns. The answer to the SRV query may be the address answer as well.
  function Owned(c: Context): seq<Results> {
    match c
    case Browse(_, _, results) => [results]
    case Resolve(_, _, srv, addr, _, _, txt, _) =>
      [srv, if SameList(addr, srv) then [] else addr, txt]
  }

  function ServiceOf(e: Entry, txt: seq<string>): Service { Service(e.instance, e.host, e.port, txt) }

  function Reversed(es: Results): Results {
    if es == [] then [] else Reversed(es[1..]) + [es[0]]
  }

  // -------------------------------------------------------------------------
  // The pieces of a step
  // -------------------------------------------------------------------------

  function Log(d: Dns, a: Action): Dns { d.(trace := d.trace + [a]) }

  function Addresses(es: Results): set<Address> { set e | e in es :: e.address }

  function Obtain(d: Dns, es: Results): Dns {
    if es == [] then d else Log(d, Obtained(es)).(seen := d.seen + Addresses(es))
  }

  function Free(d: Dns, owner: Option<Id>, es: Results): Dns {
    if es == [] then d else Log(d, Freed(owner, es))
  }

  function FreeAll(d: Dns, owner: Id, lists: seq<Results>): Dns
    decreases |lists|
  {
    if lists == [] then d else FreeAll(Free(d, Some(owner), lists[0]), owner, lists[1..])
  }

  predicate Owns(c: Context, h: Handle) {
    match c
    case Browse(_, handle, _) => handle == h
    case Resolve(_, srvHandle, _, _, _, txtHandle, _, _) => srvHandle == h || txtHandle == h
  }

  // The position of the first context that asked the query, or the length of the list.
  function Find(queries: seq<Context>, h: Handle): nat {
    if queries == [] then 0 else if Owns(queries[0], h) then 0 else 1 + Find(queries[1..], h)
  }

  function Without<T>(queries: seq<T>, k: nat): seq<T>
    requires k < |queries|
  {
    queries[..k] + queries[k + 1..]
  }

  // The callback is called, then the context is taken off the list and its destructor frees what it owns.
  function Finish(d: Dns, k: nat, outcome: Outcome): Dns
    requires k < |d.queries|
  {
    var c := d.queries[k];
    FreeAll(Log(d, Called(c.id, outcome)).(queries := Without(d.queries, k)), c.id, Owned(c))
  }

  function Put(d: Dns, k: nat, c: Context): Dns
    requires k < |d.queries|
  {
    d.(queries := d.queries[k := c])
  }

  // -------------------------------------------------------------------------
  // Completions
  // -------------------------------------------------------------------------

  function ServicesOf(es: Results): seq<Service> {
    seq(|es|, i requires 0 <= i < |es| => ServiceOf(es[i], es[i].txt))
  }

  function BrowseOutcome(results: Results, memory: Memory): Outcome {
    if results != [] && !memory.services then Failed(NoMemory) else Services(ServicesOf(results))
  }

  // Each delegated service is moved to the front of the query's own results.
  function BrowseDone(d: Dns, k: nat, result: Results, delegated: Results, memory: Memory): Dns
    requires k < |d.queries| && d.queries[k].Browse?
  {
    var results := Reversed(delegated) + result;
    Finish(Put(Obtain(d, delegated), k, d.queries[k].(results := results)), k, BrowseOutcome(results, memory))
  }

  function ResolveOutcome(c: Context, memory: Memory): Outcome
    requires c.Resolve?
  {
    if !(c.addrFinished && c.txtFinished) then Failed(IncorrectState)
    else if c.srv == [] then Failed(InvalidArgument)
    else if !memory.service then Failed(NoMemory)
    else if c.addr == [] || c.addr[0].ips == [] then Failed(InvalidArgument)
    else if !memory.addresses then Failed(NoMemory)
    else Resolved(ServiceOf(c.srv[0], if c.txt == [] then [] else c.txt[0].txt), c.addr[0].ips)
  }

  function Settle(d: Dns, k: nat, memory: Memory): Dns
    requires k < |d.queries| && d.queries[k].Resolve?
  {
    var c := d.queries[k];
    if c.addrFinished && c.txtFinished then Finish(d, k, ResolveOutcome(c, memory)) else d
  }

  function AskAddress(d: Dns, k: nat, host: string, memory: Memory): Dns
    requires k < |d.queries| && d.queries[k].Resolve?
  {
    var c := d.queries[k];
    if memory.followUp
    then NewQuery(Put(AskFor(d, c.id, host), k, c.(addr := [], srvHandle := d.nextHandle)))
    else Finish(Put(d, k, c.(addr := [])), k, Failed(NoMemory))
  }

  // The record of the address query about to be started.
  function AskFor(d: Dns, id: Id, host: string): Dns {
    if id in d.asked && d.asked[id].ForResolve?
    then d.(asked := d.asked[id := d.asked[id].(addr := Some(AddressQuery(d.nextHandle, host)))])
    else d
  }

  // The answer of the SRV query or, after it, of the address query.
  function SrvDone(d: Dns, k: nat, answer: Results, memory: Memory): Dns
    requires k < |d.queries| && d.queries[k].Resolve?
  {
    var c := d.queries[k];
    if answer == [] then Finish(d, k, Failed(InvalidArgument))
    else if c.srv == [] then
      if answer[0].ips != []
      then Settle(Put(d, k, c.(srv := answer, addr := answer, addrFinished := true)), k, memory)
      else AskAddress(Put(d, k, c.(srv := answer)), k, answer[0].host, memory)
    else if c.addr == [] then
      Settle(Put(d, k, c.(addr := answer, addrFinished := true)), k, memory)
    else Finish(d, k, Failed(IncorrectState))
  }

  function TxtDone(d: Dns, k: nat, answer: Results, memory: Memory): Dns
    requires k < |d.queries| && d.queries[k].Resolve?
  {
    Settle(Put(d, k, d.queries[k].(txt := answer, txtFinished := true)), k, memory)
  }

  // With no result of its own, a resolve query looks up the delegated services.
  function Answer(result: Results, delegated: Results): Results {
    if result == [] then delegated else result
  }

  function QueryDone(d: Dns, h: Handle, result: Results, delegated: Results, memory: Memory): Dns {
    var k := Find(d.queries, h);
    FindIsFirst(d.queries, h);
    if k == |d.queries| then Free(Obtain(d, result), None, result)
    else
      var d1 := Obtain(d, result);
      var c := d.queries[k];
      if c.Browse? then BrowseDone(d1, k, result, delegated, memory)
      else
        var answer := Answer(result, delegated);
        var d2 := if result == [] then Obtain(d1, delegated) else d1;
        if c.srvHandle == h then SrvDone(d2, k, answer, memory) else TxtDone(d2, k, answer, memory)
  }

  lemma {:induction false} FindIsFirst(queries: seq<Context>, h: Handle)
    ensures Find(queries, h) <= |queries|
    ensures Find(queries, h) < |queries| ==> Owns(queries[Find(queries, h)], h)
    ensures forall i :: 0 <= i < Find(queries, h) ==> !Owns(queries[i], h)
  {
    if queries != [] && !Owns(queries[0], h) {
      FindIsFirst(queries[1..], h);
    }
  }

  // -------------------------------------------------------------------------
  // New lookups
  // -------------------------------------------------------------------------

  // A query that has been started notifies once, whether or not the lookup was accepted.
  function NewQuery(d: Dns): Dns {
    d.(pending := d.pending + {d.nextHandle}, nextHandle := d.nextHandle + 1)
  }

  function Accept(d: Dns, c: Context, asked: Asked): Dns {
    d.(queries := [c] + d.queries, nextId := d.nextId + 1, asked := d.asked[c.id := asked])
  }

  function BrowseStarted(d: Dns, queryOk: bool, contextOk: bool, listOk: bool): Dns {
    if !queryOk then d
    else if !contextOk || !listOk then NewQuery(d)
    else Accept(NewQuery(d), Browse(d.nextId, d.nextHandle, []), ForBrowse(d.nextHandle))
  }

  function ResolveStarted(d: Dns, srvOk: bool, txtOk: bool, contextOk: bool, listOk: bool): Dns {
    if !srvOk then d
    else if !txtOk then NewQuery(d)
    else
      var d1 := NewQuery(NewQuery(d));
      if !contextOk || !listOk then d1
      else
        Accept(d1, Resolve(d.nextId, d.nextHandle, [], [], false, d.nextHandle + 1, [], false),
               ForResolve(d.nextHandle, d.nextHandle + 1, None))
  }

  // Nodes are fresh: the completion brings nodes not seen before, each once.
  predicate FreshNodes(d: Dns, es: Results) {
    && (forall e :: e in es ==> e.address !in d.seen)
    && (forall i, j :: 0 <= i < j < |es| ==> es[i].address != es[j].address)
  }

  predicate Possible(d: Dns, i: Input) {
    i.Done? ==> i.h in d.pending && FreshNodes(d, i.result + i.delegated)
  }

  function Next(d: Dns, i: Input): Dns {
    match i
    case StartBrowse(queryOk, contextOk, listOk) => BrowseStarted(d, queryOk, contextOk, listOk)
    case StartResolve(srvOk, txtOk, contextOk, listOk) => ResolveStarted(d, srvOk, txtOk, contextOk, listOk)
    case Done(h, result, delegated, memory) =>
      if !Possible(d, i) then d
      else QueryDone(Notified(d, h, Delivery(result, delegated)), h, result, delegated, memory)
  }

  // A query notifies once, and what it delivers is on record before anything is done with it.
  function Notified(d: Dns, h: Handle, delivery: Delivery): Dns {
    d.(pending := d.pending - {h}, delivered := d.delivered[h := delivery])
  }

  function Run(d: Dns, inputs: seq<Input>): Dns {
    if inputs == [] then d else Next(Run(d, inputs[..|inputs| - 1]), inputs[|inputs| - 1])
  }

  // Where a completion and a new resolve can go, one equation for each.
  lemma QueryDoneCases(d: Dns, h: Handle, result: Results, delegated: Results, memory: Memory)
    ensures var k, d1, done := Find(d.queries, h), Obtain(d, result), QueryDone(d, h, result, delegated, memory);
            && k <= |d.queries| && d1.queries == d.queries
            && (k == |d.queries| ==> done == Free(d1, None, result))
            && (k < |d.queries| && d.queries[k].Browse? ==> done == BrowseDone(d1, k, result, delegated, memory))
            && (k < |d.queries| && d.queries[k].Resolve? ==>
                  var d2 := if result == [] then Obtain(d1, delegated) else d1;
                  var answer := Answer(result, delegated);
                  done == if d.queries[k].srvHandle == h then SrvDone(d2, k, answer, memory)
                          else TxtDone(d2, k, answer, memory))
  {
    FindIsFirst(d.queries, h);
  }

  lemma ResolveStartedCases(d: Dns, srvOk: bool, txtOk: bool, contextOk: bool, listOk: bool)
    ensures var c := Resolve(d.nextId, d.nextHandle, [], [], false, d.nextHandle + 1, [], false);
            var d2 := NewQuery(NewQuery(d));
            Next(d, StartResolve(srvOk, txtOk, contextOk, listOk)) ==
            if !srvOk then d
            else if !txtOk then NewQuery(d)
            else if !contextOk || !listOk then d2
            else Accept(d2, c, ForResolve(d.nextHandle, d.nextHandle + 1, None))
  {
  }

  // -------------------------------------------------------------------------
  // Reading the history
  // -------------------------------------------------------------------------

  function Calls(trace: seq<Action>, id: Id): nat {
    if trace == [] then 0
    else
      var last := trace[|trace| - 1];
      Calls(trace[..|trace| - 1], id) + (if last.Called? && last.id == id then 1 else 0)
  }

  function ObtainedIn(trace: seq<Action>): multiset<Entry> {
    if trace == [] then multiset{}
    else
      var last := trace[|trace| - 1];
      ObtainedIn(trace[..|trace| - 1]) + (if last.Obtained? then multiset(last.entries) else multiset{})
  }

  function FreedIn(trace: seq<Action>): multiset<Entry> {
    if trace == [] then multiset{}
    else
      var last := trace[|trace| - 1];
      FreedIn(trace[..|trace| - 1]) + (if last.Freed? then multiset(last.entries) else multiset{})
  }

  function All(lists: seq<Results>): multiset<Entry> {
    if lists == [] then multiset{} else multiset(lists[0]) + All(lists[1..])
  }

  function HeldBy(queries: seq<Context>): multiset<Entry> {
    if queries == [] then multiset{} else All(Owned(queries[0])) + HeldBy(queries[1..])
  }

  // A list owned by a context is only freed once the context's callback has been called.
  ghost predicate FreedAfterCall(trace: seq<Action>) {
    forall j :: 0 <= j < |trace| && trace[j].Freed? && trace[j].owner.Some? ==>
      exists i :: 0 <= i < j && trace[i].Called? && trace[i].id == trace[j].owner.value
  }

  function Ids(queries: seq<Context>): set<Id> { set c | c in queries :: c.id }

  predicate Listed(d: Dns, id: Id) { id in Ids(d.queries) }
}
