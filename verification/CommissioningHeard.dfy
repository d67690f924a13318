/** No result is lost: what is reported of an attempt reaches the request that waits for it. */
module CommissioningHeard {
  import opened Options
  import opened Commissioning
  import opened CommissioningProofs

  // The handler's attempt has been started and its wait has neither ended nor expired.
  predicate Awaits(w: World) { w.current.Some? && (w.pc.InStart? || w.pc.Waiting?) }

  // The callback of an attempt, before it has given the token.
  predicate OnItsWay(w: World, a: Attempt) {
    w.callback.Some? && w.callback.value.attempt == a && !w.callback.value.stage.Returning?
  }

  // A result that is still to come will be heard, since the delegate is registered and the flag is up; or one
  // has come and is on its way; or the token is there.
  predicate Listens(w: World) {
    && (w.pc.LockingStack? || w.pc.Starting? ==> w.waiting)
    && (Awaits(w) ==>
          || w.done
          || (OnItsWay(w, w.current.value) && (w.callback.value.stage.Exchanging? ==> w.waiting))
          || (w.delegate == w.current && w.waiting && w.current.value !in w.log.first))
  }

  // A result that has come has been given in time, or too late, or is on its way.
  ghost predicate Accounted(w: World) {
    forall a :: a in w.log.first ==> a in w.log.inTime || a in w.log.expired || OnItsWay(w, a)
  }

  lemma HandlerListens(w: World)
    requires Control(w) && Listens(w)
    ensures Listens(HandlerNext(w))
  {
  }

  lemma CallbackListens(w: World)
    requires Control(w) && Listens(w)
    ensures Listens(CallbackNext(w))
  {
  }

  lemma OthersListen(w: World, s: Step)
    requires Control(w) && Listens(w) && !s.HandlerStep? && !s.CallbackStep?
    ensures Listens(Next(w, s))
  {
  }

  lemma CallbackAccounts(w: World)
    requires Control(w) && Listens(w) && Accounted(w)
    ensures Accounted(CallbackNext(w))
  {
  }

  lemma HandlerAccounts(w: World)
    requires Accounted(w)
    ensures Accounted(HandlerNext(w))
  {
    var m := HandlerNext(w);
    assert m.log.first == w.log.first && m.log.inTime == w.log.inTime && m.log.expired == w.log.expired;
    assert m.callback == w.callback;
  }

  lemma OthersAccount(w: World, s: Step)
    requires Control(w) && Accounted(w) && !s.HandlerStep? && !s.CallbackStep?
    ensures Accounted(Next(w, s))
  {
    var m := Next(w, s);
    if !s.Report? {
      assert m.log.first == w.log.first && m.log.inTime == w.log.inTime && w.log.expired <= m.log.expired;
      assert m.callback == w.callback;
    }
  }

  // On every interleaving, while a request waits for its attempt a result still to come will be heard, one that
  // has come is on its way, or the token is there; and every result that was ever reported has been given to its
  // request in time, or came after the wait had expired, or is on its way.
  lemma {:induction false} NoResultIsLost(steps: seq<Step>)
    ensures Listens(Run(START, steps)) && Accounted(Run(START, steps))
  {
    if steps != [] {
      var w, s := Run(START, steps[..|steps| - 1]), steps[|steps| - 1];
      NoResultIsLost(steps[..|steps| - 1]);
      RunKeeps(START, steps[..|steps| - 1]);
      if s.HandlerStep? {
        HandlerListens(w);
        HandlerAccounts(w);
      } else if s.CallbackStep? {
        CallbackListens(w);
        CallbackAccounts(w);
      } else {
        OthersListen(w, s);
        OthersAccount(w, s);
      }
    }
  }

  // So a request whose attempt was reported, and whose wait did not expire before its callback had run, is
  // answered with that result.
  lemma ReportedIsAnswered(steps: seq<Step>, a: Attempt)
    ensures var w := Run(START, steps);
            a in w.log.first && a !in w.log.expired && a in w.log.answers ==>
              && a in w.log.inTime
              && w.log.answers[a] == if w.log.first[a].succeeded then Commissioned else Failed(w.log.first[a].error)
  {
    NoResultIsLost(steps);
    ResultsNeverCross(steps);
    RunKeeps(START, steps);
  }
}
