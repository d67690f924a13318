/**
  The two sides of the commissioning handshake as the source writes them: a handler that takes locks, waits
  and reads its result, and a callback that signals it. Each is a sequential method in which the other tasks
  may do anything of theirs between any two accesses to what is shared.
  */
module CommissioningTasks {
  import opened Options
  import opened Commissioning
  import opened CommissioningProofs

  predicate ByOthers(steps: seq<Step>) {
    forall s :: s in steps ==> !s.HandlerStep? && !s.TimeOut?
  }

  predicate ByHandlers(steps: seq<Step>) {
    forall s :: s in steps ==> s.HandlerStep? || s.TimeOut? || s.Request?
  }

  lemma OtherStays(w: World, s: Step)
    requires w.current.Some? && !s.HandlerStep? && !s.TimeOut?
    ensures Next(w, s).pc == w.pc && Next(w, s).current == w.current
  {
  }

  // Others neither move the handler nor take its mutex.
  lemma {:induction false} OthersStay(w: World, steps: seq<Step>)
    requires Inv(w) && w.current.Some? && ByOthers(steps)
    ensures var m := Run(w, steps); Inv(m) && m.pc == w.pc && m.current == w.current
  {
    if steps != [] {
      var init, last := steps[..|steps| - 1], steps[|steps| - 1];
      assert last in steps && ByOthers(init);
      OthersStay(w, init);
      StepKeeps(Run(w, init), last);
      OtherStays(Run(w, init), last);
    }
  }

  lemma HandlerStays(w: World, s: Step)
    requires s.HandlerStep? || s.TimeOut? || s.Request?
    ensures Next(w, s).callback == w.callback
  {
  }

  // Handlers do not touch the callback that is running.
  lemma {:induction false} HandlersStay(w: World, steps: seq<Step>)
    requires Inv(w) && ByHandlers(steps)
    ensures var m := Run(w, steps); Inv(m) && m.callback == w.callback
  {
    if steps != [] {
      var init, last := steps[..|steps| - 1], steps[|steps| - 1];
      assert last in steps && ByHandlers(init);
      HandlersStay(w, init);
      StepKeeps(Run(w, init), last);
      HandlerStays(Run(w, init), last);
    }
  }

  class Handshake {
    var commissioningDone: bool
    var commissioningWaiting: bool
    var commissioningSucceeded: bool
    var commissioningError: nat

    // The holder of the mutex and the owner of the chip-stack lock.
    var lock: Option<Attempt>
    var stackLock: Owner
    var pairingDelegate: Option<Attempt>

    // Where the handler and the callback are, and the history.
    var pc: Pc
    var callback: Option<Callback>
    var log: Log

    // What the other tasks do, from one access of this one to the next.
    var turns: seq<seq<Step>>

    function View(): World
      reads this
    {
      World(lock, pc, commissioningDone, commissioningWaiting, Result(commissioningSucceeded, commissioningError),
            stackLock, pairingDelegate, callback, log)
    }

    constructor (turns: seq<seq<Step>>)
      ensures View() == START && this.turns == turns
    {
      commissioningDone, commissioningWaiting, commissioningSucceeded, commissioningError := false, false, false, 0;
      lock, stackLock, pairingDelegate := None, Nobody, None;
      pc, callback, log := Idle, None, Log(0, map[], map[], {}, {});
      this.turns := turns;
    }

    predicate OnlyOthers()
      reads this
    {
      forall i :: 0 <= i < |turns| ==> ByOthers(turns[i])
    }

    // The others go on to the state `w`.
    method Become(w: World)
      modifies this
      ensures View() == w && turns == old(turns)
    {
      commissioningDone, commissioningWaiting := w.done, w.waiting;
      commissioningSucceeded, commissioningError := w.slot.succeeded, w.slot.error;
      lock, stackLock, pairingDelegate := w.current, w.stack, w.delegate;
      pc, callback, log := w.pc, w.callback, w.log;
    }

    method Pause()
      requires Inv(View()) && lock.Some? && OnlyOthers()
      modifies this
      ensures Inv(View()) && pc == old(pc) && lock == old(lock) && OnlyOthers()
      ensures if old(turns) == [] then View() == old(View()) && turns == [] else turns == old(turns)[1..]
    {
      if turns != [] {
        OthersStay(View(), turns[0]);
        Become(Run(View(), turns[0]));
        turns := turns[1..];
      }
    }

    // -----------------------------------------------------------------------
    // The handler
    // -----------------------------------------------------------------------

    // An earlier attempt's token is drained before the flag goes up.
    method Arm()
      requires Inv(View()) && pc.Draining? && OnlyOthers()
      modifies this
      ensures |turns| <= |old(turns)|
      ensures Inv(View()) && pc.LockingStack? && lock == old(lock) && OnlyOthers()
    {
      Pause();
      ghost var w := View();
      commissioningDone := false;
      pc := Arming;
      StepKeeps(w, HandlerStep);
      assert View() == Next(w, HandlerStep);
      Pause();
      w := View();
      commissioningWaiting := true;
      pc := LockingStack;
      StepKeeps(w, HandlerStep);
      assert View() == Next(w, HandlerStep);
    }

    // Waits for the stack lock for as long as the others go on.
    method LockChipStack() returns (locked: bool)
      requires Inv(View()) && (pc.LockingStack? || pc.LockingToStop?) && OnlyOthers()
      modifies this
      ensures |turns| <= |old(turns)|
      ensures Inv(View()) && lock == old(lock) && OnlyOthers()
      ensures if locked then pc == if old(pc).LockingStack? then Starting else Stopping
              else pc == old(pc) && turns == [] && !stackLock.Nobody?
    {
      Pause();
      while !stackLock.Nobody? && turns != []
        invariant Inv(View()) && pc == old(pc) && lock == old(lock) && OnlyOthers() && |turns| <= |old(turns)|
        decreases |turns|
      {
        Pause();
      }
      if !stackLock.Nobody? {
        return false;
      }
      ghost var w := View();
      stackLock := Handler;
      pc := if pc.LockingStack? then Starting else Stopping;
      StepKeeps(w, HandlerStep);
      assert View() == Next(w, HandlerStep);
      return true;
    }

    // The callbacks that the call makes before it returns.
    method FinishCallbacks() returns (finished: bool)
      requires Inv(View()) && (pc.InStart? || pc.Stopping?) && OnlyOthers()
      modifies this
      ensures |turns| <= |old(turns)|
      ensures Inv(View()) && pc == old(pc) && lock == old(lock) && OnlyOthers()
      ensures finished <==> callback.None?
      ensures !finished ==> turns == []
    {
      Pause();
      while callback.Some? && turns != []
        invariant Inv(View()) && pc == old(pc) && lock == old(lock) && OnlyOthers() && |turns| <= |old(turns)|
        decreases |turns|
      {
        Pause();
      }
      return callback.None?;
    }

    method StartPairing() returns (started: bool)
      requires Inv(View()) && pc.LockingStack? && OnlyOthers()
      modifies this
      ensures |turns| <= |old(turns)|
      ensures Inv(View()) && lock == old(lock) && OnlyOthers()
      ensures if started then pc.Waiting? else turns == [] && (callback.Some? || !stackLock.Nobody?)
    {
      started := LockChipStack();
      if !started {
        return;
      }
      ghost var w := View();
      // No delegate is registered: every earlier attempt has given it up.
      assert pairingDelegate.None?;
      pairingDelegate := lock;
      pc := InStart;
      StepKeeps(w, HandlerStep);
      assert View() == Next(w, HandlerStep);
      started := FinishCallbacks();
      if !started {
        return;
      }
      w := View();
      stackLock := Nobody;
      pc := Waiting;
      StepKeeps(w, HandlerStep);
      assert View() == Next(w, HandlerStep);
    }

    // Waits for the token for `patience` turns of the others. It gives up only with all of them spent and no
    // token there.
    method AwaitSignal(patience: nat) returns (signalled: bool)
      requires Inv(View()) && pc.Waiting? && OnlyOthers()
      modifies this
      ensures Inv(View()) && lock == old(lock) && OnlyOthers()
      ensures if signalled then pc.ReadingSucceeded? else pc.GivingUp? && !commissioningDone
      ensures !signalled ==> turns == [] || |turns| + patience <= |old(turns)|
      ensures |turns| <= |old(turns)|
    {
      var waited := 0;
      while !commissioningDone && waited < patience
        invariant Inv(View()) && pc == old(pc) && lock == old(lock) && OnlyOthers() && waited <= patience
        invariant |turns| <= |old(turns)| && (turns == [] || |turns| + waited <= |old(turns)|)
        decreases patience - waited
      {
        Pause();
        waited := waited + 1;
      }
      ghost var w := View();
      if commissioningDone {
        commissioningDone := false;
        pc := ReadingSucceeded;
        StepKeeps(w, HandlerStep);
        assert View() == Next(w, HandlerStep);
        return true;
      }
      pc := GivingUp;
      log := log.(expired := log.expired + {lock.value});
      StepKeeps(w, TimeOut);
      assert View() == Next(w, TimeOut);
      return false;
    }

    method ReadResult() returns (answer: Answer)
      requires Inv(View()) && pc.ReadingSucceeded? && OnlyOthers()
      modifies this
      ensures |turns| <= |old(turns)|
      ensures Inv(View()) && pc == Releasing(answer) && lock == old(lock) && OnlyOthers()
      ensures answer.Commissioned? || answer.Failed?
    {
      Pause();
      ghost var w := View();
      var succeeded := commissioningSucceeded;
      pc := ReadingError(succeeded);
      StepKeeps(w, HandlerStep);
      assert View() == Next(w, HandlerStep);
      Pause();
      w := View();
      answer := if succeeded then Commissioned else Failed(commissioningError);
      pc := Releasing(answer);
      StepKeeps(w, HandlerStep);
      assert View() == Next(w, HandlerStep);
    }

    method LowerFlag()
      requires Inv(View()) && pc.GivingUp? && OnlyOthers()
      modifies this
      ensures |turns| <= |old(turns)|
      ensures Inv(View()) && pc.LockingToStop? && lock == old(lock) && OnlyOthers()
    {
      Pause();
      ghost var w := View();
      commissioningWaiting := false;
      pc := LockingToStop;
      StepKeeps(w, HandlerStep);
      assert View() == Next(w, HandlerStep);
    }

    // The stop: the delegate is gone and the stack is let go.
    method ReleaseDelegate()
      requires Inv(View()) && pc.Stopping? && callback.None? && OnlyOthers()
      modifies this
      ensures |turns| <= |old(turns)|
      ensures Inv(View()) && pc == Releasing(TimedOut) && lock == old(lock) && OnlyOthers()
    {
      ghost var w := View();
      pairingDelegate := None;
      pc := Stopped;
      StepKeeps(w, HandlerStep);
      assert View() == Next(w, HandlerStep);
      Pause();
      w := View();
      stackLock := Nobody;
      pc := Releasing(TimedOut);
      StepKeeps(w, HandlerStep);
      assert View() == Next(w, HandlerStep);
    }

    // Gives the attempt up: no callback of it is on its way any more.
    method StopPairing() returns (stopped: bool)
      requires Inv(View()) && pc.GivingUp? && OnlyOthers()
      modifies this
      ensures |turns| <= |old(turns)|
      ensures Inv(View()) && lock == old(lock) && OnlyOthers()
      ensures if stopped then pc == Releasing(TimedOut) && !Signalling(View()) && pairingDelegate.None?
              else turns == [] && (callback.Some? || !stackLock.Nobody?)
    {
      LowerFlag();
      stopped := LockChipStack();
      if stopped {
        stopped := FinishCallbacks();
      }
      if stopped {
        ReleaseDelegate();
      }
    }

    method Unlock(answer: Answer)
      requires Inv(View()) && pc == Releasing(answer) && lock.Some? && OnlyOthers()
      modifies this
      ensures |turns| <= |old(turns)|
      ensures Inv(View()) && OnlyOthers()
      ensures old(lock).value in log.answers && log.answers[old(lock).value] == answer
    {
      Pause();
      ghost var w := View();
      log := log.(answers := log.answers[lock.value := answer]);
      lock := None;
      pc := Idle;
      StepKeeps(w, HandlerStep);
      assert View() == Next(w, HandlerStep);
    }

    // Takes the mutex, or turns the request away.
    method TryLock() returns (taken: bool)
      requires Inv(View()) && OnlyOthers()
      modifies this
      ensures |turns| <= |old(turns)|
      ensures Inv(View()) && OnlyOthers() && taken == old(lock).None?
      ensures if taken then pc.Draining? && lock == Some(old(log.next))
              else old(log.next) in log.answers && log.answers[old(log.next)].Busy?
    {
      ghost var w := View();
      var a := log.next;
      taken := lock.None?;
      log := log.(next := a + 1);
      if taken {
        lock := Some(a);
        pc := Draining;
      } else {
        log := log.(answers := log.answers[a := Busy]);
      }
      StepKeeps(w, Request);
      assert View() == Next(w, Request);
    }

    // Whatever the other tasks do in between, a request that is answered is answered for itself: with its own
    // first result, or with a timeout after its own wait, or as busy if and only if another held the mutex. A
    // timeout means that its whole patience was spent and that it was not given its token before its wait
    // expired. It is left without an answer only while the stack is held, or a callback runs, that nobody goes
    // on with.
    method CommissionNode(patience: nat) returns (answer: Option<Answer>)
      requires Inv(View()) && OnlyOthers()
      modifies this
      ensures Inv(View()) && OnlyOthers()
      ensures answer == Some(Busy) <==> old(lock).Some?
      ensures answer.Some? ==> old(log.next) in log.answers && log.answers[old(log.next)] == answer.value
      ensures var a := old(log.next);
              match answer
              case None => turns == [] && (callback.Some? || !stackLock.Nobody?)
              case Some(Busy) => true
              case Some(StillPairing) => false
              case Some(Commissioned) => a in log.first && log.first[a].succeeded
              case Some(Failed(error)) => a in log.first && log.first[a] == Result(false, error)
              case Some(TimedOut) =>
                && a in log.expired && a !in log.inTime
                && (turns == [] || |turns| + patience <= |old(turns)|)
    {
      var taken := TryLock();
      if !taken {
        return Some(Busy);
      }
      Arm();
      var going := StartPairing();
      if !going {
        return None;
      }
      var signalled := AwaitSignal(patience);
      var result := TimedOut;
      if signalled {
        result := ReadResult();
      } else {
        going := StopPairing();
        if !going {
          return None;
        }
      }
      assert !result.Busy?;
      Unlock(result);
      return Some(result);
    }

    // -----------------------------------------------------------------------
    // The callback
    // -----------------------------------------------------------------------

    predicate OnlyHandlers()
      reads this
    {
      forall i :: 0 <= i < |turns| ==> ByHandlers(turns[i])
    }

    method PauseCallback()
      requires Inv(View()) && OnlyHandlers()
      modifies this
      ensures Inv(View()) && callback == old(callback) && OnlyHandlers()
    {
      if turns != [] {
        HandlersStay(View(), turns[0]);
        Become(Run(View(), turns[0]));
        turns := turns[1..];
      }
    }

    // One access of the callback, which goes on to its next stage.
    method WriteResult(c: Callback)
      requires Inv(View()) && OnlyHandlers() && callback == Some(c) && c.stage.WritingSucceeded?
      modifies this
      ensures Inv(View()) && OnlyHandlers() && callback == Some(c.(stage := Giving))
    {
      PauseCallback();
      ghost var w := View();
      commissioningSucceeded := c.result.succeeded;
      callback := Some(c.(stage := WritingError));
      StepKeeps(w, CallbackStep);
      assert View() == Next(w, CallbackStep);
      PauseCallback();
      w := View();
      commissioningError := c.result.error;
      callback := Some(c.(stage := Giving));
      StepKeeps(w, CallbackStep);
      assert View() == Next(w, CallbackStep);
    }

    method Give(c: Callback)
      requires Inv(View()) && OnlyHandlers() && callback == Some(c) && c.stage.Giving?
      modifies this
      ensures Inv(View()) && OnlyHandlers() && callback == Some(c.(stage := Returning))
      ensures commissioningDone && lock == Some(c.attempt)
      ensures c.attempt in log.first && View().slot == log.first[c.attempt] == c.result
    {
      PauseCallback();
      ghost var w := View();
      commissioningDone := true;
      log := Given(log, c.attempt);
      callback := Some(c.(stage := Returning));
      StepKeeps(w, CallbackStep);
      assert View() == Next(w, CallbackStep);
    }

    // Whatever the handlers do in between, the one that is woken is the one whose result it is, and it finds
    // the whole result; a result that comes when the flag is down changes nothing and wakes nobody.
    method SignalCommissioningComplete(c: Callback) returns (woken: bool)
      requires Inv(View()) && OnlyHandlers() && callback == Some(c) && c.stage.Exchanging?
      modifies this
      ensures Inv(View()) && OnlyHandlers() && callback == Some(c.(stage := Returning))
      ensures woken == old(commissioningWaiting)
      ensures woken ==> commissioningDone && lock == Some(c.attempt)
      ensures woken ==> c.attempt in log.first && View().slot == log.first[c.attempt] == c.result
      ensures !woken ==> View() == old(View()).(callback := callback)
    {
      ghost var w := View();
      var waiting := commissioningWaiting;
      commissioningWaiting := false;
      callback := Some(c.(stage := if waiting then WritingSucceeded else Returning));
      StepKeeps(w, CallbackStep);
      assert View() == Next(w, CallbackStep);
      if !waiting {
        return false;
      }
      WriteResult(c.(stage := WritingSucceeded));
      Give(c.(stage := Giving));
      return true;
    }
  }
}
