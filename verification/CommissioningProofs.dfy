/** A commissioning result never crosses attempts: proofs over every interleaving. */
module CommissioningProofs {
  import opened Options
  import opened Commissioning

  // -------------------------------------------------------------------------
  // The invariant
  // -------------------------------------------------------------------------

  // The handler holds the stack lock exactly while it starts or stops the pairing, and a callback is
  // always inside the lock.
  predicate StackInv(w: World) {
    && (w.stack.Handler? <==>
        w.pc.Starting? || w.pc.InStart? || w.pc.StartRefused? || w.pc.Stopping? || w.pc.Stopped?)
    && (w.callback.Some? ==> w.stack.Matter? || w.pc.InStart? || w.pc.Stopping?)
    && (w.current.None? <==> w.pc.Idle?)
  }

  // Where the handler's own attempt may still be running.
  predicate Running(pc: Pc) {
    pc.InStart? || pc.Waiting? || pc.GivingUp? || pc.LockingToStop? || pc.Stopping?
  }

  // Only the attempt of the handler holding the mutex can be running, or be on its way to signal.
  predicate DelegateInv(w: World) {
    && (w.delegate.Some? ==> w.delegate == w.current && Running(w.pc) && w.delegate.value !in w.log.first)
    && (Signalling(w) ==>
          w.current == Some(w.callback.value.attempt) && Running(w.pc) && w.delegate.None?)
    && (!w.pc.StartRefused? && !w.pc.Disarming?)
  }

  predicate Signalling(w: World) {
    w.callback.Some? && !w.callback.value.stage.Returning?
  }

  // The first result of the current attempt is in the slot.
  predicate SlotIsOwn(w: World) {
    && w.current.Some? && w.current.value in w.log.first
    && w.slot == w.log.first[w.current.value]
  }

  predicate CallbackInv(w: World) {
    Signalling(w) ==>
      var c := w.callback.value;
      && c.attempt in w.log.first && w.log.first[c.attempt] == c.result
      && (!c.stage.Exchanging? ==> !w.waiting)
      && (c.stage.WritingError? || c.stage.Giving? ==> w.slot.succeeded == c.result.succeeded)
      && (c.stage.Giving? ==> w.slot.error == c.result.error)
      && !w.done
  }

  // The flag is only up for an attempt that has not signalled, and a token found by a wait was given
  // by the attempt that is waiting.
  predicate TokenInv(w: World) {
    && (w.waiting ==> w.pc.LockingStack? || w.pc.Starting? || w.pc.InStart? || w.pc.Waiting? || w.pc.GivingUp?)
    && (w.waiting && (w.pc.InStart? || w.pc.Waiting? || w.pc.GivingUp?) ==> w.delegate.Some? || Signalling(w))
    && (w.pc.Arming? || w.pc.LockingStack? || w.pc.Starting? ==> !w.done)
    && (w.done && (w.pc.InStart? || w.pc.Waiting?) ==> SlotIsOwn(w) && !w.waiting && w.delegate.None?)
    && (w.pc.ReadingSucceeded? ==> SlotIsOwn(w) && w.delegate.None?)
    && (w.pc.ReadingError? ==> SlotIsOwn(w) && w.delegate.None? && w.pc.succeeded == w.slot.succeeded)
    && (w.delegate.Some? ==> !w.done)
    && (w.current.Some? && w.current.value in w.log.inTime && (w.pc.InStart? || w.pc.Waiting?) ==> w.done)
  }

  // An answer is the attempt's own first result, or says that there was none to give.
  predicate AnswerIsOwn(log: Log, a: Attempt, answer: Answer) {
    match answer
    case Busy => a !in log.first
    case StillPairing => false
    case Commissioned => a in log.first && log.first[a].succeeded
    case Failed(error) => a in log.first && log.first[a] == Result(false, error)
    case TimedOut => a in log.expired && a !in log.inTime
  }

  predicate AnswersInv(log: Log) {
    && (forall a :: a in log.answers ==> a < log.next && AnswerIsOwn(log, a, log.answers[a]))
    && (forall a :: a in log.first ==> a < log.next)
    && (forall a :: a in log.inTime ==> a in log.first && a !in log.expired)
  }

  predicate CurrentInv(w: World) {
    && (w.pc.Releasing? ==>
          w.current.Some? && w.delegate.None? && AnswerIsOwn(w.log, w.current.value, w.pc.answer) && !w.pc.answer.Busy?)
    && (w.current.Some? && w.current.value in w.log.inTime ==>
          w.current.value in w.log.first && w.current.value !in w.log.expired)
    && (w.pc.GivingUp? || w.pc.LockingToStop? || w.pc.Stopping? || w.pc.Stopped? ==>
          w.current.Some? && w.current.value in w.log.expired)
    && (w.current.Some? ==> w.current.value < w.log.next && w.current.value !in w.log.answers)
    && (w.pc.Draining? || w.pc.Arming? || w.pc.LockingStack? || w.pc.Starting? ==>
          w.current.Some? && w.current.value !in w.log.first)
  }

  predicate Control(w: World) {
    StackInv(w) && DelegateInv(w) && CallbackInv(w) && TokenInv(w) && CurrentInv(w)
  }

  predicate Inv(w: World) {
    Control(w) && AnswersInv(w.log)
  }

  // -------------------------------------------------------------------------
  // Every step keeps it
  // -------------------------------------------------------------------------

  lemma ArmKeeps(w: World)
    requires Control(w)
    ensures Control(ArmNext(w))
  {
  }

  lemma StartKeeps(w: World)
    requires Control(w)
    ensures Control(StartNext(w))
  {
  }

  lemma WaitKeeps(w: World)
    requires Control(w)
    ensures Control(WaitNext(w))
  {
  }

  lemma StopKeeps(w: World)
    requires Control(w)
    ensures Control(StopNext(w))
  {
  }

  lemma ReleaseKeeps(w: World)
    requires Control(w)
    ensures Control(ReleaseNext(w))
  {
  }

  lemma WriteKeeps(w: World)
    requires Control(w) && w.callback.Some? && !w.callback.value.stage.Giving?
    ensures Control(CallbackNext(w))
  {
  }

  lemma GiveKeeps(w: World)
    requires Control(w) && w.callback.Some? && w.callback.value.stage.Giving?
    ensures Control(CallbackNext(w))
  {
  }

  lemma CallbackKeeps(w: World)
    requires Control(w)
    ensures Control(CallbackNext(w))
  {
    if w.callback.Some? {
      if w.callback.value.stage.Giving? {
        GiveKeeps(w);
      } else {
        WriteKeeps(w);
      }
    }
  }

  lemma ReportKeeps(w: World, result: Result)
    requires Control(w)
    ensures Control(Next(w, Report(result)))
  {
  }

  lemma HandlerKeeps(w: World)
    requires Inv(w)
    ensures Inv(HandlerNext(w))
  {
    ArmKeeps(w);
    StartKeeps(w);
    WaitKeeps(w);
    StopKeeps(w);
    ReleaseKeeps(w);
  }

  lemma RequestKeeps(w: World)
    requires Inv(w)
    ensures Inv(Next(w, Request))
  {
  }

  lemma StepKeeps(w: World, s: Step)
    requires Inv(w)
    ensures Inv(Next(w, s))
  {
    match s
    case Request => RequestKeeps(w);
    case HandlerStep => HandlerKeeps(w);
    case TimeOut =>
    case EnterStack =>
    case LeaveStack =>
    case Report(result) => ReportKeeps(w, result);
    case CallbackStep => CallbackKeeps(w);
  }

  lemma {:induction false} RunKeeps(w: World, steps: seq<Step>)
    requires Inv(w)
    ensures Inv(Run(w, steps))
  {
    if steps != [] {
      RunKeeps(w, steps[..|steps| - 1]);
      StepKeeps(Run(w, steps[..|steps| - 1]), steps[|steps| - 1]);
    }
  }

  // -------------------------------------------------------------------------
  // What the requests are told
  // -------------------------------------------------------------------------

  // On every interleaving of handlers and callbacks, a request that was let in is answered with the
  // first result of its own attempt, or with a timeout if its wait expired, never with the result of
  // another attempt; a request is only turned away because another one is in progress, never because
  // an earlier attempt left its pairing delegate behind.
  lemma ResultsNeverCross(steps: seq<Step>)
    ensures var log := Run(START, steps).log;
            forall a :: a in log.answers ==>
              match log.answers[a]
              case Commissioned => a in log.first && log.first[a].succeeded
              case Failed(error) => a in log.first && log.first[a] == Result(false, error)
              case TimedOut => a in log.expired
              case Busy => a !in log.first
              case StillPairing => false
  {
    RunKeeps(START, steps);
  }

  // An attempt that was given its token before its wait expired is answered with its result, not with a
  // timeout.
  lemma ResultInTimeIsTheAnswer(steps: seq<Step>, a: Attempt)
    ensures var log := Run(START, steps).log;
            a in log.inTime && a in log.answers ==>
              && a in log.first && a !in log.expired
              && log.answers[a] == if log.first[a].succeeded then Commissioned else Failed(log.first[a].error)
  {
    RunKeeps(START, steps);
  }

  // When a wait finds the token, the slot holds the first result of the attempt that is waiting, and
  // nothing is on its way to overwrite it before it has been read.
  lemma TokenIsOwn(steps: seq<Step>)
    ensures var w := Run(START, steps);
            (w.pc.Waiting? && w.done) || w.pc.ReadingSucceeded? || w.pc.ReadingError? ==>
              w.current.Some? && w.current.value in w.log.first && w.slot == w.log.first[w.current.value]
              && !Signalling(w) && w.delegate.None?
  {
    RunKeeps(START, steps);
  }

  // -------------------------------------------------------------------------
  // Every request can be answered
  // -------------------------------------------------------------------------

  function PcRank(pc: Pc): nat {
    match pc
    case Idle => 0
    case Releasing(_) => 1
    case Stopped => 2
    case Stopping => 3
    case LockingToStop => 4
    case GivingUp => 5
    case ReadingError(_) => 6
    case ReadingSucceeded => 7
    case Waiting => 8
    case Disarming => 9
    case StartRefused => 10
    case InStart => 11
    case Starting => 12
    case LockingStack => 13
    case Arming => 14
    case Draining => 15
  }

  function StageRank(w: World): nat {
    if w.callback.None? then 0
    else
      match w.callback.value.stage
      case Exchanging => 5
      case WritingSucceeded => 4
      case WritingError => 3
      case Giving => 2
      case Returning => 1
  }

  // A step of the program itself that brings the current request closer to its answer.
  function Towards(w: World): Step {
    if w.callback.Some? then CallbackStep
    else if w.stack.Matter? then LeaveStack
    else if w.pc.Waiting? && !w.done then TimeOut
    else HandlerStep
  }

  lemma TowardsProgresses(w: World)
    requires Inv(w) && w.current.Some?
    ensures var m := Next(w, Towards(w));
            && (m.current == w.current || w.current.value in m.log.answers)
            && (PcRank(m.pc) < PcRank(w.pc)
                || (m.pc == w.pc && StageRank(m) < StageRank(w))
                || (m.pc == w.pc && StageRank(m) == StageRank(w) && w.stack.Matter? && !m.stack.Matter?))
  {
  }

  lemma {:induction false} RunPrepend(w: World, s: Step, steps: seq<Step>)
    ensures Run(w, [s] + steps) == Run(Next(w, s), steps)
  {
    if steps == [] {
      assert [s] + steps == [s] && [s][..0] == [];
      assert Run(w, [s]) == Next(Run(w, []), s);
    } else {
      var all := [s] + steps;
      assert all[..|all| - 1] == [s] + steps[..|steps| - 1];
      RunPrepend(w, s, steps[..|steps| - 1]);
    }
  }

  // From every reachable state the program can answer the request in progress by its own steps alone:
  // nothing the commissioner fails to do can leave the mutex or the stack lock held for good.
  lemma {:induction false} NeverStuck(w: World) returns (steps: seq<Step>)
    requires Inv(w) && w.current.Some?
    ensures w.current.value in Run(w, steps).log.answers
    ensures forall s :: s in steps ==> s == CallbackStep || s == LeaveStack || s == TimeOut || s == HandlerStep
    decreases PcRank(w.pc), StageRank(w), w.stack.Matter?
  {
    var s := Towards(w);
    var m := Next(w, s);
    StepKeeps(w, s);
    TowardsProgresses(w);
    if m.current == w.current {
      var rest := NeverStuck(m);
      steps := [s] + rest;
      RunPrepend(w, s, rest);
    } else {
      steps := [s];
      RunPrepend(w, s, []);
      assert [s] + [] == [s];
    }
  }
}
