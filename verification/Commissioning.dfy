/**
  The commissioning handshake of app_main.cpp: HTTP handlers and the Matter task share an atomic
  flag, a one-token semaphore, a slot for the result, a mutex and the chip-stack lock. Every shared
  access is a step of its own and the steps of the two sides interleave freely.
  */
module Commissioning {
  import opened Options

  // Every request to commission is an attempt of its own.
  type Attempt = nat

  datatype Result = Result(succeeded: bool, error: nat)

  datatype Answer =
    | Busy                  // 409: another request holds the mutex
    | StillPairing          // 409: the commissioner still has a pairing delegate
    | Commissioned
    | Failed(error: nat)    // 502
    | TimedOut              // 504

  // Where the handler that holds the mutex has got to.
  datatype Pc =
    | Idle
    | Draining
    | Arming
    | LockingStack
    | Starting
    | InStart                      // the pairing call, inside the stack lock
    | StartRefused                 // likewise, when the call is about to return an error
    | Disarming
    | Waiting
    | ReadingSucceeded
    | ReadingError(succeeded: bool)
    | GivingUp
    | LockingToStop
    | Stopping                     // inside the stack lock again
    | Stopped
    | Releasing(answer: Answer)

  datatype Stage = Exchanging | WritingSucceeded | WritingError | Giving | Returning

  // A pairing callback on its way through signal_commissioning_complete.
  datatype Callback = Callback(attempt: Attempt, result: Result, stage: Stage)

  datatype Owner = Nobody | Handler | Matter

  // The history: the attempts so far, the first result each one reported, what each request was
  // answered, the attempts whose wait expired, and those given their token before it did.
  datatype Log = Log(next: Attempt, first: map<Attempt, Result>, answers: map<Attempt, Answer>,
                     expired: set<Attempt>, inTime: set<Attempt>)

  datatype World = World(current: Option<Attempt>, pc: Pc, done: bool, waiting: bool, slot: Result,
                         stack: Owner, delegate: Option<Attempt>, callback: Option<Callback>, log: Log)

  datatype Step =
    | Request                   // a request arrives and tries the mutex
    | HandlerStep               // the handler holding the mutex takes its next step
    | TimeOut                   // its wait expires with no token
    | EnterStack                // the Matter task takes the stack lock
    | LeaveStack
    | Report(result: Result)    // the registered delegate is called with a result
    | CallbackStep

  const START := World(None, Idle, false, false, Result(false, 0), Nobody, None, None, Log(0, map[], map[], {}, {}))

  // Arming the wait: the token of an earlier attempt is drained, then the flag goes up.
  function ArmNext(w: World): World {
    if w.pc.Draining? then w.(done := false, pc := Arming)
    else if w.pc.Arming? then w.(waiting := true, pc := LockingStack)
    else w
  }

  // Starting the pairing under the stack lock.
  function StartNext(w: World): World {
    if w.pc.LockingStack? then
      if w.stack.Nobody? then w.(stack := Handler, pc := Starting) else w
    else if w.pc.Starting? then
      if w.delegate.Some? then w.(pc := StartRefused) else w.(delegate := w.current, pc := InStart)
    else if w.pc.InStart? then
      if w.callback.None? then w.(stack := Nobody, pc := Waiting) else w
    else if w.pc.StartRefused? then w.(stack := Nobody, pc := Disarming)
    else if w.pc.Disarming? then w.(waiting := false, pc := Releasing(StillPairing))
    else w
  }

  // Waiting for the token and reading the result.
  function WaitNext(w: World): World {
    if w.pc.Waiting? then
      if w.done then w.(done := false, pc := ReadingSucceeded) else w
    else if w.pc.ReadingSucceeded? then w.(pc := ReadingError(w.slot.succeeded))
    else if w.pc.ReadingError? then w.(pc := Releasing(if w.pc.succeeded then Commissioned else Failed(w.slot.error)))
    else w
  }

  // Giving up: the flag goes down and the pairing is stopped under the stack lock.
  function StopNext(w: World): World {
    if w.pc.GivingUp? then w.(waiting := false, pc := LockingToStop)
    else if w.pc.LockingToStop? then
      if w.stack.Nobody? then w.(stack := Handler, pc := Stopping) else w
    else if w.pc.Stopping? then
      if w.callback.None? then w.(delegate := None, pc := Stopped) else w
    else if w.pc.Stopped? then w.(stack := Nobody, pc := Releasing(TimedOut))
    else w
  }

  // Giving the mutex back and answering the request.
  function ReleaseNext(w: World): World {
    if w.pc.Releasing? && w.current.Some?
    then w.(log := w.log.(answers := w.log.answers[w.current.value := w.pc.answer]), current := None, pc := Idle)
    else w
  }

  // The handler is at one place at a time, so at most one of these takes a step.
  function HandlerNext(w: World): World {
    if w.pc.Draining? || w.pc.Arming? then ArmNext(w)
    else if w.pc.LockingStack? || w.pc.Starting? || w.pc.InStart? || w.pc.StartRefused? || w.pc.Disarming?
    then StartNext(w)
    else if w.pc.Waiting? || w.pc.ReadingSucceeded? || w.pc.ReadingError? then WaitNext(w)
    else if w.pc.Releasing? then ReleaseNext(w)
    else StopNext(w)
  }

  // The first thing every callback does is unregister the delegate.
  function Reported(w: World, result: Result): World
    requires w.delegate.Some?
  {
    var a := w.delegate.value;
    w.(delegate := None, callback := Some(Callback(a, result, Exchanging)),
       log := if a in w.log.first then w.log else w.log.(first := w.log.first[a := result]))
  }

  function Given(log: Log, a: Attempt): Log {
    if a in log.expired then log else log.(inTime := log.inTime + {a})
  }

  function CallbackNext(w: World): World {
    if w.callback.None? then w
    else
      var c := w.callback.value;
      match c.stage
      case Exchanging =>
        w.(waiting := false, callback := Some(c.(stage := if w.waiting then WritingSucceeded else Returning)))
      case WritingSucceeded =>
        w.(slot := w.slot.(succeeded := c.result.succeeded), callback := Some(c.(stage := WritingError)))
      case WritingError => w.(slot := w.slot.(error := c.result.error), callback := Some(c.(stage := Giving)))
      case Giving => w.(done := true, log := Given(w.log, c.attempt), callback := Some(c.(stage := Returning)))
      case Returning => w.(callback := None)
  }

  function Expired(w: World): World {
    w.(pc := GivingUp, log := if w.current.Some? then w.log.(expired := w.log.expired + {w.current.value}) else w.log)
  }

  // A step that is not possible leaves everything as it is.
  function Next(w: World, s: Step): World {
    match s
    case Request =>
      var a := w.log.next;
      if w.current.Some? then w.(log := w.log.(next := a + 1, answers := w.log.answers[a := Busy]))
      else w.(log := w.log.(next := a + 1), current := Some(a), pc := Draining)
    case HandlerStep => HandlerNext(w)
    case TimeOut => if w.pc.Waiting? && !w.done then Expired(w) else w
    case EnterStack => if w.stack.Nobody? then w.(stack := Matter) else w
    case LeaveStack => if w.stack.Matter? && w.callback.None? then w.(stack := Nobody) else w
    case Report(result) =>
      // On the Matter task, or from inside a call the handler makes under the stack lock.
      if w.callback.None? && w.delegate.Some? && (w.stack.Matter? || w.pc.InStart? || w.pc.Stopping?)
      then Reported(w, result) else w
    case CallbackStep => CallbackNext(w)
  }

  function Run(w: World, steps: seq<Step>): World {
    if steps == [] then w else Next(Run(w, steps[..|steps| - 1]), steps[|steps| - 1])
  }
}
