/**
 * Ownership of one Meshtastic client while its constructor runs on a native
 * thread. The thread, the asyncio caller and a late done-callback race; the
 * wrapping task can also be cancelled on its own, for example by loop shutdown,
 * possibly before the executor ever starts the thread. Each step is one lock
 * region or one stretch of code that touches no shared state.
 */
module OwnedInterface {

  datatype Outcome = Client | Nothing | Error

  /** `build`, on the executor's thread. */
  datatype Native =
    | Queued
    | NeverRan
    | Checking
    | Opening
    | Opened
    | Disposing
    | Leaving(result: Outcome)
    | Ended(result: Outcome)

  /** The asyncio task around the thread. */
  datatype Task = Running | Completed(result: Outcome) | TaskCancelled

  datatype Caller =
    | Awaiting
    | Abandoning
    | Registering
    | GotClient
    | RaisedConnectionError
    | RaisedNativeError
    | RaisedCancelled

  /** `retire_late`. */
  datatype Callback = Unregistered | Registered | Holding(client: bool) | Retired

  datatype State = State(
    native: Native,
    task: Task,
    caller: Caller,
    callback: Callback,
    abandoned: bool,
    published: bool,
    constructed: bool,
    closes: nat)

  datatype Step =
    | ThreadStarts
    | ThreadChecks
    | OpenReturns
    | OpenRaises
    | ThreadLocks
    | ThreadDisposes
    | ThreadEnds
    | TaskCompletes
    | CallerResumes
    | CallerAbandons
    | CallerRegisters
    | CallbackPops
    | CallbackDisposes
    | CancelCaller
    | CancelTask
  {
    /** Cancellation comes from outside; nothing forces it to happen. */
    predicate External() {
      CancelCaller? || CancelTask?
    }
  }

  const INIT := State(Queued, Running, Awaiting, Unregistered, false, false, false, 0)

  predicate Enabled(s: State, step: Step) {
    match step
    case ThreadStarts => s.native.Queued?
    case ThreadChecks => s.native.Checking?
    case OpenReturns => s.native.Opening?
    case OpenRaises => s.native.Opening?
    case ThreadLocks => s.native.Opened?
    case ThreadDisposes => s.native.Disposing?
    case ThreadEnds => s.native.Leaving?
    case TaskCompletes => s.task.Running? && s.native.Ended?
    case CallerResumes => s.caller.Awaiting? && !s.task.Running?
    case CallerAbandons => s.caller.Abandoning?
    case CallerRegisters => s.caller.Registering?
    case CallbackPops => s.callback.Registered? && !s.task.Running?
    case CallbackDisposes => s.callback.Holding?
    case CancelCaller => s.caller.Awaiting?
    case CancelTask => s.task.Running?
  }

  function Apply(s: State, step: Step): State
    requires Enabled(s, step)
  {
    match step
    case ThreadStarts => s.(native := Checking)
    case ThreadChecks => s.(native := if s.abandoned then Leaving(Nothing) else Opening)
    case OpenReturns => s.(native := Opened, constructed := true)
    case OpenRaises => s.(native := Leaving(Error))
    case ThreadLocks =>
      if s.abandoned then s.(native := Disposing) else s.(native := Leaving(Client), published := true)
    case ThreadDisposes => s.(native := Leaving(Nothing), closes := s.closes + 1)
    case ThreadEnds => s.(native := Ended(s.native.result))
    case TaskCompletes => s.(task := Completed(s.native.result))
    case CallerResumes =>
      s.(caller := match s.task
                   case Completed(Client) => GotClient
                   case Completed(Nothing) => RaisedConnectionError
                   case Completed(Error) => RaisedNativeError
                   case _ => Abandoning)
    case CallerAbandons => s.(caller := Registering, abandoned := true)
    case CallerRegisters => s.(caller := RaisedCancelled, callback := Registered)
    case CallbackPops => s.(callback := Holding(s.published), published := false)
    case CallbackDisposes =>
      s.(callback := Retired, closes := if s.callback.client then s.closes + 1 else s.closes)
    case CancelCaller => s.(caller := Abandoning)
    case CancelTask => s.(task := TaskCancelled, native := if s.native.Queued? then NeverRan else s.native)
  }

  ghost predicate IsRun(steps: seq<Step>, states: seq<State>) {
    && |states| == |steps| + 1
    && states[0] == INIT
    && forall i :: 0 <= i < |steps| ==> Enabled(states[i], steps[i]) && states[i + 1] == Apply(states[i], steps[i])
  }

  // ----- The invariant ------------------------------------------------------

  /** Where the client is, by how far the native thread has got. */
  predicate Located(s: State) {
    match s.native
    case Opened => s.constructed && s.closes == 0 && !s.published
    case Disposing => s.constructed && s.closes == 0 && !s.published && s.abandoned
    case Leaving(r) => Handed(s, r)
    case Ended(r) => Handed(s, r)
    case _ => !s.constructed && s.closes == 0 && !s.published
  }

  predicate Handed(s: State, r: Outcome) {
    match r
    case Client =>
      && s.constructed
      && (s.published ==> s.closes == 0 && (s.callback.Unregistered? || s.callback.Registered?))
      && (!s.published ==>
            || (s.callback == Holding(true) && s.closes == 0)
            || (s.callback == Retired && s.closes == 1))
    case Nothing => !s.published && s.abandoned && s.closes == (if s.constructed then 1 else 0)
    case Error => !s.constructed && s.closes == 0 && !s.published
  }

  predicate Inv(s: State) {
    && Located(s)
    && (s.abandoned <==> s.caller.Registering? || s.caller.RaisedCancelled?)
    && (s.callback.Unregistered? <==> !s.caller.RaisedCancelled?)
    && (s.callback == Holding(true) ==> s.native.Leaving? || s.native.Ended?)
    && (s.callback == Holding(true) ==> !s.published && s.constructed && s.closes == 0)
    && (s.task.Completed? ==> s.native == Ended(s.task.result))
    && (s.native.NeverRan? ==> s.task.TaskCancelled?)
    && (s.caller.GotClient? ==> s.task == Completed(Client))
    && (s.caller.RaisedNativeError? ==> s.task == Completed(Error))
    && !s.caller.RaisedConnectionError?
  }

  lemma InvStep(s: State, step: Step)
    requires Inv(s) && Enabled(s, step)
    ensures Inv(Apply(s, step))
  {
  }

  lemma {:induction false} RunInv(steps: seq<Step>, states: seq<State>, i: nat)
    requires IsRun(steps, states) && i < |states|
    ensures Inv(states[i])
  {
    if i > 0 {
      RunInv(steps, states, i - 1);
      InvStep(states[i - 1], steps[i - 1]);
    }
  }

  // ----- Results ------------------------------------------------------------

  predicate ThreadFinished(s: State) {
    s.native.Ended? || s.native.NeverRan?
  }

  predicate CallerFinished(s: State) {
    !s.caller.Awaiting? && !s.caller.Abandoning? && !s.caller.Registering?
  }

  predicate CallbackFinished(s: State) {
    s.callback.Unregistered? || s.callback.Retired?
  }

  /** Returned and untouched, or closed once; never both, never neither. */
  predicate AccountedFor(s: State) {
    if s.constructed then s.closes == (if s.caller.GotClient? then 0 else 1)
    else s.closes == 0 && !s.caller.GotClient?
  }

  /** At every moment of every run: no double close, and a returned client is never closed here. */
  lemma NeverClosedTwice(steps: seq<Step>, states: seq<State>, i: nat)
    requires IsRun(steps, states) && i < |states|
    ensures states[i].closes <= 1
    ensures states[i].caller.GotClient? ==> states[i].constructed && states[i].closes == 0
    ensures !states[i].caller.RaisedConnectionError?
  {
    RunInv(steps, states, i);
  }

  /** A client handed to the caller stays open for the rest of the run, whatever is cancelled later. */
  lemma {:induction false} ReturnedStaysOpen(steps: seq<Step>, states: seq<State>, i: nat, j: nat)
    requires IsRun(steps, states) && i <= j < |states| && states[i].caller.GotClient?
    ensures states[j].caller.GotClient? && states[j].closes == 0
    decreases j
  {
    RunInv(steps, states, j);
    if i < j {
      ReturnedStaysOpen(steps, states, i, j - 1);
    }
  }

  /** Nothing is leaked or closed twice once thread, caller and callback are through. */
  lemma SettledIsAccountedFor(steps: seq<Step>, states: seq<State>, i: nat)
    requires IsRun(steps, states) && i < |states|
    requires ThreadFinished(states[i]) && CallerFinished(states[i]) && CallbackFinished(states[i])
    ensures AccountedFor(states[i])
  {
    RunInv(steps, states, i);
  }

  /** Steps still owed by each party. */
  function Remaining(s: State): nat {
    (match s.native
     case Queued => 6
     case Checking => 5
     case Opening => 4
     case Opened => 3
     case Disposing => 2
     case Leaving(_) => 1
     case _ => 0)
    + (if s.task.Running? then 1 else 0)
    + (match s.caller
       case Awaiting => 6
       case Abandoning => 5
       case Registering => 4
       case _ => 0)
    + (match s.callback
       case Registered => 2
       case Holding(_) => 1
       case _ => 0)
  }

  lemma StepSpends(s: State, step: Step)
    requires Enabled(s, step)
    ensures Remaining(Apply(s, step)) < Remaining(s)
  {
  }

  lemma {:induction false} RunSpends(steps: seq<Step>, states: seq<State>, i: nat)
    requires IsRun(steps, states) && i < |states|
    ensures i + Remaining(states[i]) <= 13
  {
    if i > 0 {
      RunSpends(steps, states, i - 1);
      StepSpends(states[i - 1], steps[i - 1]);
    }
  }

  /** Only an outside cancellation could still happen. */
  ghost predicate Stuck(s: State) {
    forall step: Step :: Enabled(s, step) ==> step.External()
  }

  lemma StuckHasNoStep(s: State)
    requires Stuck(s)
    ensures !Enabled(s, ThreadStarts) && !Enabled(s, ThreadChecks) && !Enabled(s, OpenReturns)
    ensures !Enabled(s, ThreadLocks) && !Enabled(s, ThreadDisposes) && !Enabled(s, ThreadEnds)
    ensures !Enabled(s, TaskCompletes) && !Enabled(s, CallerResumes)
    ensures !Enabled(s, CallerAbandons) && !Enabled(s, CallerRegisters)
    ensures !Enabled(s, CallbackPops) && !Enabled(s, CallbackDisposes)
  {
    assert !OpenReturns.External();
  }

  lemma StuckIsFinished(s: State)
    requires Inv(s) && Stuck(s)
    ensures ThreadFinished(s) && CallerFinished(s) && CallbackFinished(s)
  {
    StuckHasNoStep(s);
  }

  /**
   * Every run is short, and one that only an outside cancellation could extend
   * has settled: the client, if any, is with the caller or closed exactly once.
   */
  lemma MaximalRunsSettle(steps: seq<Step>, states: seq<State>)
    requires IsRun(steps, states)
    ensures |steps| <= 13
    ensures Stuck(states[|steps|]) ==>
              && ThreadFinished(states[|steps|])
              && CallerFinished(states[|steps|])
              && CallbackFinished(states[|steps|])
              && AccountedFor(states[|steps|])
  {
    RunSpends(steps, states, |steps|);
    RunInv(steps, states, |steps|);
    if Stuck(states[|steps|]) {
      StuckIsFinished(states[|steps|]);
      SettledIsAccountedFor(steps, states, |steps|);
    }
  }
}
