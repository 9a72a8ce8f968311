/**
 * One native peer process: the reader task appends evidence records, any number
 * of `wait` calls scan the log and park on one shared event, and the supervisor
 * calls `crash` and `stop`, one at a time. A step is the code between two
 * `await`s; what the child, the pipe and the timeouts do is up to the
 * environment. The model starts where `start` has created process and reader.
 */
module PeerSupervisor {
  import opened Results

  /** `IntentionalCrash` records are written by `crash`; the child can choose any kind for its own. */
  datatype Record = Native(kind: string, body: string) | IntentionalCrash(exitCode: int) {
    function Kind(): string {
      if Native? then kind else CRASH_KIND
    }
  }

  const CRASH_KIND := "intentional_crash"
  const ERROR_KIND := "error"
  const WINDOW: nat := 1024

  /** `wants[i]` is the predicate of the i-th `wait` call; `killCode` the exit code of a forced kill. */
  datatype Config = Config(wants: seq<Record -> bool>, killCode: int)

  datatype Waiter =
    | NotCalled
    | Scanning
    | Parked(seen: nat, woken: bool)
    | Found(index: nat)
    | Failed
    | TimedOut

  datatype Supervisor =
    | Idle
    | CrashReaping
    | CrashDraining(code: int)
    | StopAsking
    | StopTerminating
    | StopKilling
    | StopDraining(forced: bool)
    | StopKillingReader
    | StopRaised
    | StopCompleted

  datatype State = State(
    records: seq<Record>,
    failure: bool,
    readerDone: bool,
    returncode: Option<int>,
    expectedExit: Option<int>,
    changed: bool,
    waiters: seq<Waiter>,
    supervisor: Supervisor)
  {
    predicate ErrorReported() {
      exists i :: 0 <= i < |records| && records[i].Kind() == ERROR_KIND
    }

    /** `check` raises. */
    predicate CheckRaises() {
      failure || ErrorReported() || readerDone
    }

    /** `event.set()`: every parked waiter becomes runnable. */
    function Notify(): State {
      this.(changed := true,
      waiters := seq(|waiters|, i requires 0 <= i < |waiters| =>
        if waiters[i].Parked? then waiters[i].(woken := true) else waiters[i]))
    }

    function WithWaiter(w: nat, to: Waiter): State
      requires w < |waiters|
    {
      this.(waiters := waiters[w := to])
    }

    /** `returncode not in (0, self._expected_exit)`, negated; `None` counts as a member of its own. */
    predicate ExitExpected() {
      returncode == Some(0) || returncode == expectedExit
    }
  }

  datatype Step =
    | ReadRecord(record: Record, logged: bool)
    | ReaderFails
    | ReaderEnds
    | ChildExits(code: int)
    | CallWait(w: nat)
    | Scan(w: nat)
    | WakeWaiter(w: nat)
    | WaitTimesOut(w: nat)
    | CrashBegins
    | CrashReaped
    | CrashDrained
    | CrashTimesOut
    | StopBegins
    | StopReaped
    | StopWaitFails
    | StopDrained
    | StopGivesUp

  function Init(cfg: Config): State {
    State([], false, false, None, None, false, seq(|cfg.wants|, _ => NotCalled), Idle)
  }

  function FirstMatch(wants: Record -> bool, records: seq<Record>): (r: Option<nat>)
    ensures r.Some? ==> r.value < |records| && wants(records[r.value])
    ensures r.Some? ==> forall j :: 0 <= j < r.value ==> !wants(records[j])
    ensures r.None? ==> forall j :: 0 <= j < |records| ==> !wants(records[j])
  {
    if records == [] then None
    else
      var n := |records| - 1;
      match FirstMatch(wants, records[..n])
      case Some(i) => Some(i)
      case None => if wants(records[n]) then Some(n) else None
  }

  predicate Enabled(cfg: Config, s: State, step: Step) {
    && |s.waiters| == |cfg.wants|
    && match step {
      case ReadRecord(r, _) => !s.readerDone && r.Native?
      case ReaderFails => !s.readerDone
      case ReaderEnds => !s.readerDone && s.returncode.Some?
      case ChildExits(_) => s.returncode.None?
      case CallWait(w) => w < |s.waiters| && s.waiters[w].NotCalled?
      case Scan(w) => w < |s.waiters| && s.waiters[w].Scanning?
      case WakeWaiter(w) => w < |s.waiters| && s.waiters[w].Parked? && s.waiters[w].woken
      case WaitTimesOut(w) => w < |s.waiters| && s.waiters[w].Parked?
      case CrashBegins => s.supervisor.Idle?
      case CrashReaped => s.supervisor.CrashReaping? && s.returncode.Some?
      case CrashDrained => s.supervisor.CrashDraining? && s.readerDone
      case CrashTimesOut => s.supervisor.CrashReaping? || s.supervisor.CrashDraining?
      case StopBegins => s.supervisor.Idle?
      case StopReaped =>
        (s.supervisor.StopAsking? || s.supervisor.StopTerminating? || s.supervisor.StopKilling?) && s.returncode.Some?
      case StopWaitFails => s.supervisor.StopAsking? || s.supervisor.StopTerminating? || s.supervisor.StopDraining?
      case StopDrained => (s.supervisor.StopDraining? || s.supervisor.StopKillingReader?) && s.readerDone
      case StopGivesUp => s.supervisor.StopKilling? || s.supervisor.StopKillingReader?
    }
  }

  /** One evidence line; a log write that fails after the append ends the stream. */
  function Read(s: State, r: Record, logged: bool): State {
    if |s.records| >= WINDOW then s.(failure := true, readerDone := true).Notify()
    else if logged then s.(records := s.records + [r]).Notify()
    else s.(records := s.records + [r], failure := true, readerDone := true).Notify()
  }

  /** `wait` from `clear()` up to its next suspension. */
  function Scanned(cfg: Config, s: State, w: nat): State
    requires |s.waiters| == |cfg.wants| && w < |s.waiters|
  {
    var cleared := s.(changed := false);
    cleared.WithWaiter(w,
                       if s.CheckRaises() then Failed
                       else match FirstMatch(cfg.wants[w], s.records)
                            case Some(i) => Found(i)
                            case None => Parked(|s.records|, cleared.changed))
  }

  /** The rest of `crash` once the reader has finished. */
  function Crashed(s: State, code: int): State {
    if s.failure || s.ErrorReported() then s.(supervisor := Idle)
    else s.(supervisor := Idle, expectedExit := Some(code), records := s.records + [IntentionalCrash(code)])
  }

  /** The verdict of `stop`. */
  function Judged(s: State, forced: bool): State {
    s.(supervisor :=
    if forced || !s.ExitExpected() || s.failure || s.ErrorReported() then StopRaised else StopCompleted)
  }

  function Apply(cfg: Config, s: State, step: Step): State
    requires Enabled(cfg, s, step)
  {
    match step
    case ReadRecord(r, logged) => Read(s, r, logged)
    case ReaderFails => s.(failure := true, readerDone := true).Notify()
    case ReaderEnds => s.(readerDone := true).Notify()
    case ChildExits(code) => s.(returncode := Some(code))
    case CallWait(w) => s.WithWaiter(w, Scanning)
    case Scan(w) => Scanned(cfg, s, w)
    case WakeWaiter(w) => s.WithWaiter(w, Scanning)
    case WaitTimesOut(w) => s.WithWaiter(w, TimedOut)
    case CrashBegins => if s.CheckRaises() || s.returncode.Some? then s else s.(supervisor := CrashReaping)
    case CrashReaped =>
      s.(supervisor := if s.returncode.value == cfg.killCode then CrashDraining(s.returncode.value) else Idle)
    case CrashDrained => Crashed(s, s.supervisor.code)
    case CrashTimesOut => s.(supervisor := Idle)
    case StopBegins => s.(supervisor := if s.returncode.None? then StopAsking else StopDraining(false))
    case StopReaped => s.(supervisor := StopDraining(!s.supervisor.StopAsking?))
    case StopWaitFails =>
      s.(supervisor := match s.supervisor
                       case StopAsking => if s.returncode.None? then StopTerminating else StopDraining(true)
                       case StopTerminating => StopKilling
                       case _ => StopKillingReader)
    case StopDrained => Judged(s, s.supervisor.StopKillingReader? || s.supervisor.forced)
    case StopGivesUp => s.(supervisor := StopRaised)
  }

  ghost predicate Next(cfg: Config, s: State, step: Step, s': State) {
    Enabled(cfg, s, step) && s' == Apply(cfg, s, step)
  }

  ghost predicate IsRun(cfg: Config, steps: seq<Step>, states: seq<State>) {
    && |states| == |steps| + 1
    && states[0] == Init(cfg)
    && forall i :: 0 <= i < |steps| ==> Next(cfg, states[i], steps[i], states[i + 1])
  }

  // ----- The log ------------------------------------------------------------

  predicate AllNative(records: seq<Record>) {
    forall i :: 0 <= i < |records| ==> records[i].Native?
  }

  /** Without a completed crash the log holds the reader's records; with one, its record closes the log. */
  predicate LogOk(s: State) {
    match s.expectedExit
    case None => AllNative(s.records) && |s.records| <= WINDOW
    case Some(code) =>
      && 1 <= |s.records| <= WINDOW + 1
      && s.records[|s.records| - 1] == IntentionalCrash(code)
      && AllNative(s.records[..|s.records| - 1])
      && s.readerDone && !s.failure && !s.ErrorReported()
      && s.returncode == Some(code)
  }

  predicate SupervisorOk(s: State) {
    match s.supervisor
    case CrashReaping => s.expectedExit.None?
    case CrashDraining(code) => s.expectedExit.None? && s.returncode == Some(code)
    case StopDraining(_) => s.returncode.Some?
    case StopKillingReader => s.returncode.Some?
    case StopCompleted => s.returncode.Some? && s.ExitExpected() && s.readerDone && !s.failure && !s.ErrorReported()
    case _ => true
  }

  lemma LogRead(s: State, r: Record, logged: bool)
    requires LogOk(s) && SupervisorOk(s) && !s.readerDone && r.Native?
    ensures LogOk(Read(s, r, logged)) && SupervisorOk(Read(s, r, logged))
  {
    assert s.expectedExit.None? && !s.supervisor.StopCompleted?;
  }

  lemma LogCrash(s: State, code: int)
    requires LogOk(s) && s.expectedExit.None? && s.returncode == Some(code) && s.readerDone
    ensures LogOk(Crashed(s, code)) && SupervisorOk(Crashed(s, code))
  {
    var s' := Crashed(s, code);
    if s'.expectedExit.Some? {
      assert s'.records[..|s'.records| - 1] == s.records;
      assert s'.records[|s.records|].Kind() == CRASH_KIND;
      assert |CRASH_KIND| != |ERROR_KIND|;
    }
  }

  /** Waiters do not touch what the log invariant speaks of. */
  lemma LogQuiet(s: State, s': State)
    requires LogOk(s) && SupervisorOk(s) && s' == s.(changed := s'.changed, waiters := s'.waiters)
    ensures LogOk(s') && SupervisorOk(s')
  {
    assert s'.ErrorReported() == s.ErrorReported();
  }

  lemma LogReaderStops(s: State, failed: bool)
    requires LogOk(s) && SupervisorOk(s) && !s.readerDone
    ensures var s' := s.(failure := s.failure || failed, readerDone := true); LogOk(s') && SupervisorOk(s')
  {
    assert s.expectedExit.None? && !s.supervisor.StopCompleted?;
  }

  lemma LogSupervised(s: State, supervisor: Supervisor)
    requires LogOk(s) && SupervisorOk(s.(supervisor := supervisor))
    ensures LogOk(s.(supervisor := supervisor))
  {
    assert s.(supervisor := supervisor).ErrorReported() == s.ErrorReported();
  }

  lemma LogJudged(s: State, forced: bool)
    requires LogOk(s) && s.returncode.Some? && s.readerDone
    ensures LogOk(Judged(s, forced)) && SupervisorOk(Judged(s, forced))
  {
    assert Judged(s, forced).ErrorReported() == s.ErrorReported();
  }

  predicate IsCall(step: Step) {
    || step.CrashBegins? || step.CrashReaped? || step.CrashTimesOut? || step.StopBegins? || step.StopReaped?
    || step.StopWaitFails? || step.StopGivesUp?
  }

  lemma LogCall(cfg: Config, s: State, step: Step)
    requires LogOk(s) && SupervisorOk(s) && Enabled(cfg, s, step) && IsCall(step)
    ensures LogOk(Apply(cfg, s, step)) && SupervisorOk(Apply(cfg, s, step))
  {
    var supervisor := Apply(cfg, s, step).supervisor;
    assert Apply(cfg, s, step) == s.(supervisor := supervisor);
    assert s.supervisor.StopCompleted? ==> supervisor == s.supervisor;
    assert s.CheckRaises() || s.expectedExit.None? || step.CrashTimesOut? || !step.CrashBegins?;
    LogSupervised(s, supervisor);
  }

  lemma LogReader(cfg: Config, s: State, step: Step)
    requires LogOk(s) && SupervisorOk(s) && Enabled(cfg, s, step)
    requires step.ReadRecord? || step.ReaderFails? || step.ReaderEnds?
    ensures LogOk(Apply(cfg, s, step)) && SupervisorOk(Apply(cfg, s, step))
  {
    if step.ReadRecord? {
      LogRead(s, step.record, step.logged);
    } else {
      var stopped := s.(failure := s.failure || step.ReaderFails?, readerDone := true);
      LogReaderStops(s, step.ReaderFails?);
      LogQuiet(stopped, stopped.Notify());
    }
  }

  lemma LogStep(cfg: Config, s: State, step: Step)
    requires LogOk(s) && SupervisorOk(s) && Enabled(cfg, s, step)
    ensures LogOk(Apply(cfg, s, step)) && SupervisorOk(Apply(cfg, s, step))
  {
    if IsCall(step) {
      LogCall(cfg, s, step);
    } else if step.ReadRecord? || step.ReaderFails? || step.ReaderEnds? {
      LogReader(cfg, s, step);
    } else if step.ChildExits? {
      LogExit(s, step.code);
    } else if step.CrashDrained? {
      LogCrash(s, s.supervisor.code);
    } else if step.StopDrained? {
      LogJudged(s, s.supervisor.StopKillingReader? || s.supervisor.forced);
    } else {
      LogQuiet(s, Apply(cfg, s, step));
    }
  }

  lemma LogExit(s: State, code: int)
    requires LogOk(s) && SupervisorOk(s) && s.returncode.None?
    ensures LogOk(s.(returncode := Some(code))) && SupervisorOk(s.(returncode := Some(code)))
  {
    assert s.expectedExit.None? && !s.supervisor.StopCompleted?;
  }

  // ----- Waiters ------------------------------------------------------------

  ghost predicate WaiterOk(cfg: Config, s: State, w: nat)
    requires w < |s.waiters| == |cfg.wants|
  {
    match s.waiters[w]
    case Parked(seen, woken) =>
      !woken ==>
        && seen == |s.records|
        && !s.CheckRaises()
        && forall i :: 0 <= i < |s.records| ==> !cfg.wants[w](s.records[i])
    case Found(index) =>
      && index < |s.records|
      && cfg.wants[w](s.records[index])
      && forall i :: 0 <= i < index ==> !cfg.wants[w](s.records[i])
    case _ => true
  }

  ghost predicate Inv(cfg: Config, s: State) {
    && |s.waiters| == |cfg.wants|
    && LogOk(s)
    && SupervisorOk(s)
    && forall w :: 0 <= w < |s.waiters| ==> WaiterOk(cfg, s, w)
  }

  lemma SameRaises(s: State, s': State)
    requires s'.records == s.records && s'.failure == s.failure && s'.readerDone == s.readerDone
    ensures s'.CheckRaises() == s.CheckRaises()
  {
  }

  /** A waiter that is not running keeps its view, unless something changes behind its back without a wake-up. */
  lemma WaiterKept(cfg: Config, s: State, s': State, w: nat)
    requires w < |s.waiters| == |s'.waiters| == |cfg.wants| && WaiterOk(cfg, s, w)
    requires s.records <= s'.records
    requires if s.waiters[w].Parked? then s'.waiters[w].Parked? && s'.waiters[w].seen == s.waiters[w].seen
             else s'.waiters[w] == s.waiters[w]
    requires s'.waiters[w].Parked? && !s'.waiters[w].woken ==>
               !s.waiters[w].woken && s'.records == s.records && s'.CheckRaises() == s.CheckRaises()
    ensures WaiterOk(cfg, s', w)
  {
  }

  predicate OwnStep(step: Step, w: nat) {
    step == CallWait(w) || step == Scan(w) || step == WakeWaiter(w) || step == WaitTimesOut(w)
  }

  lemma WaiterOwn(cfg: Config, s: State, step: Step, w: nat)
    requires Enabled(cfg, s, step) && w < |cfg.wants| && OwnStep(step, w)
    ensures |Apply(cfg, s, step).waiters| == |cfg.wants|
    ensures WaiterOk(cfg, Apply(cfg, s, step), w)
  {
    SameRaises(s, Apply(cfg, s, step));
  }

  lemma WaiterOther(cfg: Config, s: State, step: Step, w: nat)
    requires Enabled(cfg, s, step) && w < |cfg.wants| && !OwnStep(step, w) && WaiterOk(cfg, s, w)
    requires step.CrashDrained? ==> s.readerDone
    ensures |Apply(cfg, s, step).waiters| == |cfg.wants|
    ensures WaiterOk(cfg, Apply(cfg, s, step), w)
  {
    var s' := Apply(cfg, s, step);
    AppendOnly(cfg, s, step);
    if s'.records == s.records && s'.failure == s.failure && s'.readerDone == s.readerDone {
      SameRaises(s, s');
    }
    WaiterKept(cfg, s, s', w);
  }

  lemma WaiterStep(cfg: Config, s: State, step: Step, w: nat)
    requires Inv(cfg, s) && Enabled(cfg, s, step) && w < |cfg.wants|
    ensures |Apply(cfg, s, step).waiters| == |cfg.wants|
    ensures WaiterOk(cfg, Apply(cfg, s, step), w)
  {
    assert WaiterOk(cfg, s, w);
    if OwnStep(step, w) {
      WaiterOwn(cfg, s, step, w);
    } else {
      WaiterOther(cfg, s, step, w);
    }
  }

  lemma AppendOnly(cfg: Config, s: State, step: Step)
    requires Enabled(cfg, s, step)
    ensures s.records <= Apply(cfg, s, step).records
  {
  }

  lemma InvStep(cfg: Config, s: State, step: Step)
    requires Inv(cfg, s) && Enabled(cfg, s, step)
    ensures Inv(cfg, Apply(cfg, s, step))
  {
    LogStep(cfg, s, step);
    forall w | 0 <= w < |s.waiters|
      ensures |Apply(cfg, s, step).waiters| == |cfg.wants| && WaiterOk(cfg, Apply(cfg, s, step), w)
    {
      WaiterStep(cfg, s, step, w);
    }
  }

  lemma {:induction false} RunInv(cfg: Config, steps: seq<Step>, states: seq<State>, i: nat)
    requires IsRun(cfg, steps, states) && i < |states|
    ensures Inv(cfg, states[i])
  {
    if i > 0 {
      RunInv(cfg, steps, states, i - 1);
      InvStep(cfg, states[i - 1], steps[i - 1]);
    }
  }

  // ----- Results ------------------------------------------------------------

  /**
   * A parked waiter with no wake-up pending has scanned every record there is,
   * found no match, and has missed neither a failure nor the end of the stream.
   */
  lemma NoMissedEvidence(cfg: Config, steps: seq<Step>, states: seq<State>, i: nat, w: nat)
    requires IsRun(cfg, steps, states) && i < |states| && w < |cfg.wants|
    requires |states[i].waiters| == |cfg.wants| && states[i].waiters[w].Parked? && !states[i].waiters[w].woken
    ensures states[i].waiters[w].seen == |states[i].records|
    ensures forall k :: 0 <= k < |states[i].records| ==> !cfg.wants[w](states[i].records[k])
    ensures !states[i].failure && !states[i].ErrorReported() && !states[i].readerDone
  {
    RunInv(cfg, steps, states, i);
    assert WaiterOk(cfg, states[i], w);
  }

  lemma FoundStep(cfg: Config, s: State, step: Step, s': State, w: nat)
    requires Next(cfg, s, step, s') && w < |s.waiters| && s.waiters[w].Found?
    ensures |s'.waiters| == |s.waiters| && s'.waiters[w] == s.waiters[w]
    ensures s.records <= s'.records
  {
    AppendOnly(cfg, s, step);
  }

  lemma FirstMatchIs(wants: Record -> bool, records: seq<Record>, index: nat)
    requires index < |records| && wants(records[index]) && forall k :: 0 <= k < index ==> !wants(records[k])
    ensures FirstMatch(wants, records) == Some(index)
  {
    var found := FirstMatch(wants, records);
    assert found.Some? && !(found.value < index) && !(index < found.value);
  }

  /** What a wait returns is the earliest match of the whole log, then and at any later time. */
  lemma {:induction false} FoundStaysEarliest(cfg: Config, steps: seq<Step>, states: seq<State>, i: nat, j: nat, w: nat)
    requires IsRun(cfg, steps, states) && i <= j < |states| && w < |cfg.wants|
    requires |states[i].waiters| == |cfg.wants| && states[i].waiters[w].Found?
    ensures |states[j].waiters| == |cfg.wants| && states[j].waiters[w] == states[i].waiters[w]
    ensures states[i].records <= states[j].records
    ensures FirstMatch(cfg.wants[w], states[j].records) == Some(states[i].waiters[w].index)
    decreases j
  {
    if i < j {
      FoundStaysEarliest(cfg, steps, states, i, j - 1, w);
      assert Next(cfg, states[j - 1], steps[j - 1], states[j - 1 + 1]);
      FoundStep(cfg, states[j - 1], steps[j - 1], states[j], w);
      Chain(states[i].records, states[j - 1].records, states[j].records);
    }
    RunInv(cfg, steps, states, j);
    EarliestNow(cfg, states[j], w);
  }

  lemma EarliestNow(cfg: Config, s: State, w: nat)
    requires Inv(cfg, s) && w < |cfg.wants| && s.waiters[w].Found?
    ensures FirstMatch(cfg.wants[w], s.records) == Some(s.waiters[w].index)
  {
    assert WaiterOk(cfg, s, w);
    FirstMatchIs(cfg.wants[w], s.records, s.waiters[w].index);
  }

  lemma Chain(a: seq<Record>, b: seq<Record>, c: seq<Record>)
    requires a <= b && b <= c
    ensures a <= c
  {
  }

  /** The log never exceeds 1025 records, and only its last one can come from `crash`. */
  lemma LogIsBounded(cfg: Config, steps: seq<Step>, states: seq<State>, i: nat)
    requires IsRun(cfg, steps, states) && i < |states|
    ensures |states[i].records| <= WINDOW + 1
    ensures forall k :: 0 <= k < |states[i].records| && states[i].records[k].IntentionalCrash? ==>
                          k == |states[i].records| - 1 && states[i].expectedExit == Some(states[i].records[k].exitCode)
  {
    RunInv(cfg, steps, states, i);
    var s := states[i];
    if s.records != [] {
      var front := s.records[..|s.records| - 1];
      assert forall k :: 0 <= k < |front| ==> s.records[k] == front[k];
    }
  }

  /** Nothing had to be forced on the way to this state. */
  predicate Unforced(supervisor: Supervisor) {
    || supervisor.Idle? || supervisor.CrashReaping? || supervisor.CrashDraining?
    || supervisor.StopAsking? || supervisor == StopDraining(false) || supervisor.StopCompleted?
  }

  predicate ForcedStep(step: Step) {
    step.StopWaitFails? || step.StopGivesUp?
  }

  lemma UnforcedStep(cfg: Config, s: State, step: Step, s': State)
    requires Next(cfg, s, step, s') && Unforced(s'.supervisor)
    ensures Unforced(s.supervisor) && !ForcedStep(step)
  {
  }

  lemma {:induction false} NothingForced(cfg: Config, steps: seq<Step>, states: seq<State>, i: nat)
    requires IsRun(cfg, steps, states) && i < |states| && Unforced(states[i].supervisor)
    ensures forall j :: 0 <= j < i ==> !ForcedStep(steps[j])
  {
    if i > 0 {
      assert Next(cfg, states[i - 1], steps[i - 1], states[i - 1 + 1]);
      UnforcedStep(cfg, states[i - 1], steps[i - 1], states[i]);
      NothingForced(cfg, steps, states, i - 1);
    }
  }

  /**
   * `stop` completes normally only after a clean run: nothing was ever forced, and
   * the child was reaped with code 0 or with the code its own `crash` wrote as the
   * last record.
   */
  lemma CompletedMeansClean(cfg: Config, steps: seq<Step>, states: seq<State>, i: nat)
    requires IsRun(cfg, steps, states) && i < |states| && states[i].supervisor.StopCompleted?
    ensures states[i].readerDone && !states[i].failure && !states[i].ErrorReported()
    ensures states[i].returncode.Some?
    ensures states[i].returncode == Some(0)
         || (states[i].records != []
             && states[i].records[|states[i].records| - 1] == IntentionalCrash(states[i].returncode.value))
    ensures forall j :: 0 <= j < i ==> !ForcedStep(steps[j])
  {
    RunInv(cfg, steps, states, i);
    NothingForced(cfg, steps, states, i);
  }

  /** The verdict exactly: nothing was forced, the exit is expected, and the evidence is whole. */
  lemma VerdictExact(cfg: Config, steps: seq<Step>, states: seq<State>, i: nat)
    requires IsRun(cfg, steps, states) && i < |steps| && !states[i].supervisor.StopCompleted?
    ensures states[i + 1].supervisor.StopCompleted? <==>
              && steps[i] == StopDrained
              && states[i].supervisor == StopDraining(false)
              && !states[i].failure && !states[i].ErrorReported()
              && states[i].returncode.Some?
              && (states[i].returncode.value == 0 || states[i].expectedExit == states[i].returncode)
  {
    RunInv(cfg, steps, states, i);
  }

  lemma CrashedStep(cfg: Config, s: State, step: Step, s': State)
    requires Next(cfg, s, step, s') && LogOk(s) && s.expectedExit.Some?
    requires !s.supervisor.CrashReaping? && !s.supervisor.CrashDraining?
    ensures s'.records == s.records && s'.expectedExit == s.expectedExit
    ensures !s'.supervisor.CrashReaping? && !s'.supervisor.CrashDraining?
  {
    assert s.CheckRaises();
  }

  /** A crash is recorded at most once: the first success makes every later attempt raise. */
  lemma {:induction false} CrashIsFinal(cfg: Config, steps: seq<Step>, states: seq<State>, i: nat, j: nat)
    requires IsRun(cfg, steps, states) && i <= j < |states| && states[i].expectedExit.Some?
    ensures states[j].records == states[i].records && states[j].expectedExit == states[i].expectedExit
    ensures !states[j].supervisor.CrashReaping? && !states[j].supervisor.CrashDraining?
    decreases j
  {
    if i < j {
      CrashIsFinal(cfg, steps, states, i, j - 1);
      RunInv(cfg, steps, states, j - 1);
      assert Next(cfg, states[j - 1], steps[j - 1], states[j - 1 + 1]);
      CrashedStep(cfg, states[j - 1], steps[j - 1], states[j]);
    } else {
      RunInv(cfg, steps, states, j);
    }
  }

  // ----- Forged crash records -----------------------------------------------

  function OfKind(records: seq<Record>, kind: string): nat {
    if records == [] then 0
    else OfKind(records[..|records| - 1], kind) + (if records[|records| - 1].Kind() == kind then 1 else 0)
  }

  /** Records of the crash kind that the child printed itself. */
  function Forged(records: seq<Record>): nat {
    if records == [] then 0
    else
      var last := records[|records| - 1];
      Forged(records[..|records| - 1]) + (if last.Native? && last.kind == CRASH_KIND then 1 else 0)
  }

  lemma {:induction false} NativeKinds(records: seq<Record>)
    requires AllNative(records)
    ensures OfKind(records, CRASH_KIND) == Forged(records)
  {
    if records != [] {
      NativeKinds(records[..|records| - 1]);
    }
  }

  lemma CrashKinds(s: State)
    requires LogOk(s)
    ensures OfKind(s.records, CRASH_KIND) == Forged(s.records) + (if s.expectedExit.Some? then 1 else 0)
  {
    if s.expectedExit.Some? {
      NativeKinds(s.records[..|s.records| - 1]);
    } else {
      NativeKinds(s.records);
    }
  }

  /** This step takes a record of the crash kind from the child into the log. */
  predicate Forges(s: State, step: Step) {
    step.ReadRecord? && step.record.Kind() == CRASH_KIND && |s.records| < WINDOW
  }

  /** How often the child printed such a record in the first `i` steps. */
  function Forgeries(steps: seq<Step>, states: seq<State>, i: nat): nat
    requires i <= |steps| && i < |states|
  {
    if i == 0 then 0
    else Forgeries(steps, states, i - 1) + (if Forges(states[i - 1], steps[i - 1]) then 1 else 0)
  }

  lemma ForgedAppend(records: seq<Record>, r: Record)
    ensures Forged(records + [r]) == Forged(records) + (if r.Native? && r.kind == CRASH_KIND then 1 else 0)
  {
    assert (records + [r])[..|records|] == records;
  }

  lemma ForgedStep(cfg: Config, s: State, step: Step, s': State)
    requires Next(cfg, s, step, s')
    ensures Forged(s'.records) == Forged(s.records) + (if Forges(s, step) then 1 else 0)
  {
    if step.ReadRecord? {
      ForgedAppend(s.records, step.record);
    } else if step.CrashDrained? {
      ForgedAppend(s.records, IntentionalCrash(s.supervisor.code));
    } else {
      assert s'.records == s.records;
    }
  }

  lemma {:induction false} ForgedOverRun(cfg: Config, steps: seq<Step>, states: seq<State>, i: nat)
    requires IsRun(cfg, steps, states) && i < |states|
    ensures Forged(states[i].records) == Forgeries(steps, states, i)
  {
    if i > 0 {
      ForgedOverRun(cfg, steps, states, i - 1);
      assert Next(cfg, states[i - 1], steps[i - 1], states[i - 1 + 1]);
      ForgedStep(cfg, states[i - 1], steps[i - 1], states[i]);
    }
  }

  /**
   * Kinds are not authenticated. In every state of every run the log holds one
   * record of the crash kind for each that the child printed, and one more once a
   * crash has succeeded; so there is at most one if and only if the child printed
   * none, or one and no crash has succeeded.
   */
  lemma CrashKindUnique(cfg: Config, steps: seq<Step>, states: seq<State>, i: nat)
    requires IsRun(cfg, steps, states) && i < |states|
    ensures OfKind(states[i].records, CRASH_KIND)
         == Forgeries(steps, states, i) + (if states[i].expectedExit.Some? then 1 else 0)
    ensures OfKind(states[i].records, CRASH_KIND) <= 1 <==>
            Forgeries(steps, states, i) == 0 || (Forgeries(steps, states, i) == 1 && states[i].expectedExit.None?)
  {
    RunInv(cfg, steps, states, i);
    CrashKinds(states[i]);
    ForgedOverRun(cfg, steps, states, i);
  }

  /** Extends a run by one step. */
  lemma Extend(cfg: Config, steps: seq<Step>, states: seq<State>, step: Step) returns (more: seq<Step>, all: seq<State>)
    requires IsRun(cfg, steps, states) && Enabled(cfg, states[|steps|], step)
    ensures IsRun(cfg, more, all) && all[|more|] == Apply(cfg, states[|steps|], step)
  {
    more, all := steps + [step], states + [Apply(cfg, states[|steps|], step)];
  }

  /** A child that prints a record of the crash kind makes two of them appear. */
  lemma ForgedCrashKind(cfg: Config)
    ensures exists steps: seq<Step>, states: seq<State> ::
              IsRun(cfg, steps, states) && OfKind(states[|steps|].records, CRASH_KIND) == 2
  {
    var forged := Native(CRASH_KIND, "");
    var steps, states := Extend(cfg, [], [Init(cfg)], ReadRecord(forged, true));
    var s := states[|steps|];
    assert s.records == [forged] && |CRASH_KIND| != |ERROR_KIND|;
    assert !s.ErrorReported();
    steps, states := Extend(cfg, steps, states, CrashBegins);
    steps, states := Extend(cfg, steps, states, ChildExits(cfg.killCode));
    steps, states := Extend(cfg, steps, states, ReaderEnds);
    steps, states := Extend(cfg, steps, states, CrashReaped);
    ForgedTail(cfg, steps, states, forged);
  }

  lemma ForgedTail(cfg: Config, steps: seq<Step>, states: seq<State>, forged: Record)
    requires IsRun(cfg, steps, states) && Enabled(cfg, states[|steps|], CrashDrained)
    requires states[|steps|].records == [forged] && forged.Kind() == CRASH_KIND
    requires !states[|steps|].failure && !states[|steps|].ErrorReported()
    ensures exists steps: seq<Step>, states: seq<State> ::
              IsRun(cfg, steps, states) && OfKind(states[|steps|].records, CRASH_KIND) == 2
  {
    var more, all := Extend(cfg, steps, states, CrashDrained);
    var records := all[|more|].records;
    assert [forged][..0] == [] && OfKind([forged], CRASH_KIND) == 1;
    assert records[..|records| - 1] == [forged] && OfKind(records, CRASH_KIND) == 2;
  }
}
