/** The promises of the mixed workload, over every run of every scheduler. */
module WorkloadResults {
  import opened Counting
  import opened Workload
  import opened WorkloadSafety

  // ----- Safety -------------------------------------------------------------

  /** A claimer returns only when production is over and nothing is left to claim. */
  lemma ReturnMeansDrained(cfg: Config, steps: seq<Step>, states: seq<State>, i: nat, c: nat)
    requires cfg.Runnable() && IsRun(cfg, steps, states) && i < |states| && c < cfg.workers
    requires Shaped(cfg, states[i]) && states[i].claimers[c].Returned?
    ensures states[i].Pending() == {} && states[i].created == cfg.Rows()
  {
    var s := states[i];
    RunInv(cfg, steps, states, i);
    assert ViewOk(s, s.claimers[c], s.empties[c]);
    Complete(cfg, s);
  }

  lemma Complete(cfg: Config, s: State)
    requires Inv(cfg, s) && s.finished
    ensures s.created == s.announced == cfg.Rows() && s.admitted == Below(cfg.events)
  {
    forall r: Row | r in cfg.Rows()
      ensures r in s.created && r in s.announced
    {
      assert cfg.Holds(r) && Owner(cfg, s, r.0).Exhausted?;
    }
    forall o: nat | o < cfg.events
      ensures o in s.admitted
    {
      assert Owner(cfg, s, o).Exhausted?;
    }
    AnnouncedWasCreated(cfg, s);
  }

  /** Once every claimer has returned, each row was recorded exactly once and the closing check passes. */
  lemma ExactlyOnce(cfg: Config, steps: seq<Step>, states: seq<State>, i: nat)
    requires cfg.Runnable() && IsRun(cfg, steps, states) && i < |states| && AllReturned(states[i])
    ensures states[i].recorded == cfg.Rows()
    ensures Sum(states[i].byWorker) == cfg.RowCount()
    ensures states[i].admitted == Below(cfg.events)
    ensures AccountingPasses(cfg, states[i])
  {
    RunInv(cfg, steps, states, i);
    var s := states[i];
    assert ViewOk(s, s.claimers[0], s.empties[0]);
    Complete(cfg, s);
    assert forall c, r :: !InFlight(s, c, r);
    assert s.recorded == cfg.Rows();
    RowsSize(cfg);
  }

  lemma NeverTwice(cfg: Config, s: State, step: Step)
    requires Inv(cfg, s) && Enabled(cfg, s, step)
    ensures forall c :: 0 <= c < |s.claimers| ==> !s.claimers[c].DuplicateOwnership?
    ensures step.Create? ==> |Apply(cfg, s, step).created| == |s.created| + 1
    ensures step.Claim? ==> s.claimed !! step.batch
  {
    forall c | 0 <= c < |s.claimers|
      ensures !s.claimers[c].DuplicateOwnership?
    {
      assert ViewOk(s, s.claimers[c], s.empties[c]);
    }
    if step.Create? {
      ProductionCreate(cfg, s, step.p);
    }
  }

  /** No claimer ever meets a row that is already recorded, and no row is created or claimed twice. */
  lemma NoDuplicates(cfg: Config, steps: seq<Step>, states: seq<State>, i: nat)
    requires cfg.Runnable() && IsRun(cfg, steps, states) && i < |steps|
    ensures forall c :: 0 <= c < |states[i].claimers| ==> !states[i].claimers[c].DuplicateOwnership?
    ensures steps[i].Create? ==> |states[i + 1].created| == |states[i].created| + 1
    ensures steps[i].Claim? ==> states[i].claimed !! steps[i].batch
  {
    RunInv(cfg, steps, states, i);
    NeverTwice(cfg, states[i], steps[i]);
  }

  // ----- Wake-ups and deadlock ----------------------------------------------

  /**
   * A claimer parked with no wake-up pending has missed nothing: production is
   * not over, everything announced is claimed, and an unclaimed row belongs to a
   * producer that is just about to announce it.
   */
  lemma NoLostWakeup(cfg: Config, steps: seq<Step>, states: seq<State>, i: nat, c: nat)
    requires cfg.Runnable() && IsRun(cfg, steps, states) && i < |states| && c < cfg.workers
    requires Shaped(cfg, states[i]) && states[i].claimers[c].Waiting? && !states[i].claimers[c].notified
    ensures !states[i].finished && states[i].generation == states[i].claimers[c].observed
    ensures states[i].announced <= states[i].claimed
    ensures forall r :: r in states[i].Pending() ==>
                          exists p :: 0 <= p < cfg.producers && states[i].producers[p] == Announcing(r.0, r.1)
  {
    RunInv(cfg, steps, states, i);
    var s := states[i];
    assert ViewOk(s, s.claimers[c], s.empties[c]);
    forall r | r in s.Pending()
      ensures exists p :: 0 <= p < cfg.producers && s.producers[p] == Announcing(r.0, r.1)
    {
      assert r !in s.announced;
      assert s.producers[r.0 % cfg.producers] == Announcing(r.0, r.1);
    }
  }

  /** Some step is possible until every claimer has returned; then none is. */
  lemma NoDeadlock(cfg: Config, s: State)
    requires Inv(cfg, s)
    ensures AllReturned(s) <==> !exists step :: Enabled(cfg, s, step)
  {
    if AllReturned(s) {
      forall step: Step
        ensures !Enabled(cfg, s, step)
      {
        assert ViewOk(s, s.claimers[0], s.empties[0]);
      }
    } else {
      var step := SomeStep(cfg, s);
      assert Enabled(cfg, s, step);
    }
  }

  lemma SomeStep(cfg: Config, s: State) returns (step: Step)
    requires Inv(cfg, s) && !AllReturned(s)
    ensures Enabled(cfg, s, step)
  {
    if p :| 0 <= p < cfg.producers && !s.producers[p].Exhausted? {
      match s.producers[p]
      case Admitting(_) => step := Admit(p);
      case Creating(_, _) => step := Create(p);
      case Announcing(_, _) => step := Announce(p);
    } else if !s.finished {
      step := Finish;
    } else {
      var c :| 0 <= c < |s.claimers| && !s.claimers[c].Returned?;
      assert ViewOk(s, s.claimers[c], s.empties[c]);
      match s.claimers[c]
      case Reading => step := Read(c);
      case Claiming(_, _) =>
        if s.Pending() == {} {
          step := Claim(c, {});
        } else {
          var r :| r in s.Pending();
          step := Claim(c, {r});
        }
      case Recording(_, _, _) => step := Record(c);
      case Parking(_) => step := Park(c);
      case Waiting(_, _) => step := Wake(c);
    }
  }

  // ----- Termination --------------------------------------------------------

  /** Steps a claimer can still take before it needs another row or another notification. */
  function Potential(s: State, c: Claimer): nat {
    match c
    case Reading => 4
    case Claiming(g, done) => 3 + Stale(s, g, done)
    case Recording(g, done, batch) => if batch != {} then 5 else 2 + Stale(s, g, done)
    case Parking(g) => 1 + Stale(s, g, false)
    case Waiting(g, notified) => if notified then 5 else 0
    case Returned => 0
    case DuplicateOwnership => 0
  }

  function Stale(s: State, g: nat, done: bool): nat {
    if !done && s.Changed(g) then 5 else 0
  }

  function Potentials(s: State): seq<nat> {
    seq(|s.claimers|, i requires 0 <= i < |s.claimers| => Potential(s, s.claimers[i]))
  }

  /** What one notification can cost: its own step, and at most five steps of every claimer. */
  function Notification(cfg: Config): nat {
    5 * cfg.workers + 1
  }

  /** k + ... + k, `n` times. */
  function Times(k: nat, n: int): nat {
    if n <= 0 then 0 else Times(k, n - 1) + k
  }

  /** Storage and notification work left; claimer steps are accounted for by `Potentials`. */
  function Work(cfg: Config, s: State): int {
    (cfg.events - |s.admitted|) + (|cfg.Rows()| - |s.created|)
    + Times(Notification(cfg), |cfg.Rows()| - s.generation)
    + (if s.finished then 0 else Notification(cfg))
    + 3 * (|cfg.Rows()| - |s.claimed|)
  }

  function Remaining(cfg: Config, s: State): int {
    Work(cfg, s) + Sum(Potentials(s))
  }

  lemma RemainingNonNegative(cfg: Config, s: State)
    requires Inv(cfg, s)
    ensures 0 <= Remaining(cfg, s)
  {
    AnnouncedWasCreated(cfg, s);
    RowsSize(cfg);
    SubsetSize(s.claimed, s.created);
  }

  lemma PotentialsMove(s: State, s': State, c: nat, to: Claimer)
    requires c < |s.claimers| && s'.claimers == s.claimers[c := to]
    requires s'.generation == s.generation && s'.finished == s.finished
    ensures Sum(Potentials(s')) + Potential(s, s.claimers[c]) == Sum(Potentials(s)) + Potential(s, to)
  {
    assert Potentials(s') == Potentials(s)[c := Potential(s, to)];
    SumUpdate(Potentials(s), c, Potential(s, to));
  }

  lemma PotentialsNotify(cfg: Config, s: State, s': State)
    requires Shaped(cfg, s) && s'.claimers == NotifyAll(s.claimers)
    ensures Sum(Potentials(s')) <= Sum(Potentials(s)) + 5 * cfg.workers
  {
    forall i | 0 <= i < |s.claimers|
      ensures Potentials(s')[i] <= Potentials(s)[i] + 5
    {
    }
    SumGrowth(Potentials(s), Potentials(s'), 5);
  }

  lemma AdmitDecreases(cfg: Config, s: State, p: nat)
    requires Enabled(cfg, s, Admit(p)) && s.producers[p].ordinal !in s.admitted
    ensures Remaining(cfg, Apply(cfg, s, Admit(p))) < Remaining(cfg, s)
  {
    assert Potentials(Apply(cfg, s, Admit(p))) == Potentials(s);
  }

  lemma CreateDecreases(cfg: Config, s: State, p: nat)
    requires Enabled(cfg, s, Create(p)) && (s.producers[p].ordinal, s.producers[p].target) !in s.created
    ensures Remaining(cfg, Apply(cfg, s, Create(p))) < Remaining(cfg, s)
  {
    assert Potentials(Apply(cfg, s, Create(p))) == Potentials(s);
  }

  lemma NotAdmittedYet(cfg: Config, s: State, p: nat)
    requires ProductionOk(cfg, s) && Enabled(cfg, s, Admit(p))
    ensures s.producers[p].ordinal !in s.admitted
  {
  }

  lemma NotifyStepDecreases(cfg: Config, s: State, step: Step)
    requires Enabled(cfg, s, step) && (step.Announce? || step.Finish?)
    requires step.Announce? ==> s.generation < |cfg.Rows()|
    ensures Remaining(cfg, Apply(cfg, s, step)) < Remaining(cfg, s)
  {
    PotentialsNotify(cfg, s, Apply(cfg, s, step));
  }

  lemma RoomToAnnounce(cfg: Config, s: State, p: nat)
    requires Inv(cfg, s) && Enabled(cfg, s, Announce(p))
    ensures s.generation < |cfg.Rows()|
  {
    ProductionAnnounce(cfg, s, p);
    AnnouncedWasCreated(cfg, Apply(cfg, s, Announce(p)));
    RowsSize(cfg);
  }

  lemma ClaimDecreases(cfg: Config, s: State, c: nat, batch: set<Row>)
    requires Enabled(cfg, s, Claim(c, batch))
    ensures Remaining(cfg, Apply(cfg, s, Claim(c, batch))) < Remaining(cfg, s)
  {
    var s' := Apply(cfg, s, Claim(c, batch));
    PotentialsMove(s, s', c, s'.claimers[c]);
    assert |s'.claimed| == |s.claimed| + |batch|;
    assert batch != {} ==> |batch| >= 1;
  }

  /** A claimer's own move leaves the work alone and uses up some of its potential. */
  lemma MoveDecreases(cfg: Config, s: State, s': State, c: nat)
    requires c < |s.claimers| == |s'.claimers| && s'.claimers == s.claimers[c := s'.claimers[c]]
    requires s'.generation == s.generation && s'.finished == s.finished && s'.claimed == s.claimed
    requires s'.admitted == s.admitted && s'.created == s.created
    requires Potential(s, s'.claimers[c]) < Potential(s, s.claimers[c])
    ensures Remaining(cfg, s') < Remaining(cfg, s)
  {
    PotentialsMove(s, s', c, s'.claimers[c]);
  }

  lemma RecordDecreases(cfg: Config, s: State, c: nat)
    requires Enabled(cfg, s, Record(c))
    ensures Remaining(cfg, Apply(cfg, s, Record(c))) < Remaining(cfg, s)
  {
    MoveDecreases(cfg, s, Apply(cfg, s, Record(c)), c);
  }

  lemma ClaimerStepDecreases(cfg: Config, s: State, step: Step)
    requires Enabled(cfg, s, step) && (step.Read? || step.Park? || step.Wake?)
    requires ViewOk(s, s.claimers[step.c], s.empties[step.c])
    ensures Remaining(cfg, Apply(cfg, s, step)) < Remaining(cfg, s)
  {
    MoveDecreases(cfg, s, Apply(cfg, s, step), step.c);
  }

  lemma StepDecreases(cfg: Config, s: State, step: Step)
    requires Inv(cfg, s) && Enabled(cfg, s, step)
    ensures Remaining(cfg, Apply(cfg, s, step)) < Remaining(cfg, s)
  {
    match step
    case Admit(p) =>
      NotAdmittedYet(cfg, s, p);
      AdmitDecreases(cfg, s, p);
    case Create(p) =>
      ProductionCreate(cfg, s, p);
      CreateDecreases(cfg, s, p);
    case Announce(p) =>
      RoomToAnnounce(cfg, s, p);
      NotifyStepDecreases(cfg, s, step);
    case Finish => NotifyStepDecreases(cfg, s, step);
    case Claim(c, batch) => ClaimDecreases(cfg, s, c, batch);
    case Record(c) => RecordDecreases(cfg, s, c);
    case _ => ClaimerStepDecreases(cfg, s, step);
  }

  lemma {:induction false} TimesIsProduct(k: nat, n: nat)
    ensures Times(k, n) == k * n
  {
    if n > 0 {
      TimesIsProduct(k, n - 1);
      assert k * n == k * (n - 1) + k;
    }
  }

  function StepBound(cfg: Config): nat {
    cfg.events + 4 * cfg.RowCount() + Notification(cfg) * (cfg.RowCount() + 1) + 4 * cfg.workers
  }

  lemma {:induction false} RunSpends(cfg: Config, steps: seq<Step>, states: seq<State>, i: nat)
    requires cfg.Runnable() && IsRun(cfg, steps, states) && i < |states|
    ensures i + Remaining(cfg, states[i]) <= StepBound(cfg)
  {
    if i == 0 {
      var s := Init(cfg);
      SumConstant(Potentials(s), 4);
      RowsSize(cfg);
      TimesIsProduct(Notification(cfg), cfg.RowCount() + 1);
    } else {
      RunSpends(cfg, steps, states, i - 1);
      RunInv(cfg, steps, states, i - 1);
      StepDecreases(cfg, states[i - 1], steps[i - 1]);
    }
  }

  /** No scheduler can keep the workload going: every run has at most `StepBound` steps. */
  lemma RunsAreBounded(cfg: Config, steps: seq<Step>, states: seq<State>)
    requires cfg.Runnable() && IsRun(cfg, steps, states)
    ensures |steps| <= StepBound(cfg)
  {
    RunSpends(cfg, steps, states, |steps|);
    RunInv(cfg, steps, states, |steps|);
    RemainingNonNegative(cfg, states[|steps|]);
  }

  /**
   * A run that cannot be extended has done its work: all claimers have returned,
   * every row was recorded once, and there are latency samples for every figure
   * the report takes a percentile of.
   */
  lemma MaximalRunsComplete(cfg: Config, steps: seq<Step>, states: seq<State>)
    requires cfg.Runnable() && IsRun(cfg, steps, states)
    requires !exists step :: Enabled(cfg, states[|steps|], step)
    ensures AllReturned(states[|steps|]) && AccountingPasses(cfg, states[|steps|])
    ensures states[|steps|].recorded == cfg.Rows()
    ensures 1 <= states[|steps|].batches && 1 <= Sum(states[|steps|].empties)
  {
    RunInv(cfg, steps, states, |steps|);
    NoDeadlock(cfg, states[|steps|]);
    ExactlyOnce(cfg, steps, states, |steps|);
    SamplesExist(cfg, states[|steps|]);
  }

  lemma SamplesExist(cfg: Config, s: State)
    requires Inv(cfg, s) && AllReturned(s) && |s.recorded| == cfg.RowCount()
    ensures 1 <= s.batches && 1 <= Sum(s.empties)
  {
    assert ViewOk(s, s.claimers[0], s.empties[0]);
    SumUpdate(s.empties, 0, 0);
  }

  // ----- Claim counts -------------------------------------------------------

  /** At most rows + 2 empty claims per claimer; between rows / 16 and rows non-empty ones in all. */
  lemma ClaimCounts(cfg: Config, steps: seq<Step>, states: seq<State>, i: nat)
    requires cfg.Runnable() && IsRun(cfg, steps, states) && i < |states|
    ensures forall c :: 0 <= c < |states[i].empties| ==> states[i].empties[c] <= cfg.RowCount() + 2
    ensures states[i].batches <= cfg.RowCount()
    ensures AllReturned(states[i]) ==> cfg.RowCount() <= CLAIM_LIMIT * states[i].batches
  {
    var s := states[i];
    RunInv(cfg, steps, states, i);
    AnnouncedWasCreated(cfg, s);
    SubsetSize(s.recorded, s.created);
    forall c | 0 <= c < |s.empties|
      ensures s.empties[c] <= cfg.RowCount() + 2
    {
      assert ViewOk(s, s.claimers[c], s.empties[c]);
    }
    if AllReturned(s) {
      ExactlyOnce(cfg, steps, states, i);
    }
  }

  /** After an empty claim at generation `g`, the claimer is past `g` whenever it claims unfinished work again. */
  predicate Beyond(s: State, c: Claimer, g: nat) {
    match c
    case Reading => g < s.generation || s.finished
    case Claiming(h, done) => g < h || done
    case Recording(h, done, _) => g < h || done
    case Parking(h) => g <= h
    case Waiting(h, _) => g <= h
    case Returned => true
    case DuplicateOwnership => true
  }

  lemma BeyondOwnStep(cfg: Config, s: State, step: Step, c: nat, g: nat)
    requires Enabled(cfg, s, step) && c < cfg.workers && Beyond(s, s.claimers[c], g)
    requires step.Read? || step.Claim? || step.Record? || step.Park? || step.Wake?
    requires step.c == c && ViewOk(s, s.claimers[c], s.empties[c])
    ensures Shaped(cfg, Apply(cfg, s, step))
    ensures Beyond(Apply(cfg, s, step), Apply(cfg, s, step).claimers[c], g)
  {
  }

  lemma BeyondOtherStep(cfg: Config, s: State, step: Step, c: nat, g: nat)
    requires Enabled(cfg, s, step) && c < cfg.workers && Beyond(s, s.claimers[c], g)
    requires step.Read? || step.Claim? || step.Record? || step.Park? || step.Wake? ==> step.c != c
    ensures Shaped(cfg, Apply(cfg, s, step))
    ensures Beyond(Apply(cfg, s, step), Apply(cfg, s, step).claimers[c], g)
  {
  }

  lemma BeyondStep(cfg: Config, s: State, step: Step, c: nat, g: nat)
    requires ViewsOk(cfg, s) && Enabled(cfg, s, step) && c < cfg.workers && Beyond(s, s.claimers[c], g)
    ensures Shaped(cfg, Apply(cfg, s, step))
    ensures Beyond(Apply(cfg, s, step), Apply(cfg, s, step).claimers[c], g)
  {
    assert ViewOk(s, s.claimers[c], s.empties[c]);
    if (step.Read? || step.Claim? || step.Record? || step.Park? || step.Wake?) && step.c == c {
      BeyondOwnStep(cfg, s, step, c, g);
    } else {
      BeyondOtherStep(cfg, s, step, c, g);
    }
  }

  predicate EmptyUnfinished(s: State, step: Step, c: nat) {
    && step == Record(c)
    && c < |s.claimers|
    && s.claimers[c].Recording?
    && s.claimers[c].batch == {}
    && !s.claimers[c].done
  }

  lemma EmptyParks(cfg: Config, s: State, c: nat)
    requires Inv(cfg, s) && c < cfg.workers && EmptyUnfinished(s, Record(c), c)
    ensures Shaped(cfg, Apply(cfg, s, Record(c)))
    ensures Apply(cfg, s, Record(c)).claimers[c] == Parking(s.claimers[c].observed)
  {
  }

  lemma BeyondNext(cfg: Config, steps: seq<Step>, states: seq<State>, j: nat, c: nat, g: nat)
    requires cfg.Runnable() && IsRun(cfg, steps, states) && j < |steps| && c < cfg.workers
    requires Shaped(cfg, states[j])
    requires Beyond(states[j], states[j].claimers[c], g)
          || (EmptyUnfinished(states[j], steps[j], c) && states[j].claimers[c].observed == g)
    ensures Shaped(cfg, states[j + 1]) && Beyond(states[j + 1], states[j + 1].claimers[c], g)
  {
    RunInv(cfg, steps, states, j);
    if EmptyUnfinished(states[j], steps[j], c) {
      EmptyParks(cfg, states[j], c);
    } else {
      BeyondStep(cfg, states[j], steps[j], c, g);
    }
  }

  lemma {:induction false} BeyondLater(cfg: Config, steps: seq<Step>, states: seq<State>, i: nat, j: nat, c: nat)
    requires cfg.Runnable() && IsRun(cfg, steps, states) && i < j < |states|
    requires c < cfg.workers && EmptyUnfinished(states[i], steps[i], c)
    ensures Shaped(cfg, states[j]) && Beyond(states[j], states[j].claimers[c], states[i].claimers[c].observed)
    decreases j
  {
    if i + 1 < j {
      BeyondLater(cfg, steps, states, i, j - 1, c);
    }
    BeyondNext(cfg, steps, states, j - 1, c, states[i].claimers[c].observed);
  }

  /** The generations one claimer observes on empty, not-yet-finished claims strictly increase. */
  lemma EmptyClaimsAdvance(cfg: Config, steps: seq<Step>, states: seq<State>, i: nat, j: nat, c: nat)
    requires cfg.Runnable() && IsRun(cfg, steps, states) && i < j < |steps| && c < cfg.workers
    requires EmptyUnfinished(states[i], steps[i], c) && EmptyUnfinished(states[j], steps[j], c)
    ensures states[i].claimers[c].observed < states[j].claimers[c].observed
  {
    BeyondLater(cfg, steps, states, i, j, c);
  }
}
