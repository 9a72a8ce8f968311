/**
 * The mixed SQLite workload: striding producers stage outbox rows and announce
 * each with a generation counter; competing claimers drain the rows and must
 * decide when it is safe to stop. Every stretch of code between two `await`s is
 * one atomic step. `asyncio.Condition` is never held across an `await` other
 * than its own `wait`, so a critical section is one step too.
 *
 * The only assumption about storage is in `Enabled`: a claim atomically takes at
 * most 16 unclaimed rows and comes back empty only when there are none.
 */
module Workload {
  import opened Counting

  /** (event ordinal, target index): one outbox row. */
  type Row = (nat, nat)

  /** The size caps of the script are irrelevant to the protocol; only the lower bounds matter. */
  datatype Config = Config(events: nat, fanout: nat, producers: nat, workers: nat) {
    predicate Runnable() {
      1 <= events && 1 <= fanout && 1 <= producers && 1 <= workers
    }

    predicate Holds(r: Row) {
      r.0 < events && r.1 < fanout
    }

    function Rows(): set<Row> {
      Product(Below(events), Below(fanout))
    }

    function RowCount(): nat {
      events * fanout
    }
  }

  const CLAIM_LIMIT: nat := 16

  datatype Producer =
    | Admitting(ordinal: nat)
    | Creating(ordinal: nat, target: nat)
    | Announcing(ordinal: nat, target: nat)
    | Exhausted

  datatype Claimer =
    | Reading
    | Claiming(observed: nat, done: bool)
    | Recording(observed: nat, done: bool, batch: set<Row>)
    | Parking(observed: nat)
    | Waiting(observed: nat, notified: bool)
    | Returned
    | DuplicateOwnership

  /**
   * `announced` is the set of rows whose generation bump has happened; the
   * program only keeps its size, `generation`.
   */
  datatype State = State(
    producers: seq<Producer>,
    claimers: seq<Claimer>,
    finished: bool,
    generation: nat,
    admitted: set<nat>,
    created: set<Row>,
    announced: set<Row>,
    claimed: set<Row>,
    recorded: set<Row>,
    byWorker: seq<nat>,
    batches: nat,
    empties: seq<nat>)
  {
    function Pending(): set<Row> {
      created - claimed
    }

    /** The predicate a parked claimer waits for. */
    predicate Changed(observed: nat) {
      generation != observed || finished
    }
  }

  datatype Step =
    | Admit(p: nat)
    | Create(p: nat)
    | Announce(p: nat)
    | Finish
    | Read(c: nat)
    | Claim(c: nat, batch: set<Row>)
    | Record(c: nat)
    | Park(c: nat)
    | Wake(c: nat)

  /** Head of the `range(worker, events, producers)` loop. */
  function AtOrdinal(cfg: Config, ordinal: nat): Producer {
    if ordinal < cfg.events then Admitting(ordinal) else Exhausted
  }

  function Init(cfg: Config): State {
    State(
      seq(cfg.producers, w requires 0 <= w => AtOrdinal(cfg, w)),
      seq(cfg.workers, _ => Reading),
      false, 0, {}, {}, {}, {}, {},
      seq(cfg.workers, _ => 0), 0, seq(cfg.workers, _ => 0))
  }

  predicate Shaped(cfg: Config, s: State) {
    && |s.producers| == cfg.producers
    && |s.claimers| == |s.byWorker| == |s.empties| == cfg.workers
  }

  predicate Enabled(cfg: Config, s: State, step: Step) {
    && Shaped(cfg, s)
    && match step {
      case Admit(p) => p < cfg.producers && s.producers[p].Admitting?
      case Create(p) => p < cfg.producers && s.producers[p].Creating?
      case Announce(p) => p < cfg.producers && s.producers[p].Announcing?
      case Finish => !s.finished && forall p :: 0 <= p < cfg.producers ==> s.producers[p].Exhausted?
      case Read(c) => c < cfg.workers && s.claimers[c].Reading?
      case Claim(c, batch) =>
        && c < cfg.workers
        && s.claimers[c].Claiming?
        && batch <= s.Pending()
        && |batch| <= CLAIM_LIMIT
        && (batch == {} ==> s.Pending() == {})
      case Record(c) => c < cfg.workers && s.claimers[c].Recording?
      case Park(c) => c < cfg.workers && s.claimers[c].Parking?
      case Wake(c) => c < cfg.workers && s.claimers[c].Waiting? && s.claimers[c].notified
    }
  }

  /** `notify_all`: every claimer inside `wait` becomes runnable. */
  function NotifyAll(claimers: seq<Claimer>): seq<Claimer> {
    seq(|claimers|, i requires 0 <= i < |claimers| =>
      if claimers[i].Waiting? then claimers[i].(notified := true) else claimers[i])
  }

  function Moved(s: State, c: nat, to: Claimer): State
    requires c < |s.claimers|
  {
    s.(claimers := s.claimers[c := to])
  }

  /** The claimer re-evaluates its predicate, holding the condition's lock. */
  function Recheck(s: State, c: nat, observed: nat): State
    requires c < |s.claimers|
  {
    Moved(s, c, if s.Changed(observed) then Reading else Waiting(observed, false))
  }

  /** What happens once `claim_due_outbox_items` has handed its batch back. */
  function Recorded(s: State, c: nat): State
    requires c < |s.claimers| == |s.byWorker| == |s.empties|
    requires s.claimers[c].Recording?
  {
    var Recording(observed, done, batch) := s.claimers[c];
    if batch * s.recorded != {} then
      Moved(s, c, DuplicateOwnership)
    else if batch != {} then
      Moved(s, c, Reading).(
      recorded := s.recorded + batch,
      byWorker := s.byWorker[c := s.byWorker[c] + |batch|],
      batches := s.batches + 1)
    else
      Moved(s, c, if done then Returned else Parking(observed)).(
      empties := s.empties[c := s.empties[c] + 1])
  }

  function Apply(cfg: Config, s: State, step: Step): State
    requires Enabled(cfg, s, step)
  {
    match step
    case Admit(p) =>
      var o := s.producers[p].ordinal;
      s.(producers := s.producers[p := if 0 < cfg.fanout then Creating(o, 0) else AtOrdinal(cfg, o + cfg.producers)],
      admitted := s.admitted + {o})
    case Create(p) =>
      var Creating(o, t) := s.producers[p];
      s.(producers := s.producers[p := Announcing(o, t)], created := s.created + {(o, t)})
    case Announce(p) =>
      var Announcing(o, t) := s.producers[p];
      var next := if t + 1 < cfg.fanout then Creating(o, t + 1) else AtOrdinal(cfg, o + cfg.producers);
      s.(producers := s.producers[p := next],
      generation := s.generation + 1,
      announced := s.announced + {(o, t)},
      claimers := NotifyAll(s.claimers))
    case Finish =>
      s.(finished := true, claimers := NotifyAll(s.claimers))
    case Read(c) =>
      Moved(s, c, Claiming(s.generation, s.finished))
    case Claim(c, batch) =>
      var Claiming(observed, done) := s.claimers[c];
      Moved(s, c, Recording(observed, done, batch)).(claimed := s.claimed + batch)
    case Record(c) =>
      Recorded(s, c)
    case Park(c) =>
      Recheck(s, c, s.claimers[c].observed)
    case Wake(c) =>
      Recheck(s, c, s.claimers[c].observed)
  }

  /** A run: any scheduler's choice of enabled steps from the initial state. */
  ghost predicate IsRun(cfg: Config, steps: seq<Step>, states: seq<State>) {
    && |states| == |steps| + 1
    && states[0] == Init(cfg)
    && forall i :: 0 <= i < |steps| ==>
        Enabled(cfg, states[i], steps[i]) && states[i + 1] == Apply(cfg, states[i], steps[i])
  }

  predicate AllReturned(s: State) {
    forall c :: 0 <= c < |s.claimers| ==> s.claimers[c].Returned?
  }

  /** The script's closing check: one recorded id per event and target, and every event stored. */
  predicate AccountingPasses(cfg: Config, s: State) {
    |s.recorded| == cfg.RowCount() && |s.admitted| == cfg.events
  }
}
