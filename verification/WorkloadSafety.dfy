/**
 * What every interleaving of the mixed workload keeps: production proceeds by
 * strides, storage ownership is exclusive, and a claimer's view of the
 * generation counter never hides work from it.
 */
module WorkloadSafety {
  import opened Counting
  import opened Workload

  // ----- Production ---------------------------------------------------------

  predicate InStride(cfg: Config, w: nat, p: Producer)
    requires 0 < cfg.producers
  {
    match p
    case Admitting(o) => o < cfg.events && o % cfg.producers == w
    case Creating(o, t) => o < cfg.events && o % cfg.producers == w && t < cfg.fanout
    case Announcing(o, t) => o < cfg.events && o % cfg.producers == w && t < cfg.fanout
    case Exhausted => true
  }

  predicate PastAdmission(p: Producer, o: nat) {
    match p
    case Admitting(at) => o < at
    case Creating(at, _) => o <= at
    case Announcing(at, _) => o <= at
    case Exhausted => true
  }

  predicate PastCreation(p: Producer, r: Row) {
    match p
    case Admitting(o) => r.0 < o
    case Creating(o, t) => r.0 < o || (r.0 == o && r.1 < t)
    case Announcing(o, t) => r.0 < o || (r.0 == o && r.1 <= t)
    case Exhausted => true
  }

  predicate PastAnnouncement(p: Producer, r: Row) {
    match p
    case Admitting(o) => r.0 < o
    case Creating(o, t) => r.0 < o || (r.0 == o && r.1 < t)
    case Announcing(o, t) => r.0 < o || (r.0 == o && r.1 < t)
    case Exhausted => true
  }

  /** The producer a row belongs to: strides partition the ordinals by residue. */
  function Owner(cfg: Config, s: State, o: nat): Producer
    requires 0 < cfg.producers && Shaped(cfg, s)
  {
    s.producers[o % cfg.producers]
  }

  ghost predicate ProductionOk(cfg: Config, s: State) {
    && cfg.Runnable()
    && Shaped(cfg, s)
    && (forall w :: 0 <= w < cfg.producers ==> InStride(cfg, w, s.producers[w]))
    && (forall o :: o in s.admitted <==> 0 <= o < cfg.events && PastAdmission(Owner(cfg, s, o), o))
    && (forall r :: r in s.created <==> cfg.Holds(r) && PastCreation(Owner(cfg, s, r.0), r))
    && (forall r :: r in s.announced <==> cfg.Holds(r) && PastAnnouncement(Owner(cfg, s, r.0), r))
    && s.generation == |s.announced|
    && (s.finished ==> forall w :: 0 <= w < cfg.producers ==> s.producers[w].Exhausted?)
  }

  // ----- Ownership ----------------------------------------------------------

  predicate InFlight(s: State, c: nat, r: Row) {
    c < |s.claimers| && s.claimers[c].Recording? && r in s.claimers[c].batch
  }

  ghost predicate FlightsOk(s: State) {
    && s.recorded <= s.claimed <= s.created
    && (forall c, r :: InFlight(s, c, r) ==> r in s.claimed && r !in s.recorded)
    && (forall c, d, r :: InFlight(s, c, r) && InFlight(s, d, r) ==> c == d)
    && (forall r :: r in s.claimed && r !in s.recorded ==> exists c :: InFlight(s, c, r))
    && (forall c :: 0 <= c < |s.claimers| && s.claimers[c].Recording? ==> |s.claimers[c].batch| <= CLAIM_LIMIT)
  }

  predicate CountsOk(s: State) {
    Sum(s.byWorker) == |s.recorded| && s.batches <= |s.recorded| <= CLAIM_LIMIT * s.batches
  }

  ghost predicate OwnershipOk(cfg: Config, s: State) {
    Shaped(cfg, s) && FlightsOk(s) && CountsOk(s)
  }

  // ----- Each claimer's view ------------------------------------------------

  /** Nothing announced so far is left unclaimed, unless the generation has moved on. */
  ghost predicate Caught(s: State, observed: nat) {
    observed <= s.generation && (observed == s.generation ==> s.announced <= s.claimed)
  }

  /** How many empty claims a claimer can have behind it. */
  predicate Within(empties: nat, observed: nat, done: bool) {
    empties <= observed || (done && empties <= observed + 1)
  }

  ghost predicate ViewOk(s: State, c: Claimer, empties: nat) {
    match c
    case Reading =>
      Within(empties, s.generation, s.finished)
    case Claiming(g, done) =>
      g <= s.generation && (done ==> s.finished && g == s.generation) && Within(empties, g, done)
    case Recording(g, done, batch) =>
      && g <= s.generation
      && (done ==> s.finished && g == s.generation)
      && Within(empties, g, done)
      && (batch == {} ==> Caught(s, g) && (done ==> s.created <= s.claimed))
    case Parking(g) =>
      Caught(s, g) && empties <= g + 1
    case Waiting(g, notified) =>
      Caught(s, g) && empties <= g + 1 && notified == s.Changed(g)
    case Returned =>
      s.finished && s.created <= s.claimed && 1 <= empties <= s.generation + 2
    case DuplicateOwnership =>
      false
  }

  ghost predicate ViewsOk(cfg: Config, s: State) {
    && Shaped(cfg, s)
    && forall c :: 0 <= c < |s.claimers| ==> ViewOk(s, s.claimers[c], s.empties[c])
  }

  ghost predicate Inv(cfg: Config, s: State) {
    ProductionOk(cfg, s) && OwnershipOk(cfg, s) && ViewsOk(cfg, s)
  }

  // ----- Initial state ------------------------------------------------------

  lemma InitInv(cfg: Config)
    requires cfg.Runnable()
    ensures Inv(cfg, Init(cfg))
  {
    InitProduction(cfg);
    var s := Init(cfg);
    SumConstant(s.byWorker, 0);
  }

  lemma InitProduction(cfg: Config)
    requires cfg.Runnable()
    ensures ProductionOk(cfg, Init(cfg))
  {
    var s := Init(cfg);
    forall w: nat | w < cfg.producers
      ensures s.producers[w] == AtOrdinal(cfg, w) && InStride(cfg, w, s.producers[w])
    {
      Residue(w, cfg.producers);
    }
    forall o: nat | o < cfg.events
      ensures Owner(cfg, s, o) == Admitting(o % cfg.producers) && o % cfg.producers <= o
    {
      Residue(o, cfg.producers);
    }
  }

  lemma Residue(o: nat, m: nat)
    requires 0 < m
    ensures 0 <= o % m <= o && o % m < m
    ensures o < m ==> o % m == o
  {
  }

  // ----- Production steps ---------------------------------------------------

  lemma StrideGap(o: nat, at: nat, m: nat)
    requires 0 < m && o % m == at % m
    ensures (at + m) % m == at % m
    ensures o < at + m <==> o <= at
  {
    var q, r := at / m, at % m;
    assert at + m == (q + 1) * m + r;
    QuotientUnique(at + m, m, q + 1, r);
    MultipleGap(m, o / m - q);
    assert o - at == m * (o / m - q);
  }

  lemma QuotientUnique(x: int, m: nat, q: int, r: nat)
    requires x == q * m + r && r < m
    ensures x % m == r
  {
    var k := q - x / m;
    assert m * k == q * m - (x / m) * m;
    MultipleGap(m, k);
    MultipleGap(m, -k);
  }

  lemma MultipleGap(m: nat, k: int)
    requires 0 < m
    ensures m * k < m <==> m * k <= 0
  {
    if k >= 1 {
      assert m * k >= m;
    } else {
      assert m * k <= 0;
    }
  }

  /** Finishing an ordinal leaves exactly the same rows behind as starting the next one. */
  lemma NextOrdinal(cfg: Config, at: nat, o: nat)
    requires 0 < cfg.producers && at < cfg.events && o < cfg.events && o % cfg.producers == at % cfg.producers
    ensures InStride(cfg, at % cfg.producers, AtOrdinal(cfg, at + cfg.producers))
    ensures PastAdmission(AtOrdinal(cfg, at + cfg.producers), o) <==> o <= at
    ensures forall t: nat :: PastCreation(AtOrdinal(cfg, at + cfg.producers), (o, t)) <==> o <= at
    ensures forall t: nat :: PastAnnouncement(AtOrdinal(cfg, at + cfg.producers), (o, t)) <==> o <= at
  {
    StrideGap(o, at, cfg.producers);
  }

  lemma ProductionAdmit(cfg: Config, s: State, p: nat)
    requires ProductionOk(cfg, s) && Enabled(cfg, s, Admit(p))
    ensures ProductionOk(cfg, Apply(cfg, s, Admit(p)))
  {
    var s' := Apply(cfg, s, Admit(p));
    var at := s.producers[p].ordinal;
    forall o: nat | o < cfg.events
      ensures o in s'.admitted <==> PastAdmission(Owner(cfg, s', o), o)
    {
      if o % cfg.producers == p {
        StrideGap(o, at, cfg.producers);
      }
    }
    forall r: Row
      ensures r in s'.created <==> cfg.Holds(r) && PastCreation(Owner(cfg, s', r.0), r)
      ensures r in s'.announced <==> cfg.Holds(r) && PastAnnouncement(Owner(cfg, s', r.0), r)
    {
    }
  }

  lemma ProductionCreate(cfg: Config, s: State, p: nat)
    requires ProductionOk(cfg, s) && Enabled(cfg, s, Create(p))
    ensures ProductionOk(cfg, Apply(cfg, s, Create(p)))
    ensures (s.producers[p].ordinal, s.producers[p].target) !in s.created
  {
    var s' := Apply(cfg, s, Create(p));
    forall r: Row
      ensures r in s'.created <==> cfg.Holds(r) && PastCreation(Owner(cfg, s', r.0), r)
      ensures r in s'.announced <==> cfg.Holds(r) && PastAnnouncement(Owner(cfg, s', r.0), r)
    {
    }
  }

  /** What the rows behind a producer are once it has announced target `t` of ordinal `at`. */
  lemma AnnouncedNext(cfg: Config, at: nat, t: nat, r: Row)
    requires 0 < cfg.producers && at < cfg.events && t < cfg.fanout && cfg.Holds(r)
    requires r.0 % cfg.producers == at % cfg.producers
    ensures var next := Following(cfg, at, t);
      && (PastAdmission(next, r.0) <==> r.0 <= at)
      && (PastCreation(next, r) <==> PastCreation(Announcing(at, t), r))
      && (PastAnnouncement(next, r) <==> r == (at, t) || PastAnnouncement(Announcing(at, t), r))
  {
    NextOrdinal(cfg, at, r.0);
  }

  function Following(cfg: Config, at: nat, t: nat): Producer {
    if t + 1 < cfg.fanout then Creating(at, t + 1) else AtOrdinal(cfg, at + cfg.producers)
  }

  lemma AnnouncedRow(cfg: Config, s: State, p: nat, r: Row)
    requires ProductionOk(cfg, s) && Enabled(cfg, s, Announce(p))
    ensures var s' := Apply(cfg, s, Announce(p));
      && (r in s'.created <==> cfg.Holds(r) && PastCreation(Owner(cfg, s', r.0), r))
      && (r in s'.announced <==> cfg.Holds(r) && PastAnnouncement(Owner(cfg, s', r.0), r))
  {
    var Announcing(at, t) := s.producers[p];
    if cfg.Holds(r) && r.0 % cfg.producers == p {
      AnnouncedNext(cfg, at, t, r);
    }
  }

  lemma AnnouncedOrdinal(cfg: Config, s: State, p: nat, o: nat)
    requires ProductionOk(cfg, s) && Enabled(cfg, s, Announce(p)) && o < cfg.events
    ensures var s' := Apply(cfg, s, Announce(p)); o in s'.admitted <==> PastAdmission(Owner(cfg, s', o), o)
  {
    var Announcing(at, t) := s.producers[p];
    if o % cfg.producers == p {
      AnnouncedNext(cfg, at, t, (o, 0));
    }
  }

  lemma AnnouncedStrides(cfg: Config, s: State, p: nat)
    requires ProductionOk(cfg, s) && Enabled(cfg, s, Announce(p))
    ensures var s' := Apply(cfg, s, Announce(p));
      && Shaped(cfg, s') && !s'.finished
      && (forall w :: 0 <= w < cfg.producers ==> InStride(cfg, w, s'.producers[w]))
    ensures (s.producers[p].ordinal, s.producers[p].target) !in s.announced
  {
    NextOrdinal(cfg, s.producers[p].ordinal, s.producers[p].ordinal);
  }

  lemma ProductionAnnounce(cfg: Config, s: State, p: nat)
    requires ProductionOk(cfg, s) && Enabled(cfg, s, Announce(p))
    ensures ProductionOk(cfg, Apply(cfg, s, Announce(p)))
    ensures (s.producers[p].ordinal, s.producers[p].target) !in s.announced
  {
    AnnouncedStrides(cfg, s, p);
    var s' := Apply(cfg, s, Announce(p));
    forall o: nat | o < cfg.events
      ensures o in s'.admitted <==> PastAdmission(Owner(cfg, s', o), o)
    {
      AnnouncedOrdinal(cfg, s, p, o);
    }
    forall r: Row
      ensures r in s'.created <==> cfg.Holds(r) && PastCreation(Owner(cfg, s', r.0), r)
      ensures r in s'.announced <==> cfg.Holds(r) && PastAnnouncement(Owner(cfg, s', r.0), r)
    {
      AnnouncedRow(cfg, s, p, r);
    }
    AnnouncedCount(cfg, s, p);
  }

  lemma AnnouncedCount(cfg: Config, s: State, p: nat)
    requires Enabled(cfg, s, Announce(p)) && s.generation == |s.announced|
    requires (s.producers[p].ordinal, s.producers[p].target) !in s.announced
    ensures var s' := Apply(cfg, s, Announce(p)); s'.generation == |s'.announced| && s'.admitted == s.admitted
  {
  }

  lemma ProductionStep(cfg: Config, s: State, step: Step)
    requires ProductionOk(cfg, s) && Enabled(cfg, s, step)
    ensures ProductionOk(cfg, Apply(cfg, s, step))
  {
    match step
    case Admit(p) => ProductionAdmit(cfg, s, p);
    case Create(p) => ProductionCreate(cfg, s, p);
    case Announce(p) => ProductionAnnounce(cfg, s, p);
    case _ => ProductionSame(cfg, s, Apply(cfg, s, step));
  }

  lemma ProductionSame(cfg: Config, s: State, s': State)
    requires ProductionOk(cfg, s) && Shaped(cfg, s') && s'.producers == s.producers
    requires s'.admitted == s.admitted && s'.created == s.created
    requires s'.announced == s.announced && s'.generation == s.generation
    requires s'.finished ==> s.finished || forall w :: 0 <= w < cfg.producers ==> s.producers[w].Exhausted?
    ensures ProductionOk(cfg, s')
  {
    assert forall o: nat :: o < cfg.events ==> Owner(cfg, s', o) == Owner(cfg, s, o);
  }

  // ----- Ownership steps ----------------------------------------------------

  lemma OwnershipClaim(cfg: Config, s: State, c: nat, batch: set<Row>)
    requires OwnershipOk(cfg, s) && Enabled(cfg, s, Claim(c, batch))
    ensures OwnershipOk(cfg, Apply(cfg, s, Claim(c, batch)))
  {
    var s' := Apply(cfg, s, Claim(c, batch));
    forall d: nat, r: Row
      ensures InFlight(s', d, r) <==> if d == c then r in batch else InFlight(s, d, r)
    {
    }
    forall r: Row | r in s'.claimed && r !in s'.recorded
      ensures exists d :: InFlight(s', d, r)
    {
      if r in batch {
        assert InFlight(s', c, r);
      } else {
        var d :| InFlight(s, d, r);
        assert InFlight(s', d, r);
      }
    }
  }

  lemma BatchIsFresh(cfg: Config, s: State, c: nat)
    requires OwnershipOk(cfg, s) && Enabled(cfg, s, Record(c))
    ensures s.claimers[c].batch <= s.claimed && s.claimers[c].batch * s.recorded == {}
    ensures !Apply(cfg, s, Record(c)).claimers[c].DuplicateOwnership?
  {
    forall r: Row | r in s.claimers[c].batch
      ensures r in s.claimed && r !in s.recorded
    {
      assert InFlight(s, c, r);
    }
  }

  lemma RecordedInFlight(s: State, s': State, c: nat)
    requires c < |s.claimers| && |s'.claimers| == |s.claimers| && !s'.claimers[c].Recording?
    requires s'.claimers == s.claimers[c := s'.claimers[c]]
    ensures forall d: nat, r: Row :: InFlight(s', d, r) <==> d != c && InFlight(s, d, r)
  {
  }

  lemma RecordedCounts(s: State, c: nat)
    requires c < |s.claimers| == |s.byWorker| == |s.empties| && s.claimers[c].Recording? && CountsOk(s)
    requires s.claimers[c].batch * s.recorded == {} && |s.claimers[c].batch| <= CLAIM_LIMIT
    ensures CountsOk(Recorded(s, c)) && Recorded(s, c).recorded == s.recorded + s.claimers[c].batch
  {
    var batch := s.claimers[c].batch;
    if batch != {} {
      assert s.recorded !! batch && |s.recorded + batch| == |s.recorded| + |batch|;
      SumUpdate(s.byWorker, c, s.byWorker[c] + |batch|);
    }
  }

  lemma RecordedFlights(s: State, s': State, c: nat)
    requires FlightsOk(s) && c < |s.claimers| && s.claimers[c].Recording?
    requires |s'.claimers| == |s.claimers| && !s'.claimers[c].Recording?
    requires s'.claimers == s.claimers[c := s'.claimers[c]]
    requires s'.claimed == s.claimed && s'.created == s.created && s'.recorded == s.recorded + s.claimers[c].batch
    ensures FlightsOk(s')
  {
    assert forall r :: r in s.claimers[c].batch ==> InFlight(s, c, r);
    RecordedInFlight(s, s', c);
    forall r: Row | r in s'.claimed && r !in s'.recorded
      ensures exists d :: InFlight(s', d, r)
    {
      var d :| InFlight(s, d, r);
      assert InFlight(s', d, r);
    }
  }

  lemma OwnershipRecord(cfg: Config, s: State, c: nat)
    requires OwnershipOk(cfg, s) && Enabled(cfg, s, Record(c))
    ensures OwnershipOk(cfg, Apply(cfg, s, Record(c)))
  {
    BatchIsFresh(cfg, s, c);
    RecordedCounts(s, c);
    RecordedFlights(s, Apply(cfg, s, Record(c)), c);
  }

  lemma OwnershipStep(cfg: Config, s: State, step: Step)
    requires OwnershipOk(cfg, s) && Enabled(cfg, s, step)
    ensures OwnershipOk(cfg, Apply(cfg, s, step))
  {
    match step
    case Claim(c, batch) => OwnershipClaim(cfg, s, c, batch);
    case Record(c) => OwnershipRecord(cfg, s, c);
    case _ =>
      var s' := Apply(cfg, s, step);
      forall d: nat, r: Row
        ensures InFlight(s', d, r) <==> InFlight(s, d, r)
      {
      }
  }

  // ----- View steps ---------------------------------------------------------

  lemma StillProducing(cfg: Config, s: State, p: nat)
    requires ProductionOk(cfg, s) && p < cfg.producers && !s.producers[p].Exhausted?
    ensures !s.finished
  {
  }

  lemma ViewsProduce(cfg: Config, s: State, step: Step)
    requires ViewsOk(cfg, s) && Enabled(cfg, s, step) && !s.finished
    requires step.Admit? || step.Create? || step.Announce? || step.Finish?
    ensures ViewsOk(cfg, Apply(cfg, s, step))
  {
    var s' := Apply(cfg, s, step);
    forall d | 0 <= d < |s'.claimers|
      ensures ViewOk(s', s'.claimers[d], s'.empties[d])
    {
      assert ViewOk(s, s.claimers[d], s.empties[d]);
    }
  }

  lemma ViewsClaim(cfg: Config, s: State, c: nat, batch: set<Row>)
    requires ViewsOk(cfg, s) && Enabled(cfg, s, Claim(c, batch)) && s.announced <= s.created
    ensures ViewsOk(cfg, Apply(cfg, s, Claim(c, batch)))
  {
    var s' := Apply(cfg, s, Claim(c, batch));
    forall d | 0 <= d < |s'.claimers|
      ensures ViewOk(s', s'.claimers[d], s'.empties[d])
    {
      assert ViewOk(s, s.claimers[d], s.empties[d]);
    }
  }

  lemma ViewsRecord(cfg: Config, s: State, c: nat)
    requires ViewsOk(cfg, s) && Enabled(cfg, s, Record(c)) && s.claimers[c].batch * s.recorded == {}
    ensures ViewsOk(cfg, Apply(cfg, s, Record(c)))
  {
    var s' := Apply(cfg, s, Record(c));
    assert ViewOk(s, s.claimers[c], s.empties[c]);
    forall d | 0 <= d < |s'.claimers| && d != c
      ensures ViewOk(s', s'.claimers[d], s'.empties[d])
    {
      assert ViewOk(s, s.claimers[d], s.empties[d]);
    }
  }

  lemma ViewsMove(cfg: Config, s: State, step: Step)
    requires ViewsOk(cfg, s) && Enabled(cfg, s, step)
    requires step.Read? || step.Park? || step.Wake?
    ensures ViewsOk(cfg, Apply(cfg, s, step))
  {
    assert ViewOk(s, s.claimers[step.c], s.empties[step.c]);
  }

  lemma ViewsStep(cfg: Config, s: State, step: Step)
    requires ProductionOk(cfg, s) && OwnershipOk(cfg, s) && ViewsOk(cfg, s) && Enabled(cfg, s, step)
    ensures ViewsOk(cfg, Apply(cfg, s, step))
  {
    match step
    case Claim(c, batch) =>
      AnnouncedWasCreated(cfg, s);
      ViewsClaim(cfg, s, c, batch);
    case Record(c) =>
      BatchIsFresh(cfg, s, c);
      ViewsRecord(cfg, s, c);
    case Read(_) => ViewsMove(cfg, s, step);
    case Park(_) => ViewsMove(cfg, s, step);
    case Wake(_) => ViewsMove(cfg, s, step);
    case Finish => ViewsProduce(cfg, s, step);
    case _ =>
      StillProducing(cfg, s, step.p);
      ViewsProduce(cfg, s, step);
  }

  lemma AnnouncedWasCreated(cfg: Config, s: State)
    requires ProductionOk(cfg, s)
    ensures s.announced <= s.created <= cfg.Rows()
    ensures s.admitted <= Below(cfg.events)
    ensures s.generation <= |s.created| <= cfg.RowCount()
    ensures |s.admitted| <= cfg.events
  {
    forall r | r in s.announced
      ensures r in s.created
    {
    }
    SubsetSize(s.announced, s.created);
    SubsetSize(s.created, cfg.Rows());
    SubsetSize(s.admitted, Below(cfg.events));
    RowsSize(cfg);
  }

  lemma RowsSize(cfg: Config)
    ensures |cfg.Rows()| == cfg.RowCount()
    ensures |Below(cfg.events)| == cfg.events
  {
    BelowSize(cfg.events);
    BelowSize(cfg.fanout);
    ProductSize(Below(cfg.events), Below(cfg.fanout));
  }

  lemma InvStep(cfg: Config, s: State, step: Step)
    requires Inv(cfg, s) && Enabled(cfg, s, step)
    ensures Inv(cfg, Apply(cfg, s, step))
  {
    ProductionStep(cfg, s, step);
    OwnershipStep(cfg, s, step);
    ViewsStep(cfg, s, step);
  }

  /** Every state of every run satisfies the invariant. */
  lemma {:induction false} RunInv(cfg: Config, steps: seq<Step>, states: seq<State>, i: nat)
    requires cfg.Runnable() && IsRun(cfg, steps, states) && i < |states|
    ensures Inv(cfg, states[i])
  {
    if i == 0 {
      InitInv(cfg);
    } else {
      RunInv(cfg, steps, states, i - 1);
      InvStep(cfg, states[i - 1], steps[i - 1]);
    }
  }
}
