/**
 * The campaign analyser: it audits a retained report and counts what it could
 * confirm. The rendering contract and the bridge context of a receipt are
 * verdicts that come with it; everything else is checked here.
 */
module Coverage {
  import opened Counting
  import Evidence
  import opened Results

  type Pair = (string, string)

  datatype Suite = Smoke | Baseline | UnknownSuite

  /** The fixture a case names; a case without one is a smoke turn. */
  datatype Fixture = SmokeTurn | Unicode | Lines | Literal | Budget | OtherFixture(name: string)

  datatype Identity = Identity(
    transport: string, sourceChannel: string, receiptSender: string, receiptChannel: string)
  {
    predicate Filled() {
      transport != "" && sourceChannel != "" && receiptSender != "" && receiptChannel != ""
    }
  }

  datatype NativeReceipt = NativeReceipt(
    received: bool,
    text: Option<string>,
    sender: Option<string>,
    channel: Option<string>,
    presentationOk: bool,
    contextOk: bool)

  datatype Case = Case(
    source: string,
    fixture: Option<Fixture>,
    marker: string,
    sentText: string,
    receipts: map<string, NativeReceipt>,
    core: Evidence.Item,
    body: Option<string>)

  datatype Declared = Full | Partial | OtherCoverage

  datatype Report = Report(
    passed: bool,
    expectedPairs: seq<seq<string>>,
    completedPairs: seq<seq<string>>,
    cleanedUp: bool,
    suite: Suite,
    cases: seq<Case>,
    topology: map<string, Identity>,
    contextExpectations: map<string, bool>,
    attributions: map<string, string>,
    coverage: Declared)

  /** An endpoint of a trusted plan, with the native identity that follows from it. */
  datatype Endpoint = Endpoint(identity: Identity, expectContext: bool, attribution: Option<string>)

  type Plan = map<string, Endpoint>

  /** What the analyser takes from other modules. */
  datatype Env = Env(
    validId: string -> bool,
    blank: string -> bool,
    authored: (Fixture, string, string) -> Option<string>,
    attributionsValid: Plan -> bool,
    transports: set<string>)

  datatype Finding =
    | NotPassing
    | DuplicateExpected
    | ExpectedIncomplete
    | CompletedDiffers
    | Uncleaned
    | CasesDiffer
    | EventsReused
    | TransportsDiffer
    | BadMarkers
    | TextDiffers
    | ReceiptsDiffer
    | NonceMissing
    | WrongConversation
    | PresentationDiffers
    | ContextDiffers
    | ProvenanceInconsistent

  datatype Summary = Summary(
    assessmentPassed: bool,
    expectedDirections: nat,
    completedDirections: nat,
    independentReceipts: nat,
    durableSourceCases: nat,
    findings: seq<Finding>)

  // ----- Directions ---------------------------------------------------------

  predicate PairOk(env: Env, pair: seq<string>) {
    |pair| == 2 && pair[0] != pair[1] && env.validId(pair[0]) && env.validId(pair[1])
  }

  predicate PairsOk(env: Env, pairs: seq<seq<string>>) {
    forall i :: 0 <= i < |pairs| ==> PairOk(env, pairs[i])
  }

  /** The pairs as tuples; anything that is not a pair has been refused before. */
  function Directions(pairs: seq<seq<string>>): seq<Pair> {
    seq(|pairs|, i requires 0 <= i < |pairs| => if |pairs[i]| == 2 then (pairs[i][0], pairs[i][1]) else ("", ""))
  }

  function Endpoints(expected: seq<Pair>): set<string> {
    (set p | p in expected :: p.0) + (set p | p in expected :: p.1)
  }

  function Sources(expected: seq<Pair>): set<string> {
    set p | p in expected :: p.0
  }

  /** Every ordered pair of distinct endpoints. */
  function AllPairs(names: set<string>): set<Pair> {
    set a, b | a in names && b in names && a != b :: (a, b)
  }

  function TargetsOf(expected: seq<Pair>, source: string): set<string> {
    set p | p in expected && p.0 == source :: p.1
  }

  // ----- Turns --------------------------------------------------------------

  function Fixtures(suite: Suite): set<Fixture> {
    if suite == Baseline then {Unicode, Lines, Literal, Budget} else {SmokeTurn}
  }

  function ExpectedTurns(expected: seq<Pair>, suite: Suite): set<(string, Fixture)> {
    Product(Sources(expected), Fixtures(suite))
  }

  function Turn(c: Case): (string, Fixture) {
    (c.source, if c.fixture.Some? then c.fixture.value else SmokeTurn)
  }

  function Turns(cases: seq<Case>): seq<(string, Fixture)> {
    seq(|cases|, i requires 0 <= i < |cases| => Turn(cases[i]))
  }

  function EventIds(cases: seq<Case>): seq<string> {
    seq(|cases|, i requires 0 <= i < |cases| => cases[i].core.event.id)
  }

  // ----- Markers ------------------------------------------------------------

  predicate Contains(text: string, part: string) {
    part <= text || (text != "" && Contains(text[1..], part))
  }

  /** `str.count`: occurrences that do not overlap. */
  function CountOf(text: string, part: string): nat
    requires part != ""
  {
    if |text| < |part| then 0
    else if part <= text then 1 + CountOf(text[|part|..], part)
    else CountOf(text[1..], part)
  }

  predicate MarkersPresent(env: Env, cases: seq<Case>) {
    forall i :: 0 <= i < |cases| ==> cases[i].marker != "" && !env.blank(cases[i].marker)
  }

  predicate MarkersApart(cases: seq<Case>) {
    forall i, j :: 0 <= i < |cases| && 0 <= j < |cases| && i != j ==> !Contains(cases[j].marker, cases[i].marker)
  }

  predicate Once(text: Option<string>, marker: string) {
    text.Some? && marker != "" && CountOf(text.value, marker) == 1
  }

  // ----- Report structure ---------------------------------------------------

  /** The report does not make the analyser raise. */
  predicate Readable(env: Env, r: Report) {
    && r.expectedPairs != []
    && PairsOk(env, r.expectedPairs)
    && PairsOk(env, r.completedPairs)
    && r.suite != UnknownSuite
    && (forall t :: t in r.contextExpectations ==> t in Endpoints(Directions(r.expectedPairs)))
    && r.topology.Keys == Endpoints(Directions(r.expectedPairs))
    && (forall name :: name in r.topology ==> r.topology[name].Filled())
  }

  function Transports(r: Report): set<string> {
    set name | name in r.topology :: r.topology[name].transport
  }

  predicate TransportsOk(env: Env, r: Report) {
    && (forall a, b :: a in r.topology && b in r.topology && a != b ==>
                         r.topology[a].transport != r.topology[b].transport)
    && Transports(r) <= env.transports
    && r.coverage != OtherCoverage
    && (r.coverage == Full <==> Transports(r) == env.transports)
  }

  predicate DirectionsComplete(r: Report) {
    var expected := Directions(r.expectedPairs);
    Elements(expected) == AllPairs(Endpoints(expected))
  }

  predicate TurnsCovered(r: Report) {
    var turns := ExpectedTurns(Directions(r.expectedPairs), r.suite);
    |Turns(r.cases)| == |turns| && Elements(Turns(r.cases)) == turns
  }

  predicate HeaderClean(env: Env, r: Report) {
    var expected, completed := Directions(r.expectedPairs), Directions(r.completedPairs);
    && r.passed
    && |Elements(expected)| == |expected|
    && DirectionsComplete(r)
    && Elements(completed) == Elements(expected) && |completed| == |expected|
    && r.cleanedUp
    && TurnsCovered(r)
    && "" !in EventIds(r.cases) && |Elements(EventIds(r.cases))| == |r.cases|
    && TransportsOk(env, r)
    && MarkersPresent(env, r.cases) && MarkersApart(r.cases)
  }

  // ----- One case -----------------------------------------------------------

  predicate ContextRequired(r: Report, target: string) {
    target in r.contextExpectations && r.contextExpectations[target]
  }

  predicate NonceOk(env: Env, r: Report, c: Case, receipt: NativeReceipt) {
    receipt.received && MarkersPresent(env, r.cases) && Once(receipt.text, c.marker)
  }

  predicate ConversationOk(r: Report, target: string, receipt: NativeReceipt) {
    // An unknown target has no expectation, which a receipt without sender and channel would meet.
    if target in r.topology then
      && receipt.sender == Some(r.topology[target].receiptSender)
      && receipt.channel == Some(r.topology[target].receiptChannel)
    else receipt.sender.None? && receipt.channel.None?
  }

  /** A receipt the analyser counts as an independent native confirmation. */
  predicate Confirmed(env: Env, r: Report, c: Case, target: string)
    requires target in c.receipts
  {
    NonceOk(env, r, c, c.receipts[target]) && ConversationOk(r, target, c.receipts[target])
  }

  predicate ReceiptClean(env: Env, r: Report, c: Case, target: string)
    requires target in c.receipts
  {
    var receipt := c.receipts[target];
    && Confirmed(env, r, c, target)
    && (r.suite == Baseline ==>
          && target in r.topology
          && receipt.presentationOk
          && (r.topology[target].transport == "matrix" || ContextRequired(r, target) ==> receipt.contextOk))
    && (ContextRequired(r, target) && r.suite != Baseline ==> receipt.contextOk)
  }

  function AuthoredText(env: Env, r: Report, c: Case): Option<string> {
    if c.fixture.None? || c.source !in r.topology then None
    else env.authored(c.fixture.value, c.marker, r.topology[c.source].transport)
  }

  function Conversations(r: Report, targets: set<string>): map<string, string> {
    map t | t in targets && t in r.topology :: r.topology[t].sourceChannel
  }

  /** The durable side of a case holds: the body carries the nonce once and delivery provenance checks out. */
  predicate DurableOk(env: Env, r: Report, c: Case, targets: set<string>)
  {
    && MarkersPresent(env, r.cases)
    && c.source in r.topology
    && Once(c.body, c.marker)
    && (r.suite == Baseline ==> AuthoredText(env, r, c).Some? && c.body == AuthoredText(env, r, c))
    && Evidence.Verify(c.core, c.source, r.topology[c.source].sourceChannel, Conversations(r, targets))
  }

  predicate CaseClean(env: Env, r: Report, c: Case, targets: set<string>)
  {
    && (r.suite == Baseline ==> AuthoredText(env, r, c) == Some(c.sentText))
    && c.receipts.Keys == targets
    && (forall t :: t in c.receipts ==> ReceiptClean(env, r, c, t))
    && DurableOk(env, r, c, targets)
  }

  function ConfirmedTargets(env: Env, r: Report, c: Case): set<string> {
    set t | t in c.receipts && Confirmed(env, r, c, t)
  }

  function CaseTargets(r: Report, c: Case): set<string> {
    TargetsOf(Directions(r.expectedPairs), c.source)
  }

  predicate Clean(env: Env, r: Report) {
    && HeaderClean(env, r)
    && forall i :: 0 <= i < |r.cases| ==> CaseClean(env, r, r.cases[i], CaseTargets(r, r.cases[i]))
  }

  function NativeCounts(env: Env, r: Report): seq<nat> {
    seq(|r.cases|, i requires 0 <= i < |r.cases| => |ConfirmedTargets(env, r, r.cases[i])|)
  }

  function DurableCounts(env: Env, r: Report): seq<nat> {
    seq(|r.cases|, i requires 0 <= i < |r.cases| =>
      if DurableOk(env, r, r.cases[i], CaseTargets(r, r.cases[i])) then 1 else 0)
  }

  // ----- The audit ----------------------------------------------------------

  method AuditHeader(env: Env, r: Report) returns (findings: seq<Finding>)
    ensures findings == [] <==> HeaderClean(env, r)
  {
    findings := [];
    var expected, completed := Directions(r.expectedPairs), Directions(r.completedPairs);
    if !r.passed {
      findings := findings + [NotPassing];
    }
    if |Elements(expected)| != |expected| {
      findings := findings + [DuplicateExpected];
    }
    if !DirectionsComplete(r) {
      findings := findings + [ExpectedIncomplete];
    }
    if Elements(completed) != Elements(expected) || |completed| != |expected| {
      findings := findings + [CompletedDiffers];
    }
    if !r.cleanedUp {
      findings := findings + [Uncleaned];
    }
    if !TurnsCovered(r) {
      findings := findings + [CasesDiffer];
    }
    if "" in EventIds(r.cases) || |Elements(EventIds(r.cases))| != |r.cases| {
      findings := findings + [EventsReused];
    }
    if !TransportsOk(env, r) {
      findings := findings + [TransportsDiffer];
    }
    if !MarkersPresent(env, r.cases) || !MarkersApart(r.cases) {
      findings := findings + [BadMarkers];
    }
  }

  /** One native receipt: at most one of the first findings, and a count when it is confirmed. */
  method AuditReceipt(env: Env, r: Report, c: Case, target: string) returns (counted: bool, findings: seq<Finding>)
    requires target in c.receipts
    ensures counted <==> Confirmed(env, r, c, target)
    ensures findings == [] <==> ReceiptClean(env, r, c, target)
  {
    var receipt := c.receipts[target];
    counted, findings := false, [];
    if !NonceOk(env, r, c, receipt) {
      findings := [NonceMissing];
    } else if !ConversationOk(r, target, receipt) {
      findings := [WrongConversation];
    } else {
      counted := true;
      if r.suite == Baseline {
        if target !in r.topology || !receipt.presentationOk
           || ((r.topology[target].transport == "matrix" || ContextRequired(r, target)) && !receipt.contextOk)
        {
          findings := [PresentationDiffers];
        }
      }
    }
    if ContextRequired(r, target) && r.suite != Baseline && !receipt.contextOk {
      findings := findings + [ContextDiffers];
    }
  }

  function DirtyTargets(env: Env, r: Report, c: Case): set<string> {
    set t | t in c.receipts && !ReceiptClean(env, r, c, t)
  }

  lemma NoneDirty(env: Env, r: Report, c: Case)
    ensures DirtyTargets(env, r, c) == {} <==> forall t :: t in c.receipts ==> ReceiptClean(env, r, c, t)
  {
    forall t | t in c.receipts && !ReceiptClean(env, r, c, t)
      ensures t in DirtyTargets(env, r, c)
    {
    }
  }

  lemma OneLess(all: set<string>, todo: set<string>, t: string)
    requires t in todo
    ensures t in all ==> |all - (todo - {t})| == |all - todo| + 1
    ensures t !in all ==> all - (todo - {t}) == all - todo
  {
    if t in all {
      assert all - (todo - {t}) == (all - todo) + {t};
    } else {
      assert all - (todo - {t}) == all - todo;
    }
  }

  ghost predicate Progress(confirmed: set<string>, dirty: set<string>, todo: set<string>, count: nat, quiet: bool) {
    count == |confirmed - todo| && (quiet <==> |dirty - todo| == 0)
  }

  lemma Advance(confirmed: set<string>, dirty: set<string>, todo: set<string>, t: string, count: nat, quiet: bool)
    requires t in todo && Progress(confirmed, dirty, todo, count, quiet)
    ensures Progress(confirmed, dirty, todo - {t}, if t in confirmed then count + 1 else count, quiet && t !in dirty)
  {
    OneLess(confirmed, todo, t);
    OneLess(dirty, todo, t);
  }

  lemma AllAudited(confirmed: set<string>, dirty: set<string>, count: nat, quiet: bool)
    requires Progress(confirmed, dirty, {}, count, quiet)
    ensures count == |confirmed| && (quiet <==> dirty == {})
  {
    assert confirmed - {} == confirmed && dirty - {} == dirty;
  }

  /** The receipts that should count and those that should not pass. */
  ghost predicate Judges(env: Env, r: Report, c: Case, confirmed: set<string>, dirty: set<string>) {
    && confirmed <= c.receipts.Keys && dirty <= c.receipts.Keys
    && (forall t :: t in c.receipts ==> (Confirmed(env, r, c, t) <==> t in confirmed))
    && (forall t :: t in c.receipts ==> (ReceiptClean(env, r, c, t) <==> t !in dirty))
  }

  /** One receipt of the pass. */
  method AuditNext(
    env: Env, r: Report, c: Case, t: string, count0: nat, findings0: seq<Finding>,
    ghost todo: set<string>, ghost confirmed: set<string>, ghost dirty: set<string>)
    returns (count: nat, findings: seq<Finding>)
    requires t in c.receipts && t in todo && Judges(env, r, c, confirmed, dirty)
    requires Progress(confirmed, dirty, todo, count0, findings0 == [])
    ensures Progress(confirmed, dirty, todo - {t}, count, findings == [])
  {
    var counted, more := AuditReceipt(env, r, c, t);
    assert (counted <==> t in confirmed) && (more == [] <==> t !in dirty);
    Advance(confirmed, dirty, todo, t, count0, findings0 == []);
    count := if counted then count0 + 1 else count0;
    findings := findings0 + more;
  }

  lemma NothingAudited(keys: set<string>, confirmed: set<string>, dirty: set<string>)
    requires confirmed <= keys && dirty <= keys
    ensures Progress(confirmed, dirty, keys, 0, true)
  {
    assert confirmed - keys == {} && dirty - keys == {};
  }

  /** One pass over a case's receipts. */
  method AuditReceipts(env: Env, r: Report, c: Case, ghost confirmed: set<string>, ghost dirty: set<string>)
    returns (count: nat, findings: seq<Finding>)
    requires Judges(env, r, c, confirmed, dirty)
    ensures count == |confirmed|
    ensures findings == [] <==> dirty == {}
  {
    count, findings := 0, [];
    var todo := c.receipts.Keys;
    NothingAudited(todo, confirmed, dirty);
    while todo != {}
      invariant todo <= c.receipts.Keys
      invariant Progress(confirmed, dirty, todo, count, findings == [])
      decreases |todo|
    {
      var t :| t in todo;
      count, findings := AuditNext(env, r, c, t, count, findings, todo, confirmed, dirty);
      todo := todo - {t};
    }
    AllAudited(confirmed, dirty, count, findings == []);
  }

  method AuditCase(env: Env, r: Report, c: Case, targets: set<string>)
    returns (count: nat, durable: bool, findings: seq<Finding>)
    ensures count == |ConfirmedTargets(env, r, c)|
    ensures durable <==> DurableOk(env, r, c, targets)
    ensures findings == [] <==> CaseClean(env, r, c, targets)
  {
    var texts: seq<Finding> :=
      if r.suite == Baseline && AuthoredText(env, r, c) != Some(c.sentText) then [TextDiffers] else [];
    if c.receipts.Keys != targets {
      texts := texts + [ReceiptsDiffer];
    }
    count, findings := AuditReceipts(env, r, c, ConfirmedTargets(env, r, c), DirtyTargets(env, r, c));
    NoneDirty(env, r, c);
    durable := DurableOk(env, r, c, targets);
    findings := texts + findings;
    if !durable {
      findings := findings + [ProvenanceInconsistent];
    }
  }

  ghost predicate CasesClean(env: Env, r: Report, n: nat)
    requires n <= |r.cases|
  {
    forall j :: 0 <= j < n ==> CaseClean(env, r, r.cases[j], CaseTargets(r, r.cases[j]))
  }

  lemma CasesCleanNext(env: Env, r: Report, i: nat)
    requires i < |r.cases|
    ensures CasesClean(env, r, i + 1) <==>
              CasesClean(env, r, i) && CaseClean(env, r, r.cases[i], CaseTargets(r, r.cases[i]))
  {
  }

  method AuditCases(env: Env, r: Report, header: seq<Finding>)
    returns (nativeCount: nat, durableCount: nat, findings: seq<Finding>)
    ensures nativeCount == Sum(NativeCounts(env, r))
    ensures durableCount == Sum(DurableCounts(env, r))
    ensures findings == [] <==> header == [] && CasesClean(env, r, |r.cases|)
  {
    nativeCount, durableCount, findings := 0, 0, header;
    ghost var native, durables := NativeCounts(env, r), DurableCounts(env, r);
    for i := 0 to |r.cases|
      invariant nativeCount == Sum(native[..i])
      invariant durableCount == Sum(durables[..i])
      invariant findings == [] <==> header == [] && CasesClean(env, r, i)
    {
      var c := r.cases[i];
      var count, durable, more := AuditCase(env, r, c, CaseTargets(r, c));
      CasesCleanNext(env, r, i);
      SumNext(native, i);
      SumNext(durables, i);
      nativeCount := nativeCount + count;
      durableCount := durableCount + (if durable then 1 else 0);
      findings := findings + more;
    }
    assert native[..|r.cases|] == native && durables[..|r.cases|] == durables;
  }

  // ----- A trusted plan -----------------------------------------------------

  function Attribution(r: Report, name: string): Option<string> {
    if name in r.attributions then Some(r.attributions[name]) else None
  }

  predicate PlanExpects(e: Endpoint) {
    e.identity.transport == "matrix" || e.expectContext
  }

  /** The retained expectations are those of the plan. */
  predicate PlanAgrees(env: Env, plan: Plan, r: Report) {
    && ((exists name :: name in plan && plan[name].expectContext) ==> env.attributionsValid(plan))
    && plan.Keys == Endpoints(Directions(r.expectedPairs))
    && (forall name :: name in plan ==>
          && ContextRequired(r, name) == PlanExpects(plan[name])
          && Attribution(r, name) == plan[name].attribution
          && name in r.topology && r.topology[name] == plan[name].identity)
  }

  /** With a trusted plan, its context expectations replace the retained ones. */
  function Effective(plan: Option<Plan>, r: Report): Report {
    if plan.None? then r
    else r.(contextExpectations := map name | name in plan.value :: PlanExpects(plan.value[name]))
  }

  ghost predicate SameReport(r: Report, r': Report) {
    && r' == r.(contextExpectations := r'.contextExpectations)
    && forall t :: ContextRequired(r', t) == ContextRequired(r, t)
  }

  lemma PlanIsRetained(env: Env, plan: Option<Plan>, r: Report)
    requires Readable(env, r) && (plan.Some? ==> PlanAgrees(env, plan.value, r))
    ensures SameReport(r, Effective(plan, r))
  {
  }

  lemma SameCase(env: Env, r: Report, r': Report, c: Case, targets: set<string>)
    requires SameReport(r, r')
    ensures ConfirmedTargets(env, r', c) == ConfirmedTargets(env, r, c)
    ensures DurableOk(env, r', c, targets) == DurableOk(env, r, c, targets)
    ensures CaseClean(env, r', c, targets) == CaseClean(env, r, c, targets)
  {
    forall t | t in c.receipts
      ensures Confirmed(env, r', c, t) == Confirmed(env, r, c, t)
      ensures ReceiptClean(env, r', c, t) == ReceiptClean(env, r, c, t)
    {
    }
    assert AuthoredText(env, r', c) == AuthoredText(env, r, c);
    assert Conversations(r', targets) == Conversations(r, targets);
  }

  lemma SameHeader(env: Env, r: Report, r': Report)
    requires SameReport(r, r')
    ensures HeaderClean(env, r') == HeaderClean(env, r)
  {
    assert Transports(r') == Transports(r);
  }

  lemma SameCounts(env: Env, r: Report, r': Report)
    requires SameReport(r, r')
    ensures NativeCounts(env, r') == NativeCounts(env, r)
    ensures DurableCounts(env, r') == DurableCounts(env, r)
  {
    forall i | 0 <= i < |r.cases|
      ensures NativeCounts(env, r')[i] == NativeCounts(env, r)[i]
      ensures DurableCounts(env, r')[i] == DurableCounts(env, r)[i]
    {
      SameCase(env, r, r', r.cases[i], CaseTargets(r, r.cases[i]));
    }
  }

  lemma SameClean(env: Env, r: Report, r': Report)
    requires SameReport(r, r')
    ensures Clean(env, r') <==> Clean(env, r)
  {
    SameHeader(env, r, r');
    forall i | 0 <= i < |r.cases|
      ensures CaseClean(env, r', r.cases[i], CaseTargets(r', r.cases[i]))
           == CaseClean(env, r, r.cases[i], CaseTargets(r, r.cases[i]))
    {
      SameCase(env, r, r', r.cases[i], CaseTargets(r, r.cases[i]));
    }
  }

  /** A trusted plan can refuse a report; it never changes what the analysis says about one. */
  lemma PlanOnlyRefuses(env: Env, plan: Option<Plan>, r: Report)
    requires Readable(env, r) && (plan.Some? ==> PlanAgrees(env, plan.value, r))
    ensures var r' := Effective(plan, r);
      && (Clean(env, r') <==> Clean(env, r))
      && NativeCounts(env, r') == NativeCounts(env, r)
      && DurableCounts(env, r') == DurableCounts(env, r)
  {
    PlanIsRetained(env, plan, r);
    SameClean(env, r, Effective(plan, r));
    SameCounts(env, r, Effective(plan, r));
  }

  /** `list(dict.fromkeys(findings))`: the first occurrence of each. */
  function FirstOnes(findings: seq<Finding>): (once: seq<Finding>)
    ensures Distinct(once) && Elements(once) == Elements(findings)
  {
    if findings == [] then []
    else
      var n := |findings| - 1;
      var front := FirstOnes(findings[..n]);
      assert Elements(findings) == Elements(findings[..n]) + {findings[n]};
      assert forall i :: 0 <= i < |front| ==> front[i] in Elements(front);
      if findings[n] in front then front else front + [findings[n]]
  }

  lemma NoFindings(findings: seq<Finding>)
    ensures FirstOnes(findings) == [] <==> findings == []
  {
    if findings != [] {
      assert findings[0] in Elements(FirstOnes(findings));
    }
  }

  /**
   * The whole analysis: it raises exactly on unreadable reports and on those that
   * a trusted plan contradicts, passes exactly the clean ones, and its counters
   * are exact for all others.
   */
  method Summarize(env: Env, plan: Option<Plan>, r: Report) returns (out: Result<Summary, string>)
    ensures out.Ok? <==> Readable(env, r) && (plan.Some? ==> PlanAgrees(env, plan.value, r))
    ensures out.Ok? ==> (out.value.assessmentPassed <==> Clean(env, r))
    ensures out.Ok? ==> (out.value.assessmentPassed <==> out.value.findings == [])
    ensures out.Ok? ==> Distinct(out.value.findings)
    ensures out.Ok? ==> out.value.expectedDirections == |r.expectedPairs|
    ensures out.Ok? ==> out.value.completedDirections == |r.completedPairs|
    ensures out.Ok? ==> out.value.independentReceipts == Sum(NativeCounts(env, r))
    ensures out.Ok? ==> out.value.durableSourceCases == Sum(DurableCounts(env, r))
  {
    if !Readable(env, r) {
      return Err("Invalid campaign report");
    }
    if plan.Some? && !PlanAgrees(env, plan.value, r) {
      return Err("Retained expectations differ from the trusted plan");
    }
    PlanOnlyRefuses(env, plan, r);
    var summary := Assess(env, Effective(plan, r));
    out := Ok(summary);
  }

  /** The findings and counters of a readable report. */
  method Assess(env: Env, r: Report) returns (out: Summary)
    ensures out.assessmentPassed <==> Clean(env, r)
    ensures out.assessmentPassed <==> out.findings == []
    ensures Distinct(out.findings)
    ensures out.expectedDirections == |r.expectedPairs|
    ensures out.completedDirections == |r.completedPairs|
    ensures out.independentReceipts == Sum(NativeCounts(env, r))
    ensures out.durableSourceCases == Sum(DurableCounts(env, r))
  {
    var header := AuditHeader(env, r);
    var nativeCount, durableCount, findings := AuditCases(env, r, header);
    NoFindings(findings);
    out := Summary(
      findings == [], |r.expectedPairs|, |r.completedPairs|, nativeCount, durableCount, FirstOnes(findings));
  }

  lemma SumNext(s: seq<nat>, i: nat)
    requires i < |s|
    ensures Sum(s[..i + 1]) == Sum(s[..i]) + s[i]
  {
    assert s[..i + 1][..i] == s[..i];
  }

  // ----- What a pass means --------------------------------------------------

  lemma AllPairsSize(names: set<string>)
    ensures |AllPairs(names)| + |names| == |names| * |names|
  {
    ProductSize(names, names);
    var diagonal := set a | a in names :: (a, a);
    DiagonalSize(names);
    assert Product(names, names) == AllPairs(names) + diagonal;
    assert AllPairs(names) !! diagonal;
  }

  lemma {:induction false} DiagonalSize(names: set<string>)
    ensures |set a | a in names :: (a, a)| == |names|
    decreases names
  {
    if names != {} {
      var x :| x in names;
      DiagonalSize(names - {x});
      assert (set a | a in names :: (a, a)) == (set a | a in names - {x} :: (a, a)) + {(x, x)};
    }
  }

  /** In complete directions every endpoint is a source, and its targets are all the others. */
  lemma CompleteDirections(expected: seq<Pair>)
    requires Elements(expected) == AllPairs(Endpoints(expected))
    ensures Sources(expected) == Endpoints(expected)
    ensures forall s :: s in Endpoints(expected) ==> TargetsOf(expected, s) == Endpoints(expected) - {s}
  {
    var names := Endpoints(expected);
    forall a | a in names
      ensures a in Sources(expected)
      ensures TargetsOf(expected, a) == names - {a}
    {
      var p :| p in expected && (p.0 == a || p.1 == a);
      assert p in Elements(expected);
      var b := if p.0 == a then p.1 else p.0;
      assert (a, b) in AllPairs(names);
      assert (a, b) in Elements(expected);
      forall t
        ensures t in TargetsOf(expected, a) <==> t in names - {a}
      {
        assert (a, t) in Elements(expected) <==> (a, t) in AllPairs(names);
        if t in names - {a} {
          assert (a, t) in expected;
        }
        if t in TargetsOf(expected, a) {
          var q :| q in expected && q.0 == a && q.1 == t;
          assert q in Elements(expected) && q == (a, t);
        }
      }
    }
  }

  lemma FixtureCount(suite: Suite)
    ensures |Fixtures(suite)| == if suite == Baseline then 4 else 1
  {
  }

  /** The completed directions of a passing report are a permutation of all ordered pairs of endpoints. */
  lemma PassCoversAllPairs(env: Env, r: Report)
    requires Clean(env, r)
    ensures var names := Endpoints(Directions(r.expectedPairs));
      var completed := Directions(r.completedPairs);
      && Distinct(completed)
      && Elements(completed) == AllPairs(names)
      && |completed| + |names| == |names| * |names|
  {
    var completed := Directions(r.completedPairs);
    DistinctSize(completed);
    AllPairsSize(Endpoints(Directions(r.expectedPairs)));
  }

  lemma CasesPerSource(r: Report)
    requires DirectionsComplete(r) && TurnsCovered(r)
    ensures |r.cases| == |Fixtures(r.suite)| * |Endpoints(Directions(r.expectedPairs))|
    ensures forall i :: 0 <= i < |r.cases| ==> r.cases[i].source in Endpoints(Directions(r.expectedPairs))
  {
    var expected := Directions(r.expectedPairs);
    CompleteDirections(expected);
    ProductSize(Sources(expected), Fixtures(r.suite));
    forall i | 0 <= i < |r.cases|
      ensures r.cases[i].source in Endpoints(expected)
    {
      assert Turns(r.cases)[i] in Elements(Turns(r.cases));
    }
  }

  lemma CleanCaseCounts(env: Env, r: Report, i: nat)
    requires Clean(env, r) && i < |r.cases|
    ensures NativeCounts(env, r)[i] == |Endpoints(Directions(r.expectedPairs))| - 1
    ensures DurableCounts(env, r)[i] == 1
  {
    var expected, c := Directions(r.expectedPairs), r.cases[i];
    CompleteDirections(expected);
    CasesPerSource(r);
    assert CaseClean(env, r, c, CaseTargets(r, c));
    assert ConfirmedTargets(env, r, c) == Endpoints(expected) - {c.source};
  }

  lemma CaseCount(r: Report, n: nat, k: nat)
    requires DirectionsComplete(r) && TurnsCovered(r)
    requires n == |Endpoints(Directions(r.expectedPairs))| && k == (if r.suite == Baseline then 4 else 1)
    ensures |r.cases| == k * n
  {
    FixtureCount(r.suite);
    CasesPerSource(r);
  }

  lemma SumsOfConstants(native: seq<nat>, durable: seq<nat>, each: nat, cases: nat)
    requires |native| == |durable| == cases
    requires forall i :: 0 <= i < cases ==> native[i] == each && durable[i] == 1
    ensures Sum(native) == each * cases && Sum(durable) == cases
  {
    SumConstant(native, each);
    SumConstant(durable, 1);
  }

  lemma CountsPerCase(native: seq<nat>, durable: seq<nat>, env: Env, r: Report, n: nat)
    requires Clean(env, r) && n == |Endpoints(Directions(r.expectedPairs))|
    requires native == NativeCounts(env, r) && durable == DurableCounts(env, r)
    ensures |native| == |durable| == |r.cases|
    ensures forall i :: 0 <= i < |native| ==> native[i] == n - 1 && durable[i] == 1
  {
    forall i | 0 <= i < |r.cases|
      ensures native[i] == n - 1 && durable[i] == 1
    {
      CleanCaseCounts(env, r, i);
    }
  }

  lemma Rearranged(m: nat, n: nat, k: nat)
    ensures m * (k * n) == k * (n * m)
  {
  }

  /** The totals of `cases` cases with n−1 receipts each. */
  lemma Totals(native: seq<nat>, durable: seq<nat>, cases: nat, n: nat, k: nat)
    requires 1 <= n && cases == k * n && |native| == |durable| == cases
    requires forall i :: 0 <= i < |native| ==> native[i] == n - 1 && durable[i] == 1
    ensures Sum(durable) == k * n && Sum(native) == k * (n * (n - 1))
  {
    SumsOfConstants(native, durable, n - 1, cases);
    Rearranged(n - 1, n, k);
  }

  /**
   * With n endpoints and k fixtures per source, a passing report has k·n cases,
   * all durable, and k·n·(n−1) confirmed native receipts; k is 4 or 1 by suite.
   */
  lemma PassCounts(env: Env, r: Report, n: nat, k: nat)
    requires Readable(env, r) && Clean(env, r)
    requires n == |Endpoints(Directions(r.expectedPairs))| && k == (if r.suite == Baseline then 4 else 1)
    ensures n >= 2
    ensures |r.cases| == k * n
    ensures Sum(DurableCounts(env, r)) == k * n
    ensures Sum(NativeCounts(env, r)) == k * (n * (n - 1))
  {
    assert PairOk(env, r.expectedPairs[0]);
    AtLeastTwo(env, r);
    CaseCount(r, n, k);
    var native, durable := NativeCounts(env, r), DurableCounts(env, r);
    CountsPerCase(native, durable, env, r, n);
    Totals(native, durable, |r.cases|, n, k);
  }

  lemma AtLeastTwo(env: Env, r: Report)
    requires r.expectedPairs != [] && PairOk(env, r.expectedPairs[0])
    ensures |Endpoints(Directions(r.expectedPairs))| >= 2
  {
    var expected := Directions(r.expectedPairs);
    var p := expected[0];
    assert p in expected;
    SubsetSize({p.0, p.1}, Endpoints(expected));
  }

  // ----- Every direction ----------------------------------------------------

  lemma OneCasePerTurn(r: Report, a: string, f: Fixture) returns (i: nat)
    requires DirectionsComplete(r) && TurnsCovered(r)
    requires a in Endpoints(Directions(r.expectedPairs)) && f in Fixtures(r.suite)
    ensures i < |r.cases| && Turn(r.cases[i]) == (a, f)
    ensures forall j :: 0 <= j < |r.cases| && Turn(r.cases[j]) == (a, f) ==> j == i
  {
    var turns := Turns(r.cases);
    CompleteDirections(Directions(r.expectedPairs));
    assert (a, f) in ExpectedTurns(Directions(r.expectedPairs), r.suite);
    assert (a, f) in Elements(turns);
    i :| 0 <= i < |turns| && turns[i] == (a, f);
    DistinctSize(turns);
    forall j | 0 <= j < |r.cases| && Turn(r.cases[j]) == (a, f)
      ensures j == i
    {
      assert turns[j] == turns[i];
    }
  }

  /** The one outbox row for a target of an accepted item, and what it must say. */
  lemma OneRowPerTarget(item: Evidence.Item, source: string, channel: string, targets: Evidence.Targets, t: string)
    returns (j: nat)
    requires Evidence.Verify(item, source, channel, targets) && t in targets
    ensures j < |item.outbox| && item.outbox[j].targetAdapter == t
    ensures forall k :: 0 <= k < |item.outbox| && item.outbox[k].targetAdapter == t ==> k == j
    ensures item.outbox[j].status == Evidence.Sent && item.outbox[j].attempt == 1
    ensures item.outbox[j].dispatchSource == Evidence.Live && item.outbox[j].replayRun.None?
    ensures item.outbox[j].eventId == item.event.id && item.outbox[j].targetChannel == targets[t]
  {
    var ts := Evidence.RowTargets(item.outbox);
    assert t in Elements(ts);
    j :| 0 <= j < |ts| && ts[j] == t;
    Evidence.EveryRowIsLive(item, source, channel, targets, j);
    Evidence.CountsForceDistinct(item, targets);
    forall k | 0 <= k < |item.outbox| && item.outbox[k].targetAdapter == t
      ensures k == j
    {
      Evidence.RowByTarget(item, j, k);
    }
  }

  lemma CleanCaseReaches(env: Env, r: Report, i: nat, b: string) returns (j: nat)
    requires Clean(env, r) && i < |r.cases| && b in CaseTargets(r, r.cases[i]) && b in r.topology
    ensures var c := r.cases[i];
      && b in c.receipts && Confirmed(env, r, c, b)
      && j < |c.core.outbox| && c.core.outbox[j].targetAdapter == b
      && (forall k :: 0 <= k < |c.core.outbox| && c.core.outbox[k].targetAdapter == b ==> k == j)
      && c.core.outbox[j].status == Evidence.Sent && c.core.outbox[j].attempt == 1
      && c.core.outbox[j].dispatchSource == Evidence.Live && c.core.outbox[j].replayRun.None?
      && c.core.outbox[j].targetChannel == r.topology[b].sourceChannel
  {
    var c := r.cases[i];
    var targets := CaseTargets(r, c);
    assert CaseClean(env, r, c, targets);
    j := OneRowPerTarget(c.core, c.source, r.topology[c.source].sourceChannel, Conversations(r, targets), b);
  }

  /**
   * What a pass says about one direction: for every ordered pair of endpoints and
   * every fixture there is exactly one case; its native receipt at the target is
   * confirmed, and its one outbox row for the target is sent, live, first-attempt
   * work for the target's conversation.
   */
  lemma PassCoversDirection(env: Env, r: Report, a: string, b: string, f: Fixture) returns (i: nat, j: nat)
    requires Readable(env, r) && Clean(env, r) && f in Fixtures(r.suite)
    requires var names := Endpoints(Directions(r.expectedPairs)); a in names && b in names && a != b
    ensures i < |r.cases| && Turn(r.cases[i]) == (a, f)
    ensures forall k :: 0 <= k < |r.cases| && Turn(r.cases[k]) == (a, f) ==> k == i
    ensures b in r.topology
    ensures var c := r.cases[i];
      && b in c.receipts && Confirmed(env, r, c, b)
      && j < |c.core.outbox| && c.core.outbox[j].targetAdapter == b
      && (forall k :: 0 <= k < |c.core.outbox| && c.core.outbox[k].targetAdapter == b ==> k == j)
      && c.core.outbox[j].status == Evidence.Sent && c.core.outbox[j].attempt == 1
      && c.core.outbox[j].dispatchSource == Evidence.Live && c.core.outbox[j].replayRun.None?
      && c.core.outbox[j].targetChannel == r.topology[b].sourceChannel
  {
    i := OneCasePerTurn(r, a, f);
    CompleteDirections(Directions(r.expectedPairs));
    assert b in CaseTargets(r, r.cases[i]);
    j := CleanCaseReaches(env, r, i, b);
  }
}
