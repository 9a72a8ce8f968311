/**
 * The adapter registry's strict constructor. A field that Python leaves
 * untyped is an `Option`, with `None` for a value of the wrong type.
 */
module AdapterRegistry {
  import opened Counting
  import opened Ordering
  import opened Results

  const API_VERSION := 1
  const LEVELS := {"DEBUG", "INFO", "WARNING", "ERROR", "CRITICAL"}

  datatype Destination = Destination(kind: string, validator: string)

  datatype Spec = Spec(
    transport: string,
    apiVersion: Option<int>,
    priority: Option<int>,
    cliRegister: bool,
    cliDispatch: bool,
    loggers: seq<(string, string)>,
    endpointFields: seq<string>,
    secretFields: seq<string>,
    destinations: seq<Destination>)

  datatype Registry = Registry(
    specs: seq<Spec>,
    byTransport: map<string, Spec>,
    destinations: map<string, Destination>,
    nativeOrder: seq<Spec>)

  // ----- Names --------------------------------------------------------------

  predicate NameStart(c: char) {
    'a' <= c <= 'z'
  }

  predicate NameRest(c: char) {
    NameStart(c) || '0' <= c <= '9' || c == '_' || c == '-'
  }

  /** `[a-z][a-z0-9_-]*` in full. */
  predicate ValidName(s: string) {
    s != "" && NameStart(s[0]) && forall i :: 1 <= i < |s| ==> NameRest(s[i])
  }

  // ----- What one spec must satisfy -----------------------------------------

  predicate LoggerNameOk(name: string) {
    name != "" && name != "root" && name != "medre" && !("medre." <= name)
  }

  predicate LoggersOk(loggers: seq<(string, string)>) {
    && (forall i :: 0 <= i < |loggers| ==> LoggerNameOk(loggers[i].0) && loggers[i].1 in LEVELS)
    && (forall i, j :: 0 <= i < j < |loggers| ==> loggers[i].0 != loggers[j].0)
  }

  predicate PlainFieldsOk(s: Spec) {
    && s.apiVersion == Some(API_VERSION)
    && ValidName(s.transport)
    && s.priority.Some? && 0 <= s.priority.value
    && s.cliRegister == s.cliDispatch
    && Distinct(s.endpointFields)
    && Distinct(s.secretFields)
    && Elements(s.endpointFields) !! Elements(s.secretFields)
  }

  predicate KindOk(kind: string) {
    ValidName(kind) && kind != "channel"
  }

  function Kinds(ds: seq<Destination>): seq<string> {
    seq(|ds|, i requires 0 <= i < |ds| => ds[i].kind)
  }

  predicate DestinationsOk(ds: seq<Destination>) {
    (forall i :: 0 <= i < |ds| ==> KindOk(ds[i].kind)) && Distinct(Kinds(ds))
  }

  predicate SpecOk(s: Spec) {
    PlainFieldsOk(s) && LoggersOk(s.loggers) && DestinationsOk(s.destinations)
  }

  predicate Owns(s: Spec, kind: string) {
    kind in Kinds(s.destinations)
  }

  /** The sets of specs a registry can hold. */
  ghost predicate Acceptable(specs: seq<Spec>) {
    && (forall i :: 0 <= i < |specs| ==> SpecOk(specs[i]))
    && (forall i, j :: 0 <= i < j < |specs| ==> specs[i].transport != specs[j].transport)
    && (forall i, j, k :: 0 <= i < j < |specs| && Owns(specs[i], k) ==> !Owns(specs[j], k))
  }

  // ----- What the registry answers ------------------------------------------

  predicate PriorityLe(a: Spec, b: Spec) {
    (if a.priority.Some? then a.priority.value else 0) <= (if b.priority.Some? then b.priority.value else 0)
  }

  ghost predicate TransportIndex(specs: seq<Spec>, m: map<string, Spec>) {
    && (forall t :: t in m ==> m[t] in specs && m[t].transport == t)
    && (forall i :: 0 <= i < |specs| ==> specs[i].transport in m && m[specs[i].transport] == specs[i])
  }

  predicate Listed(m: map<string, Destination>, d: Destination) {
    d.kind in m && m[d.kind] == d
  }

  ghost predicate DestinationIndex(specs: seq<Spec>, m: map<string, Destination>) {
    && (forall k :: k in m ==> m[k].kind == k && exists i :: 0 <= i < |specs| && m[k] in specs[i].destinations)
    && (forall i, d :: 0 <= i < |specs| && d in specs[i].destinations ==> Listed(m, d))
  }

  // ----- The constructor ----------------------------------------------------

  method CheckLoggers(loggers: seq<(string, string)>) returns (ok: bool)
    ensures ok <==> LoggersOk(loggers)
  {
    var names: set<string> := {};
    for i := 0 to |loggers|
      invariant LoggersOk(loggers[..i])
      invariant names == set j | 0 <= j < i :: loggers[j].0
    {
      var (name, level) := loggers[i];
      if !LoggerNameOk(name) || name in names || level !in LEVELS {
        return false;
      }
      names := names + {name};
    }
    assert loggers[..|loggers|] == loggers;
    ok := true;
  }

  /** Adds one spec's destinations to the shared table, or reports a clash. */
  method AddDestinations(ds: seq<Destination>, table: map<string, Destination>)
    returns (ok: bool, out: map<string, Destination>)
    ensures ok <==> DestinationsOk(ds) && forall i :: 0 <= i < |ds| ==> ds[i].kind !in table
    ensures ok ==> out.Keys == table.Keys + Elements(Kinds(ds))
    ensures ok ==> forall k :: k in table ==> out[k] == table[k]
    ensures ok ==> forall i :: 0 <= i < |ds| ==> Listed(out, ds[i])
  {
    out := table;
    for i := 0 to |ds|
      invariant DestinationsOk(ds[..i])
      invariant forall j :: 0 <= j < i ==> ds[j].kind !in table
      invariant out.Keys == table.Keys + Elements(Kinds(ds[..i]))
      invariant forall k :: k in table ==> out[k] == table[k]
      invariant forall j :: 0 <= j < i ==> Listed(out, ds[j])
    {
      var d := ds[i];
      KindsAppend(ds, i);
      if !ValidName(d.kind) || d.kind == "channel" || d.kind in out {
        if d.kind in Elements(Kinds(ds[..i])) {
          Repeated(ds, i);
        }
        return false, out;
      }
      out := out[d.kind := d];
    }
    assert ds[..|ds|] == ds;
    ok := true;
  }

  lemma KindsAppend(ds: seq<Destination>, i: nat)
    requires i < |ds|
    ensures Kinds(ds[..i + 1]) == Kinds(ds[..i]) + [ds[i].kind]
    ensures Elements(Kinds(ds[..i + 1])) == Elements(Kinds(ds[..i])) + {ds[i].kind}
    ensures DestinationsOk(ds[..i]) && KindOk(ds[i].kind) && ds[i].kind !in Elements(Kinds(ds[..i])) ==>
              DestinationsOk(ds[..i + 1])
  {
    var a, b := Kinds(ds[..i]), Kinds(ds[..i + 1]);
    assert b == a + [ds[i].kind];
    assert forall j :: 0 <= j < i ==> a[j] in Elements(a);
    if DestinationsOk(ds[..i]) && KindOk(ds[i].kind) && ds[i].kind !in Elements(a) {
      assert Distinct(b);
      assert forall j :: 0 <= j < i ==> ds[..i + 1][j] == ds[..i][j];
    }
  }

  lemma Repeated(ds: seq<Destination>, i: nat)
    requires i < |ds| && ds[i].kind in Elements(Kinds(ds[..i]))
    ensures !DestinationsOk(ds)
  {
    var j :| 0 <= j < i && Kinds(ds[..i])[j] == ds[i].kind;
    assert Kinds(ds)[j] == Kinds(ds)[i];
  }

  ghost predicate OwnedBefore(specs: seq<Spec>, n: nat, kind: string)
    requires n <= |specs|
  {
    exists j :: 0 <= j < n && Owns(specs[j], kind)
  }

  /** The two tables after the first `n` specs. */
  ghost predicate Tables(specs: seq<Spec>, n: nat, named: map<string, Spec>, ds: map<string, Destination>)
    requires n <= |specs|
  {
    && TransportIndex(specs[..n], named)
    && DestinationIndex(specs[..n], ds)
    && forall k :: k in ds <==> OwnedBefore(specs, n, k)
  }

  method Build(specs: seq<Spec>) returns (r: Result<Registry, string>)
    ensures r.Ok? <==> Acceptable(specs)
    ensures r.Ok? ==> r.value.specs == specs && r.value.nativeOrder == Sort(PriorityLe, specs)
    ensures r.Ok? ==> TransportIndex(specs, r.value.byTransport) && DestinationIndex(specs, r.value.destinations)
  {
    var named: map<string, Spec>, table: map<string, Destination> := map[], map[];
    for i := 0 to |specs|
      invariant Acceptable(specs[..i])
      invariant Tables(specs, i, named, table)
    {
      var s := specs[i];
      if !PlainFieldsOk(s) {
        return Err("invalid adapter declaration");
      }
      if s.transport in named {
        TransportClash(specs, i, named);
        return Err("duplicate adapter transport");
      }
      var loggersOk := CheckLoggers(s.loggers);
      if !loggersOk {
        return Err("invalid dependency logger declaration");
      }
      var ok, added := AddDestinations(s.destinations, table);
      if !ok {
        KindClash(specs, i, table);
        return Err("invalid, duplicate or reserved destination kind");
      }
      AcceptableStep(specs, i, named, table);
      TablesStep(specs, i, named, table, added);
      named, table := named[s.transport := s], added;
    }
    assert specs[..|specs|] == specs;
    r := Ok(Registry(specs, named, table, Sort(PriorityLe, specs)));
  }

  lemma TransportClash(specs: seq<Spec>, i: nat, named: map<string, Spec>)
    requires i < |specs| && TransportIndex(specs[..i], named) && specs[i].transport in named
    ensures !Acceptable(specs)
  {
    var other := named[specs[i].transport];
    var j :| 0 <= j < i && specs[..i][j] == other;
    assert specs[j].transport == specs[i].transport;
  }

  lemma OwnsAt(s: Spec, i: nat)
    requires i < |s.destinations|
    ensures Owns(s, s.destinations[i].kind)
  {
    assert Kinds(s.destinations)[i] == s.destinations[i].kind;
  }

  lemma KindClash(specs: seq<Spec>, i: nat, table: map<string, Destination>)
    requires i < |specs| && forall k :: k in table ==> OwnedBefore(specs, i, k)
    requires !DestinationsOk(specs[i].destinations)
          || exists d :: 0 <= d < |specs[i].destinations| && specs[i].destinations[d].kind in table
    ensures !Acceptable(specs)
  {
    if DestinationsOk(specs[i].destinations) {
      var d :| 0 <= d < |specs[i].destinations| && specs[i].destinations[d].kind in table;
      var kind := specs[i].destinations[d].kind;
      OwnsAt(specs[i], d);
      var j :| 0 <= j < i && Owns(specs[j], kind);
    } else {
      assert !SpecOk(specs[i]);
    }
  }

  lemma TransportsDiffer(front: seq<Spec>, s: Spec, named: map<string, Spec>)
    requires TransportIndex(front, named) && s.transport !in named
    ensures forall j :: 0 <= j < |front| ==> front[j].transport != s.transport
  {
  }

  lemma KindsDiffer(specs: seq<Spec>, i: nat, table: map<string, Destination>)
    requires i < |specs| && forall k :: OwnedBefore(specs, i, k) ==> k in table
    requires forall d :: 0 <= d < |specs[i].destinations| ==> specs[i].destinations[d].kind !in table
    ensures forall j, k :: 0 <= j < i && Owns(specs[j], k) ==> !Owns(specs[i], k)
  {
    forall j, k | 0 <= j < i && Owns(specs[j], k)
      ensures !Owns(specs[i], k)
    {
      assert OwnedBefore(specs, i, k);
    }
  }

  lemma AcceptableAppend(front: seq<Spec>, s: Spec)
    requires Acceptable(front) && SpecOk(s)
    requires forall j :: 0 <= j < |front| ==> front[j].transport != s.transport
    requires forall j, k :: 0 <= j < |front| && Owns(front[j], k) ==> !Owns(s, k)
    ensures Acceptable(front + [s])
  {
  }

  lemma AcceptableStep(specs: seq<Spec>, i: nat, named: map<string, Spec>, table: map<string, Destination>)
    requires i < |specs| && Acceptable(specs[..i]) && SpecOk(specs[i])
    requires TransportIndex(specs[..i], named) && specs[i].transport !in named
    requires forall k :: OwnedBefore(specs, i, k) ==> k in table
    requires forall d :: 0 <= d < |specs[i].destinations| ==> specs[i].destinations[d].kind !in table
    ensures Acceptable(specs[..i + 1])
  {
    TransportsDiffer(specs[..i], specs[i], named);
    KindsDiffer(specs, i, table);
    AcceptableAppend(specs[..i], specs[i]);
    assert specs[..i + 1] == specs[..i] + [specs[i]];
  }

  lemma TablesStep(
    specs: seq<Spec>, i: nat, named: map<string, Spec>,
    table: map<string, Destination>, added: map<string, Destination>)
    requires i < |specs| && Tables(specs, i, named, table) && specs[i].transport !in named
    requires added.Keys == table.Keys + Elements(Kinds(specs[i].destinations))
    requires forall k :: k in table ==> added[k] == table[k]
    requires forall d :: 0 <= d < |specs[i].destinations| ==> specs[i].destinations[d].kind !in table
    requires forall d :: 0 <= d < |specs[i].destinations| ==> Listed(added, specs[i].destinations[d])
    ensures Tables(specs, i + 1, named[specs[i].transport := specs[i]], added)
  {
    var now := specs[..i + 1];
    assert now == specs[..i] + [specs[i]];
    TransportStep(specs, i, named);
    forall k
      ensures k in added <==> OwnedBefore(specs, i + 1, k)
    {
      if k in added && k in Elements(Kinds(specs[i].destinations)) {
        assert Owns(specs[i], k);
      }
    }
    DestinationStep(specs, i, table, added);
  }

  lemma TransportStep(specs: seq<Spec>, i: nat, named: map<string, Spec>)
    requires i < |specs| && TransportIndex(specs[..i], named) && specs[i].transport !in named
    ensures TransportIndex(specs[..i + 1], named[specs[i].transport := specs[i]])
  {
    var now := specs[..i + 1];
    assert now == specs[..i] + [specs[i]];
  }

  lemma DestinationStep(specs: seq<Spec>, i: nat, table: map<string, Destination>, added: map<string, Destination>)
    requires i < |specs| && DestinationIndex(specs[..i], table)
    requires added.Keys == table.Keys + Elements(Kinds(specs[i].destinations))
    requires forall k :: k in table ==> added[k] == table[k]
    requires forall d :: 0 <= d < |specs[i].destinations| ==> Listed(added, specs[i].destinations[d])
    ensures DestinationIndex(specs[..i + 1], added)
  {
    var now, ds := specs[..i + 1], specs[i].destinations;
    assert forall j :: 0 <= j < i ==> now[j] == specs[..i][j];
    forall k | k in added
      ensures added[k].kind == k && exists j :: 0 <= j < |now| && added[k] in now[j].destinations
    {
      if k in table {
        var j :| 0 <= j < i && table[k] in specs[..i][j].destinations;
        assert added[k] in now[j].destinations;
      } else {
        var d :| 0 <= d < |ds| && Kinds(ds)[d] == k;
        assert added[k] == ds[d] && added[k] in now[i].destinations;
      }
    }
    forall j, d | 0 <= j < |now| && d in now[j].destinations
      ensures Listed(added, d)
    {
      if j == i {
        var n :| 0 <= n < |ds| && ds[n] == d;
        assert Listed(added, ds[n]);
      } else {
        assert d in specs[..i][j].destinations && Listed(table, d);
      }
    }
  }

  // ----- Native detection order ---------------------------------------------

  /** Detection order is the specs by ascending priority, ties in registration order. */
  lemma NativeOrder(specs: seq<Spec>, tie: Spec)
    ensures multiset(Sort(PriorityLe, specs)) == multiset(specs)
    ensures SortedBy(PriorityLe, Sort(PriorityLe, specs))
    ensures Filter(Tied(PriorityLe, tie), Sort(PriorityLe, specs)) == Filter(Tied(PriorityLe, tie), specs)
  {
    SortPermutes(PriorityLe, specs);
    assert TotalPreorder(PriorityLe);
    SortSorts(PriorityLe, specs);
    SortStable(PriorityLe, specs, tie);
  }
}
