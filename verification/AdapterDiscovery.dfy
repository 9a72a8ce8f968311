/**
 * Discovery of adapter providers: load every entry point, set broken ones aside,
 * set aside everyone in an ownership conflict, and hand the rest to the strict
 * constructor. What an entry point's factory does is part of the entry point.
 */
module AdapterDiscovery {
  import opened Ordering
  import opened AdapterRegistry
  import opened Results

  datatype Load = Raises | NotASpec | Loaded(spec: Spec)

  datatype EntryPoint = EntryPoint(name: string, value: string, distribution: Option<string>, load: Load)

  /** Tuple order on (name, value). */
  predicate ByNameValue(a: EntryPoint, b: EntryPoint) {
    if a.name == b.name then StrLe(a.value, b.value) else StrLe(a.name, b.name)
  }

  /** Survives the first phase: loads a valid spec under its own name. */
  predicate Healthy(ep: EntryPoint) {
    ep.load.Loaded? && ep.load.spec.transport == ep.name && SpecOk(ep.load.spec)
  }

  function NameOf(ep: EntryPoint): multiset<string> {
    multiset{ep.name}
  }

  function KindsOf(ep: EntryPoint): multiset<string> {
    if Healthy(ep) then multiset(Kinds(ep.load.spec.destinations)) else multiset{}
  }

  /** A `Counter` over what `f` contributes for each entry point. */
  function Tally(f: EntryPoint -> multiset<string>, eps: seq<EntryPoint>): multiset<string> {
    if eps == [] then multiset{} else Tally(f, eps[..|eps| - 1]) + f(eps[|eps| - 1])
  }

  predicate Contested(kinds: multiset<string>, ep: EntryPoint)
    requires Healthy(ep)
  {
    exists k :: k in Kinds(ep.load.spec.destinations) && kinds[k] > 1
  }

  /** Survives both phases. */
  predicate Accepted(eps: seq<EntryPoint>, ep: EntryPoint) {
    Healthy(ep) && Tally(NameOf, eps)[ep.name] <= 1 && !Contested(Tally(KindsOf, eps), ep)
  }

  function Accepting(eps: seq<EntryPoint>): EntryPoint -> bool {
    (ep: EntryPoint) => Accepted(eps, ep)
  }

  function Conflicting(eps: seq<EntryPoint>): EntryPoint -> bool {
    (ep: EntryPoint) => Healthy(ep) && !Accepted(eps, ep)
  }

  predicate Unhealthy(ep: EntryPoint) {
    !Healthy(ep)
  }

  function Providers(eps: seq<EntryPoint>): seq<EntryPoint> {
    Sort(ByNameValue, eps)
  }

  function AcceptedList(eps: seq<EntryPoint>): seq<EntryPoint> {
    Filter(Accepting(eps), Providers(eps))
  }

  function FailureList(eps: seq<EntryPoint>): seq<EntryPoint> {
    Filter(Unhealthy, Providers(eps)) + Filter(Conflicting(eps), Providers(eps))
  }

  function Specs(eps: seq<EntryPoint>): seq<Spec>
    requires forall i :: 0 <= i < |eps| ==> eps[i].load.Loaded?
  {
    seq(|eps|, i requires 0 <= i < |eps| => eps[i].load.spec)
  }

  // ----- Tallies ------------------------------------------------------------

  function Without<T>(s: seq<T>, i: nat): seq<T>
    requires i < |s|
  {
    s[..i] + s[i + 1..]
  }

  lemma {:induction false} TallyAt(f: EntryPoint -> multiset<string>, eps: seq<EntryPoint>, i: nat)
    requires i < |eps|
    ensures Tally(f, eps) == Tally(f, Without(eps, i)) + f(eps[i])
  {
    var n := |eps| - 1;
    if i == n {
      assert Without(eps, i) == eps[..n];
    } else {
      TallyAt(f, eps[..n], i);
      var w := Without(eps, i);
      assert w[..|w| - 1] == Without(eps[..n], i) && w[|w| - 1] == eps[n];
    }
  }

  lemma MultisetWithout<T>(s: seq<T>, i: nat)
    requires i < |s|
    ensures multiset(s) == multiset(Without(s, i)) + multiset{s[i]}
  {
    assert s == s[..i] + [s[i]] + s[i + 1..];
  }

  /** Counters do not depend on the order in which providers are listed. */
  lemma {:induction false} TallyPermutes(f: EntryPoint -> multiset<string>, a: seq<EntryPoint>, b: seq<EntryPoint>)
    requires multiset(a) == multiset(b)
    ensures Tally(f, a) == Tally(f, b)
    decreases |a|
  {
    SameSize(a, b);
    if a != [] {
      SameMembers(a, b);
      assert a[0] in b;
      var i :| 0 <= i < |b| && b[i] == a[0];
      MultisetWithout(a, 0);
      MultisetWithout(b, i);
      assert multiset(Without(a, 0)) == multiset(a) - multiset{a[0]} == multiset(Without(b, i));
      TallyPermutes(f, Without(a, 0), Without(b, i));
      TallyAt(f, a, 0);
      TallyAt(f, b, i);
    }
  }

  lemma {:induction false} TallyMember(f: EntryPoint -> multiset<string>, eps: seq<EntryPoint>, k: string)
    ensures k in Tally(f, eps) <==> exists i :: 0 <= i < |eps| && k in f(eps[i])
  {
    if eps != [] {
      var n := |eps| - 1;
      TallyMember(f, eps[..n], k);
      assert forall i :: 0 <= i < n ==> eps[..n][i] == eps[i];
    }
  }

  // ----- Acceptance in plain terms ------------------------------------------

  /** Two providers cannot both be registered. */
  predicate Clash(a: EntryPoint, b: EntryPoint) {
    a.name == b.name || exists k :: k in KindsOf(a) && k in KindsOf(b)
  }

  lemma KindsOnce(ep: EntryPoint, k: string)
    ensures KindsOf(ep)[k] <= 1
    ensures Healthy(ep) ==> (k in KindsOf(ep) <==> Owns(ep.load.spec, k))
  {
    if Healthy(ep) {
      DistinctOnce(Kinds(ep.load.spec.destinations), k);
    }
  }

  lemma {:induction false} DistinctOnce(s: seq<string>, k: string)
    requires forall i, j :: 0 <= i < j < |s| ==> s[i] != s[j]
    ensures multiset(s)[k] <= 1
  {
    if s != [] {
      var n := |s| - 1;
      DistinctOnce(s[..n], k);
      assert s == s[..n] + [s[n]];
      if k == s[n] {
        assert k !in s[..n];
      }
    }
  }

  lemma OthersMember(f: EntryPoint -> multiset<string>, eps: seq<EntryPoint>, i: nat, k: string)
    requires i < |eps|
    ensures k in Tally(f, Without(eps, i)) <==> exists j :: 0 <= j < |eps| && j != i && k in f(eps[j])
  {
    var others := Without(eps, i);
    TallyMember(f, others, k);
    if j :| 0 <= j < |eps| && j != i && k in f(eps[j]) {
      assert others[if j < i then j else j - 1] == eps[j];
    }
    if m :| 0 <= m < |others| && k in f(others[m]) {
      assert others[m] == eps[if m < i then m else m + 1];
    }
  }

  lemma NameShared(eps: seq<EntryPoint>, i: nat)
    requires i < |eps|
    ensures Tally(NameOf, eps)[eps[i].name] > 1 <==> exists j :: 0 <= j < |eps| && j != i && eps[j].name == eps[i].name
  {
    TallyAt(NameOf, eps, i);
    OthersMember(NameOf, eps, i, eps[i].name);
    if j :| 0 <= j < |eps| && j != i && eps[j].name == eps[i].name {
      assert eps[i].name in NameOf(eps[j]);
    }
    if j :| 0 <= j < |eps| && j != i && eps[i].name in NameOf(eps[j]) {
      assert eps[j].name == eps[i].name;
    }
  }

  lemma KindShared(eps: seq<EntryPoint>, i: nat, k: string)
    requires i < |eps| && k in KindsOf(eps[i])
    ensures Tally(KindsOf, eps)[k] > 1 <==> exists j :: 0 <= j < |eps| && j != i && k in KindsOf(eps[j])
  {
    TallyAt(KindsOf, eps, i);
    KindsOnce(eps[i], k);
    OthersMember(KindsOf, eps, i, k);
  }

  lemma ContestedExactly(eps: seq<EntryPoint>, i: nat)
    requires i < |eps| && Healthy(eps[i])
    ensures Contested(Tally(KindsOf, eps), eps[i]) <==>
              exists j, k :: 0 <= j < |eps| && j != i && k in KindsOf(eps[i]) && k in KindsOf(eps[j])
  {
    var kinds := Tally(KindsOf, eps);
    if Contested(kinds, eps[i]) {
      var k :| k in Kinds(eps[i].load.spec.destinations) && kinds[k] > 1;
      assert k in KindsOf(eps[i]);
      KindShared(eps, i, k);
    }
    if j, k :| 0 <= j < |eps| && j != i && k in KindsOf(eps[i]) && k in KindsOf(eps[j]) {
      KindShared(eps, i, k);
      assert k in Kinds(eps[i].load.spec.destinations);
    }
  }

  /**
   * Independent of any counter: a provider is accepted exactly when it is healthy
   * and clashes with none of the others.
   */
  lemma AcceptedExactly(eps: seq<EntryPoint>, i: nat)
    requires i < |eps|
    ensures Accepted(eps, eps[i]) <==>
              Healthy(eps[i]) && forall j :: 0 <= j < |eps| && j != i ==> !Clash(eps[i], eps[j])
  {
    NameShared(eps, i);
    if Healthy(eps[i]) {
      ContestedExactly(eps, i);
    }
  }

  // ----- The accepted list --------------------------------------------------

  lemma {:induction false} FilterPermutes<T(!new)>(keep: T -> bool, s: seq<T>, x: T)
    ensures multiset(Filter(keep, s))[x] == if keep(x) then multiset(s)[x] else 0
  {
    if s != [] {
      FilterPermutes(keep, s[1..], x);
      assert s == [s[0]] + s[1..];
      assert multiset(s) == multiset{s[0]} + multiset(s[1..]);
      if keep(s[0]) {
        assert multiset(Filter(keep, s)) == multiset{s[0]} + multiset(Filter(keep, s[1..]));
      }
    }
  }

  lemma {:induction false} FilterSorted<T(!new)>(le: (T, T) -> bool, keep: T -> bool, s: seq<T>)
    requires SortedBy(le, s)
    ensures SortedBy(le, Filter(keep, s))
  {
    if s != [] {
      FilterSorted(le, keep, s[1..]);
      forall y | y in Filter(keep, s[1..])
        ensures le(s[0], y)
      {
        assert y in s[1..];
        var j :| 0 <= j < |s[1..]| && s[1..][j] == y;
        assert s[j + 1] == y;
      }
    }
  }

  lemma NameValueOrder()
    ensures TotalPreorder(ByNameValue)
  {
    StrOrder();
  }

  /** Every provider ends up exactly once, either accepted or among the failures. */
  lemma NobodyIsLost(eps: seq<EntryPoint>)
    ensures multiset(AcceptedList(eps)) + multiset(FailureList(eps)) == multiset(eps)
  {
    var ps := Providers(eps);
    SortPermutes(ByNameValue, eps);
    forall x: EntryPoint
      ensures (multiset(AcceptedList(eps)) + multiset(FailureList(eps)))[x] == multiset(ps)[x]
    {
      FilterPermutes(Accepting(eps), ps, x);
      FilterPermutes(Unhealthy, ps, x);
      FilterPermutes(Conflicting(eps), ps, x);
      assert multiset(FailureList(eps)) == multiset(Filter(Unhealthy, ps)) + multiset(Filter(Conflicting(eps), ps));
    }
  }

  /** Accepted providers that share a name or a kind are one and the same provider. */
  lemma AcceptedApart(eps: seq<EntryPoint>, x: EntryPoint, y: EntryPoint)
    requires x in eps && y in eps && Accepted(eps, x) && Accepted(eps, y) && Clash(x, y)
    ensures x == y && multiset(eps)[x] == 1
  {
    var i :| 0 <= i < |eps| && eps[i] == x;
    var j :| 0 <= j < |eps| && eps[j] == y;
    AcceptedExactly(eps, i);
    assert i == j;
    AloneIsOnce(eps, i);
  }

  lemma AloneIsOnce(eps: seq<EntryPoint>, i: nat)
    requires i < |eps| && forall j :: 0 <= j < |eps| && j != i ==> eps[j].name != eps[i].name
    ensures multiset(eps)[eps[i]] == 1
  {
    MultisetWithout(eps, i);
    var others := Without(eps, i);
    forall m | 0 <= m < |others|
      ensures others[m] != eps[i]
    {
      assert others[m] == eps[if m < i then m else m + 1];
    }
  }

  /** The accepted list does not depend on the order in which entry points are found. */
  lemma OrderIndependent(a: seq<EntryPoint>, b: seq<EntryPoint>)
    requires multiset(a) == multiset(b)
    ensures AcceptedList(a) == AcceptedList(b)
  {
    TallyPermutes(NameOf, a, b);
    TallyPermutes(KindsOf, a, b);
    NameValueOrder();
    var la, lb := AcceptedList(a), AcceptedList(b);
    SortSorts(ByNameValue, a);
    SortSorts(ByNameValue, b);
    SortPermutes(ByNameValue, a);
    SortPermutes(ByNameValue, b);
    FilterSorted(ByNameValue, Accepting(a), Providers(a));
    FilterSorted(ByNameValue, Accepting(b), Providers(b));
    forall x: EntryPoint
      ensures multiset(la)[x] == multiset(lb)[x]
    {
      FilterPermutes(Accepting(a), Providers(a), x);
      FilterPermutes(Accepting(b), Providers(b), x);
    }
    NoTies(a);
    SortedUnique(ByNameValue, la, lb);
  }

  lemma NoTies(eps: seq<EntryPoint>)
    ensures forall x, y ::
              x in AcceptedList(eps) && y in AcceptedList(eps) && ByNameValue(x, y) && ByNameValue(y, x) ==> x == y
  {
    SortPermutes(ByNameValue, eps);
    SameMembers(Providers(eps), eps);
    StrOrder();
    forall x, y | x in AcceptedList(eps) && y in AcceptedList(eps) && ByNameValue(x, y) && ByNameValue(y, x)
      ensures x == y
    {
      assert x.name == y.name;
      AcceptedApart(eps, x, y);
    }
  }

  /** What one more provider does to the others: exactly those it clashes with drop out. */
  lemma OneMore(eps: seq<EntryPoint>, extra: EntryPoint, i: nat)
    requires i < |eps|
    ensures Accepted(eps + [extra], eps[i]) <==> Accepted(eps, eps[i]) && !Clash(eps[i], extra)
  {
    var more := eps + [extra];
    AcceptedExactly(eps, i);
    AcceptedExactly(more, i);
    assert more[i] == eps[i] && more[|eps|] == extra;
    assert forall j :: 0 <= j < |eps| ==> more[j] == eps[j];
    if Accepted(eps, eps[i]) && !Clash(eps[i], extra) {
      forall j | 0 <= j < |more| && j != i
        ensures !Clash(more[i], more[j])
      {
      }
    }
  }

  /** A provider with a fresh name that is broken, or owns only fresh kinds, disturbs nobody. */
  lemma QuarantineIsLocal(eps: seq<EntryPoint>, extra: EntryPoint, i: nat)
    requires i < |eps|
    requires forall j :: 0 <= j < |eps| ==> eps[j].name != extra.name
    requires !Healthy(extra) || forall j, k :: 0 <= j < |eps| && k in KindsOf(eps[j]) ==> k !in KindsOf(extra)
    ensures Accepted(eps + [extra], eps[i]) <==> Accepted(eps, eps[i])
  {
    OneMore(eps, extra, i);
  }

  // ----- The strict constructor never rejects -------------------------------

  lemma AcceptedAreLoaded(eps: seq<EntryPoint>)
    ensures forall i :: 0 <= i < |AcceptedList(eps)| ==>
                          AcceptedList(eps)[i] in eps && Accepted(eps, AcceptedList(eps)[i])
  {
    SortPermutes(ByNameValue, eps);
    SameMembers(Providers(eps), eps);
    forall i | 0 <= i < |AcceptedList(eps)|
      ensures AcceptedList(eps)[i] in eps && Accepted(eps, AcceptedList(eps)[i])
    {
      assert AcceptedList(eps)[i] in AcceptedList(eps);
    }
  }

  lemma ListedOnce(eps: seq<EntryPoint>, i: nat, j: nat)
    requires i < j < |AcceptedList(eps)|
    ensures !Clash(AcceptedList(eps)[i], AcceptedList(eps)[j])
  {
    var list := AcceptedList(eps);
    AcceptedAreLoaded(eps);
    SortPermutes(ByNameValue, eps);
    FilterPermutes(Accepting(eps), Providers(eps), list[i]);
    if list[i] == list[j] {
      Twice(list, i, j);
    }
    if Clash(list[i], list[j]) {
      AcceptedApart(eps, list[i], list[j]);
    }
  }

  /** Whatever is installed, what discovery accepts is a registry the constructor takes. */
  lemma DiscoveryIsAcceptable(eps: seq<EntryPoint>)
    ensures forall i :: 0 <= i < |AcceptedList(eps)| ==> AcceptedList(eps)[i].load.Loaded?
    ensures Acceptable(Specs(AcceptedList(eps)))
  {
    var list := AcceptedList(eps);
    AcceptedAreLoaded(eps);
    var specs := Specs(list);
    forall i, j | 0 <= i < j < |specs|
      ensures specs[i].transport != specs[j].transport
      ensures forall k :: Owns(specs[i], k) ==> !Owns(specs[j], k)
    {
      ListedOnce(eps, i, j);
      forall k | Owns(specs[i], k) && Owns(specs[j], k)
        ensures false
      {
        KindsOnce(list[i], k);
        KindsOnce(list[j], k);
      }
    }
  }

  // ----- The discovery loops ------------------------------------------------

  lemma {:induction false} FilterAppend<T(!new)>(keep: T -> bool, s: seq<T>, x: T)
    ensures Filter(keep, s + [x]) == if keep(x) then Filter(keep, s) + [x] else Filter(keep, s)
  {
    if s != [] {
      FilterAppend(keep, s[1..], x);
      assert (s + [x])[1..] == s[1..] + [x];
    }
  }

  lemma {:induction false} FilterTwice<T(!new)>(first: T -> bool, second: T -> bool, both: T -> bool, s: seq<T>)
    requires forall x :: both(x) <==> first(x) && second(x)
    ensures Filter(second, Filter(first, s)) == Filter(both, s)
  {
    if s != [] {
      FilterTwice(first, second, both, s[1..]);
      if first(s[0]) {
        assert ([s[0]] + Filter(first, s[1..]))[1..] == Filter(first, s[1..]);
      }
    }
  }

  lemma TallyAppend(f: EntryPoint -> multiset<string>, eps: seq<EntryPoint>, ep: EntryPoint)
    ensures Tally(f, eps + [ep]) == Tally(f, eps) + f(ep)
  {
    assert (eps + [ep])[..|eps|] == eps;
  }

  /** Dropping entry points that contribute nothing leaves a tally alone. */
  lemma {:induction false} TallyFilter(
    f: EntryPoint -> multiset<string>, keep: EntryPoint -> bool, eps: seq<EntryPoint>)
    requires forall ep :: !keep(ep) ==> f(ep) == multiset{}
    ensures Tally(f, Filter(keep, eps)) == Tally(f, eps)
  {
    if eps != [] {
      var n := |eps| - 1;
      TallyFilter(f, keep, eps[..n]);
      FilterAppend(keep, eps[..n], eps[n]);
      assert eps == eps[..n] + [eps[n]];
      TallyAppend(f, Filter(keep, eps[..n]), eps[n]);
    }
  }

  lemma SoloAcceptable(s: Spec)
    ensures Acceptable([s]) <==> SpecOk(s)
  {
    assert [s][0] == s;
  }

  /** First phase: which providers load a spec that could stand alone. */
  method LoadAll(providers: seq<EntryPoint>) returns (candidates: seq<EntryPoint>, failures: seq<EntryPoint>)
    ensures candidates == Filter(Healthy, providers)
    ensures failures == Filter(Unhealthy, providers)
  {
    candidates, failures := [], [];
    for i := 0 to |providers|
      invariant candidates == Filter(Healthy, providers[..i])
      invariant failures == Filter(Unhealthy, providers[..i])
    {
      var ep := providers[i];
      TakeNext(providers, i);
      FilterAppend(Healthy, providers[..i], ep);
      FilterAppend(Unhealthy, providers[..i], ep);
      var failed := true;
      if ep.load.Loaded? && ep.load.spec.transport == ep.name {
        var solo := Build([ep.load.spec]);
        SoloAcceptable(ep.load.spec);
        failed := solo.Err?;
      }
      if failed {
        failures := failures + [ep];
      } else {
        candidates := candidates + [ep];
      }
    }
    assert providers[..|providers|] == providers;
  }

  lemma Verdict(eps: seq<EntryPoint>, ep: EntryPoint)
    requires Healthy(ep)
    ensures Conflicting(eps)(ep) <==>
              Tally(NameOf, eps)[ep.load.spec.transport] > 1 || Contested(Tally(KindsOf, eps), ep)
    ensures Accepting(eps)(ep) <==> !Conflicting(eps)(ep)
  {
  }

  /** Second phase: nobody wins an ownership conflict. */
  method Arbitrate(
    candidates: seq<EntryPoint>, transports: multiset<string>, kinds: multiset<string>, ghost eps: seq<EntryPoint>)
    returns (accepted: seq<EntryPoint>, conflicted: seq<EntryPoint>)
    requires forall i :: 0 <= i < |candidates| ==> Healthy(candidates[i])
    requires transports == Tally(NameOf, eps) && kinds == Tally(KindsOf, eps)
    ensures accepted == Filter(Accepting(eps), candidates)
    ensures conflicted == Filter(Conflicting(eps), candidates)
  {
    accepted, conflicted := [], [];
    for i := 0 to |candidates|
      invariant accepted == Filter(Accepting(eps), candidates[..i])
      invariant conflicted == Filter(Conflicting(eps), candidates[..i])
    {
      var ep := candidates[i];
      TakeNext(candidates, i);
      FilterAppend(Accepting(eps), candidates[..i], ep);
      FilterAppend(Conflicting(eps), candidates[..i], ep);
      Verdict(eps, ep);
      if transports[ep.load.spec.transport] > 1 || Contested(kinds, ep) {
        conflicted := conflicted + [ep];
      } else {
        accepted := accepted + [ep];
      }
    }
    assert candidates[..|candidates|] == candidates;
  }

  lemma Prepared(eps: seq<EntryPoint>)
    ensures Tally(NameOf, Providers(eps)) == Tally(NameOf, eps)
    ensures Tally(KindsOf, Filter(Healthy, Providers(eps))) == Tally(KindsOf, eps)
    ensures Filter(Accepting(eps), Filter(Healthy, Providers(eps))) == AcceptedList(eps)
    ensures Filter(Conflicting(eps), Filter(Healthy, Providers(eps))) == Filter(Conflicting(eps), Providers(eps))
  {
    var providers := Providers(eps);
    SortPermutes(ByNameValue, eps);
    TallyPermutes(NameOf, providers, eps);
    TallyPermutes(KindsOf, providers, eps);
    TallyFilter(KindsOf, Healthy, providers);
    FilterTwice(Healthy, Accepting(eps), Accepting(eps), providers);
    FilterTwice(Healthy, Conflicting(eps), Conflicting(eps), providers);
  }

  /**
   * Discovery as a whole: the final constructor call succeeds, the registry holds
   * the accepted specs in provider order, and everyone else is a failure.
   */
  method Discover(eps: seq<EntryPoint>) returns (r: Result<Registry, string>, failures: seq<EntryPoint>)
    ensures r.Ok?
    ensures forall i :: 0 <= i < |AcceptedList(eps)| ==> AcceptedList(eps)[i].load.Loaded?
    ensures r.value.specs == Specs(AcceptedList(eps))
    ensures failures == FailureList(eps)
  {
    var providers := Providers(eps);
    Prepared(eps);
    var candidates, broken := LoadAll(providers);
    forall i | 0 <= i < |candidates|
      ensures Healthy(candidates[i])
    {
      assert candidates[i] in candidates;
    }
    var accepted, conflicted := Arbitrate(candidates, Tally(NameOf, providers), Tally(KindsOf, candidates), eps);
    failures := broken + conflicted;
    DiscoveryIsAcceptable(eps);
    r := Build(Specs(accepted));
  }
}
