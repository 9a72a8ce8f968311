/**
 * Upgrading the persistent tool, with or without taking over the sources of a
 * catalog. The recorded request is rewritten in place, and only the selected
 * packages may change.
 */
module SelfUpgrade {
  import opened Counting
  import opened Ordering
  import opened Requirements
  import opened InstallPlanner
  import opened Results

  /** Aliases in catalog order, and an optional core source. */
  datatype Catalog = Catalog(core: Option<Requirement>, adapters: seq<(string, Requirement)>)

  /** Installed provider distributions, each with its entry-point names. */
  type Providers = map<string, set<string>>

  datatype Plan =
    | Bulk
    | NothingToDo
    | Selective(request: Request, packages: seq<string>, onlyThose: bool)

  const NO_CATALOG := Catalog(None, [])

  // ----- Selecting installed adapters ---------------------------------------

  function SourceOf(adapters: seq<(string, Requirement)>, alias: string): Option<Requirement> {
    if adapters == [] then None
    else if adapters[0].0 == alias then Some(adapters[0].1)
    else SourceOf(adapters[1..], alias)
  }

  function Matches(providers: Providers, alias: string): set<string> {
    set name | name in providers && alias in providers[name]
  }

  /** A distribution name, a provider's entry point, or a catalog alias; always something installed. */
  function Installed(sel: Selection, catalog: Catalog, providers: Providers): (r: Result<string, Refusal>)
    ensures r.Ok? ==> r.value in providers
  {
    if sel.Malformed? || sel.extras != [] then Err(NotASelection)
    else if Normalize(sel.alias) in providers then Ok(Normalize(sel.alias))
    else
      var found := SortedStrings(Matches(providers, sel.alias));
      if |found| == 1 then
        assert found[0] in found;
        Ok(found[0])
      else if |found| > 1 then Err(SeveralProviders)
      else
        var source := SourceOf(catalog.adapters, sel.alias);
        if source.None? then Err(NotInstalled)
        else if PackageName(source.value) == CORE then Err(CoreReplacement)
        else if PackageName(source.value) in providers then Ok(PackageName(source.value))
        else Err(NotInstalled)
  }

  function AllInstalled(sels: seq<Selection>, catalog: Catalog, providers: Providers): (r: Result<set<string>, Refusal>)
    ensures r.Ok? ==> r.value <= providers.Keys
  {
    if sels == [] then Ok({})
    else match AllInstalled(sels[..|sels| - 1], catalog, providers)
         case Err(reason) => Err(reason)
         case Ok(names) =>
           match Installed(sels[|sels| - 1], catalog, providers)
           case Err(reason) => Err(reason)
           case Ok(name) => Ok(names + {name})
  }

  // ----- Catalog synchronization --------------------------------------------

  /** Catalog requirements for the selected packages; two different sources for one package conflict. */
  function Collect(adapters: seq<(string, Requirement)>, packages: set<string>, changes: Dict): Result<Dict, Refusal> {
    if adapters == [] then Ok(changes)
    else match Collect(adapters[..|adapters| - 1], packages, changes)
         case Err(reason) => Err(reason)
         case Ok(d) =>
           var r := adapters[|adapters| - 1].1;
           var name := PackageName(r);
           if name !in packages then Ok(d)
           else if Has(d, name) && Get(d, name, r) != r then Err(ConflictingAliases)
           else Ok(Put(d, name, r))
  }

  /** One synchronized package: the catalog source with the extras of both requests. */
  function Synced(d: Dict, change: Entry): Requirement {
    if Has(d, change.key) then RetainExtras(change.requirement, Get(d, change.key, change.requirement))
    else change.requirement
  }

  function ApplyChanges(d: Dict, changes: Dict): Dict {
    if changes == [] then d
    else
      var front := ApplyChanges(d, changes[..|changes| - 1]);
      var last := changes[|changes| - 1];
      Put(front, last.key, Synced(front, last))
  }

  function CoreChange(catalog: Catalog, packages: set<string>): Dict {
    if CORE in packages && catalog.core.Some? then [Entry(CORE, catalog.core.value)] else []
  }

  // ----- Planning an upgrade ------------------------------------------------

  datatype Options = Options(
    sels: seq<Selection>, coreOnly: bool, adaptersOnly: bool, catalog: Option<Catalog>, sync: bool)
  {
    predicate Plain() {
      !coreOnly && !adaptersOnly && sels == [] && !sync
    }

    predicate Scoped() {
      coreOnly || adaptersOnly || sels != []
    }
  }

  /** The packages to upgrade, in order. */
  function Packages(o: Options, providers: Providers): Result<seq<string>, Refusal> {
    if o.coreOnly then Ok([CORE])
    else
      var catalog := if o.catalog.Some? then o.catalog.value else NO_CATALOG;
      match AllInstalled(o.sels, catalog, providers)
      case Err(reason) => Err(reason)
      case Ok(names) =>
        var adapters := SortedStrings(if o.sels != [] then names else providers.Keys);
        Ok((if o.adaptersOnly || o.sels != [] then [] else [CORE]) + adapters)
  }

  function Synchronized(d: Dict, catalog: Catalog, packages: set<string>): Result<Dict, Refusal> {
    match Collect(catalog.adapters, packages, CoreChange(catalog, packages))
    case Err(reason) => Err(reason)
    case Ok(changes) => Ok(ApplyChanges(d, changes))
  }

  /** The request after an optional catalog synchronization. */
  function Desired(rs: seq<Requirement>, o: Options, packages: set<string>): Result<Dict, Refusal> {
    if !o.sync || o.catalog.None? then Ok(File(rs)) else Synchronized(File(rs), o.catalog.value, packages)
  }

  predicate ScopeBlocked(rs: seq<Requirement>, o: Options, packages: set<string>, moving: Requirement -> bool) {
    o.Scoped() && exists i :: 0 <= i < |rs| && PackageName(rs[i]) !in packages && moving(rs[i])
  }

  /** The selective plan, once its packages are known. */
  function UpgradeWith(
    inst: Installation, o: Options, packages: seq<string>, moving: Requirement -> bool): Result<Plan, Refusal>
  {
    if packages == [] then Ok(NothingToDo)
    else if Recorded(inst).Err? then Err(Recorded(inst).reason)
    else if ScopeBlocked(inst.requirements, o, Elements(packages), moving) then Err(MutableSource)
    else match Desired(inst.requirements, o, Elements(packages))
         case Err(reason) => Err(reason)
         case Ok(d) =>
           match InstallRequest(inst, Values(d))
           case Err(reason) => Err(reason)
           case Ok(request) => Ok(Selective(request, packages, o.Scoped()))
  }

  function Upgrade(
    inst: Installation, o: Options, providers: Providers, moving: Requirement -> bool): Result<Plan, Refusal>
  {
    if o.coreOnly && (o.adaptersOnly || o.sels != []) then Err(CoreWithAdapters)
    else if o.sync && o.catalog.None? then Err(CatalogRequired)
    else if o.Plain() then Ok(Bulk)
    else match Packages(o, providers)
         case Err(reason) => Err(reason)
         case Ok(packages) => UpgradeWith(inst, o, packages, moving)
  }

  /** The first loop of a synchronization: the sources of the selected packages. */
  method CollectSources(catalog: Catalog, packages: set<string>) returns (r: Result<Dict, Refusal>)
    ensures r == Collect(catalog.adapters, packages, CoreChange(catalog, packages))
  {
    ghost var core := CoreChange(catalog, packages);
    var adapters, changes := catalog.adapters, CoreChange(catalog, packages);
    for i := 0 to |adapters|
      invariant Collect(adapters[..i], packages, core) == Ok(changes)
    {
      var requirement := adapters[i].1;
      assert adapters[..i + 1][..i] == adapters[..i];
      var name := PackageName(requirement);
      if name in packages {
        if Has(changes, name) && Get(changes, name, requirement) != requirement {
          CollectFails(adapters, i, packages, core);
          return Err(ConflictingAliases);
        }
        changes := Put(changes, name, requirement);
      }
    }
    assert adapters[..|adapters|] == adapters;
    r := Ok(changes);
  }

  /** The second loop: the request with those sources. */
  method ApplySources(desired0: Dict, changes: Dict) returns (desired: Dict)
    ensures desired == ApplyChanges(desired0, changes)
  {
    desired := desired0;
    for i := 0 to |changes|
      invariant desired == ApplyChanges(desired0, changes[..i])
    {
      assert changes[..i + 1][..i] == changes[..i];
      desired := Put(desired, changes[i].key, Synced(desired, changes[i]));
    }
    assert changes[..|changes|] == changes;
  }

  method Synchronize(desired0: Dict, catalog: Catalog, packages: set<string>) returns (r: Result<Dict, Refusal>)
    ensures r == Synchronized(desired0, catalog, packages)
    ensures r.Err? <==> Conflict(catalog, packages)
  {
    ConflictExactly(desired0, catalog, packages);
    var collected := CollectSources(catalog, packages);
    if collected.Err? {
      return Err(collected.reason);
    }
    var desired := ApplySources(desired0, collected.value);
    r := Ok(desired);
  }

  lemma {:induction false} CollectFails(
    adapters: seq<(string, Requirement)>, i: nat, packages: set<string>, changes: Dict)
    requires i < |adapters| && Collect(adapters[..i + 1], packages, changes).Err?
    ensures Collect(adapters, packages, changes) == Collect(adapters[..i + 1], packages, changes)
  {
    var n := |adapters| - 1;
    if i == n {
      assert adapters[..i + 1] == adapters;
    } else {
      assert adapters[..n][..i + 1] == adapters[..i + 1];
      CollectFails(adapters[..n], i, packages, changes);
    }
  }

  // ----- What an upgrade keeps ----------------------------------------------

  /** What the catalog loader guarantees: core sources name core. */
  predicate CoreNamed(catalog: Catalog) {
    catalog.core.Some? ==> PackageName(catalog.core.value) == CORE
  }

  /** A whole request: core first, unique, and each entry under its own name. */
  predicate Whole(d: Dict) {
    d != [] && d[0].key == CORE && Unique(d) && Filed(d)
  }

  lemma FileWhole(rs: seq<Requirement>)
    requires WellNamed(rs)
    ensures Whole(File(rs)) && Values(File(rs)) == rs
  {
    var d := File(rs);
    assert forall i :: 0 <= i < |d| ==> d[i].key == Names(rs)[i];
  }

  lemma WholeIsWellNamed(d: Dict)
    requires Whole(d)
    ensures WellNamed(Values(d)) && File(Values(d)) == d
  {
    RefiledIsSame(d);
    var names := Names(Values(d));
    assert forall i :: 0 <= i < |names| ==> names[i] == d[i].key;
  }

  lemma PutWhole(d: Dict, k: string, r: Requirement)
    requires Whole(d) && PackageName(r) == k
    ensures Whole(Put(d, k, r))
  {
    PutUnique(d, k, r);
    PutFiled(d, k, r);
  }

  lemma {:induction false} ApplyKeepsOthers(d: Dict, changes: Dict, touched: set<string>)
    requires Whole(d) && Filed(changes)
    requires forall i :: 0 <= i < |changes| ==> changes[i].key in touched
    ensures Whole(ApplyChanges(d, changes))
    ensures Untouched(ApplyChanges(d, changes), touched) == Untouched(d, touched)
  {
    if changes != [] {
      var n := |changes| - 1;
      ApplyKeepsOthers(d, changes[..n], touched);
      var front, last := ApplyChanges(d, changes[..n]), changes[n];
      PutWhole(front, last.key, Synced(front, last));
      PutUntouched(front, last.key, Synced(front, last), touched);
    }
  }

  lemma {:induction false} CollectSelected(adapters: seq<(string, Requirement)>, packages: set<string>, changes: Dict)
    requires Unique(changes) && Filed(changes) && forall i :: 0 <= i < |changes| ==> changes[i].key in packages
    requires Collect(adapters, packages, changes).Ok?
    ensures var d := Collect(adapters, packages, changes).value;
      Unique(d) && Filed(d) && forall i :: 0 <= i < |d| ==> d[i].key in packages
  {
    if adapters != [] {
      var n := |adapters| - 1;
      CollectSelected(adapters[..n], packages, changes);
      var d := Collect(adapters[..n], packages, changes).value;
      var r := adapters[n].1;
      if PackageName(r) in packages {
        PutUnique(d, PackageName(r), r);
        PutFiled(d, PackageName(r), r);
        PutKeysIn(d, PackageName(r), r, packages);
      }
    }
  }

  lemma {:induction false} PutKeysIn(d: Dict, k: string, r: Requirement, keys: set<string>)
    requires k in keys && forall i :: 0 <= i < |d| ==> d[i].key in keys
    ensures forall i :: 0 <= i < |Put(d, k, r)| ==> Put(d, k, r)[i].key in keys
  {
    if d != [] && d[0].key != k {
      PutKeysIn(d[1..], k, r, keys);
    }
  }

  lemma DesiredWhole(rs: seq<Requirement>, o: Options, packages: set<string>)
    requires WellNamed(rs) && Desired(rs, o, packages).Ok?
    requires o.catalog.Some? ==> CoreNamed(o.catalog.value)
    ensures Whole(Desired(rs, o, packages).value)
    ensures Untouched(Desired(rs, o, packages).value, packages) == Untouched(File(rs), packages)
  {
    FileWhole(rs);
    if o.sync && o.catalog.Some? {
      var core := CoreChange(o.catalog.value, packages);
      CollectSelected(o.catalog.value.adapters, packages, core);
      var changes := Collect(o.catalog.value.adapters, packages, core).value;
      ApplyKeepsOthers(File(rs), changes, packages);
    }
  }

  /** A whole request is accepted as it stands. */
  lemma WholeIsAccepted(inst: Installation, d: Dict)
    requires Recorded(inst).Ok? && Whole(d)
    ensures InstallRequest(inst, Values(d)).Ok?
    ensures InstallRequest(inst, Values(d)).value.All() == Values(d)
    ensures WellNamed(Values(d)) && File(Values(d)) == d
  {
    WholeIsWellNamed(d);
    assert [Values(d)[0]] + Values(d)[1..] == Values(d);
  }

  /** Core first, no name twice, and everything outside `packages` with its value and its place. */
  predicate KeepsTheRest(inst: Installation, request: Request, packages: set<string>) {
    && WellNamed(request.All())
    && Untouched(File(request.All()), packages) == Untouched(File(inst.requirements), packages)
  }

  lemma PlanKeepsTheRest(inst: Installation, o: Options, packages: seq<string>, moving: Requirement -> bool)
    requires CatalogOk(o)
    ensures UpgradeWith(inst, o, packages, moving) != Err(AmbiguousRequest)
    ensures var r := UpgradeWith(inst, o, packages, moving);
      r.Ok? && r.value.Selective? ==>
        r.value.packages == packages && KeepsTheRest(inst, r.value.request, Elements(packages))
  {
    if Recorded(inst).Ok? {
      CollectNeverAmbiguous(inst.requirements, o, Elements(packages));
      if Desired(inst.requirements, o, Elements(packages)).Ok? {
        DesiredWhole(inst.requirements, o, Elements(packages));
        WholeIsAccepted(inst, Desired(inst.requirements, o, Elements(packages)).value);
      }
    }
  }

  /**
   * With a catalog as the loader produces it, an upgrade never builds an
   * ambiguous request, and keeps what it was not asked to change.
   */
  lemma UpgradeKeepsTheRest(inst: Installation, o: Options, providers: Providers, moving: Requirement -> bool)
    requires CatalogOk(o)
    ensures Upgrade(inst, o, providers, moving) != Err(AmbiguousRequest)
    ensures var r := Upgrade(inst, o, providers, moving);
      r.Ok? && r.value.Selective? ==> KeepsTheRest(inst, r.value.request, Elements(r.value.packages))
  {
    PackagesNeverAmbiguous(o, providers);
    if Packages(o, providers).Ok? {
      PlanKeepsTheRest(inst, o, Packages(o, providers).value, moving);
    }
  }

  lemma {:induction false} SelectionNeverAmbiguous(sels: seq<Selection>, catalog: Catalog, providers: Providers)
    ensures AllInstalled(sels, catalog, providers) != Err(AmbiguousRequest)
  {
    if sels != [] {
      SelectionNeverAmbiguous(sels[..|sels| - 1], catalog, providers);
    }
  }

  lemma PackagesNeverAmbiguous(o: Options, providers: Providers)
    ensures Packages(o, providers) != Err(AmbiguousRequest)
  {
    SelectionNeverAmbiguous(o.sels, if o.catalog.Some? then o.catalog.value else NO_CATALOG, providers);
  }

  lemma {:induction false} CollectConflicts(adapters: seq<(string, Requirement)>, packages: set<string>, changes: Dict)
    ensures Collect(adapters, packages, changes) != Err(AmbiguousRequest)
  {
    if adapters != [] {
      CollectConflicts(adapters[..|adapters| - 1], packages, changes);
    }
  }

  lemma CollectNeverAmbiguous(rs: seq<Requirement>, o: Options, packages: set<string>)
    ensures Desired(rs, o, packages) != Err(AmbiguousRequest)
  {
    if o.catalog.Some? {
      CollectConflicts(o.catalog.value.adapters, packages, CoreChange(o.catalog.value, packages));
    }
  }

  // ----- What a synchronization changes -------------------------------------

  /** The catalog has this source for this selected package. */
  ghost predicate Offered(adapters: seq<(string, Requirement)>, packages: set<string>, e: Entry) {
    && e.key in packages && e.key == PackageName(e.requirement)
    && exists i :: 0 <= i < |adapters| && adapters[i].1 == e.requirement
  }

  /** What the last adapter of the list offers. */
  predicate OfferedLast(adapters: seq<(string, Requirement)>, packages: set<string>, e: Entry)
    requires adapters != []
  {
    var r := adapters[|adapters| - 1].1;
    e == Entry(PackageName(r), r) && e.key in packages
  }

  /** As `Offered`, counting the catalog's core source. */
  ghost predicate Offers(catalog: Catalog, packages: set<string>, e: Entry) {
    e in CoreChange(catalog, packages) || Offered(catalog.adapters, packages, e)
  }

  /** Two different sources for one selected package. */
  ghost predicate Conflict(catalog: Catalog, packages: set<string>) {
    exists a, b :: Offers(catalog, packages, a) && Offers(catalog, packages, b) && a.key == b.key && a != b
  }

  lemma OfferedNext(adapters: seq<(string, Requirement)>, packages: set<string>, e: Entry)
    requires adapters != []
    ensures var n := |adapters| - 1;
      Offered(adapters, packages, e) <==>
      Offered(adapters[..n], packages, e) || OfferedLast(adapters, packages, e)
  {
    var n := |adapters| - 1;
    if Offered(adapters, packages, e) {
      var i :| 0 <= i < |adapters| && adapters[i].1 == e.requirement;
      assert i < n ==> adapters[..n][i] == adapters[i];
    }
    if Offered(adapters[..n], packages, e) {
      var i :| 0 <= i < n && adapters[..n][i].1 == e.requirement;
      assert adapters[i].1 == e.requirement;
    }
  }

  /** Collecting either gives exactly what is offered, or meets two offers for one package. */
  ghost predicate Collected(
    adapters: seq<(string, Requirement)>, packages: set<string>, core: Dict, r: Result<Dict, Refusal>)
  {
    if r.Ok? then
      Unique(r.value) && forall e :: e in r.value <==> e in core || Offered(adapters, packages, e)
    else
      && r.reason == ConflictingAliases
      && exists a, b ::
        && (a in core || Offered(adapters, packages, a))
        && (b in core || Offered(adapters, packages, b))
        && a.key == b.key && a != b
  }

  lemma {:induction false} CollectExactly(adapters: seq<(string, Requirement)>, packages: set<string>, core: Dict)
    requires Unique(core)
    ensures Collected(adapters, packages, core, Collect(adapters, packages, core))
  {
    if adapters != [] {
      var n := |adapters| - 1;
      CollectExactly(adapters[..n], packages, core);
      forall e
        ensures Offered(adapters, packages, e) <==>
          Offered(adapters[..n], packages, e) || OfferedLast(adapters, packages, e)
      {
        OfferedNext(adapters, packages, e);
      }
      CollectOne(adapters, packages, core, Collect(adapters[..n], packages, core));
    }
  }

  lemma CollectOne(
    adapters: seq<(string, Requirement)>, packages: set<string>, core: Dict, front: Result<Dict, Refusal>)
    requires adapters != [] && front == Collect(adapters[..|adapters| - 1], packages, core)
    requires Collected(adapters[..|adapters| - 1], packages, core, front)
    requires var n := |adapters| - 1;
      forall e :: Offered(adapters, packages, e) <==>
        Offered(adapters[..n], packages, e) || OfferedLast(adapters, packages, e)
    ensures Collected(adapters, packages, core, Collect(adapters, packages, core))
  {
    var r := adapters[|adapters| - 1].1;
    var last := Entry(PackageName(r), r);
    if front.Ok? && last.key in packages {
      var d := front.value;
      if Has(d, last.key) {
        var other := Entry(last.key, Get(d, last.key, r));
        GetMember(d, last.key, other.requirement, r);
        assert other in d;
      }
      PutUnique(d, last.key, r);
      forall e
        ensures e in Put(d, last.key, r) <==> e == last || (e.key != last.key && e in d)
      {
        PutMembers(d, last.key, r, e);
      }
      forall e | e in d && e.key == last.key
        ensures Has(d, last.key) && Get(d, last.key, r) == e.requirement
      {
        GetMember(d, last.key, e.requirement, r);
      }
    }
  }

  /** Synchronizing fails exactly when the catalog has two different sources for a selected package. */
  lemma ConflictExactly(d: Dict, catalog: Catalog, packages: set<string>)
    ensures Synchronized(d, catalog, packages).Err? <==> Conflict(catalog, packages)
    ensures Synchronized(d, catalog, packages).Err? ==> Synchronized(d, catalog, packages).reason == ConflictingAliases
  {
    var core := CoreChange(catalog, packages);
    CollectExactly(catalog.adapters, packages, core);
    var r := Collect(catalog.adapters, packages, core);
    if r.Ok? {
      forall a, b | Offers(catalog, packages, a) && Offers(catalog, packages, b) && a.key == b.key
        ensures a == b
      {
        assert a in r.value && b in r.value;
      }
    } else {
      var a, b :|
        && (a in core || Offered(catalog.adapters, packages, a))
        && (b in core || Offered(catalog.adapters, packages, b))
        && a.key == b.key && a != b;
      assert Offers(catalog, packages, a) && Offers(catalog, packages, b);
    }
  }

  /** A source with exactly the extras of both requests. */
  predicate HasBoth(now: Requirement, source: Requirement, was: Requirement) {
    && now.base == source.base && now.tail == source.tail
    && Elements(now.extras) == (Elements(source.extras) + Elements(was.extras)) - {""}
  }

  /** What the request says about an offered package after and before. */
  ghost predicate Resourced(now: Dict, was: Dict, e: Entry) {
    && Has(now, e.key)
    && (Has(was, e.key) ==> HasBoth(Get(now, e.key, e.requirement), e.requirement, Get(was, e.key, e.requirement)))
    && (!Has(was, e.key) ==> Get(now, e.key, e.requirement) == e.requirement)
  }

  lemma {:induction false} ChangeAt(d: Dict, changes: Dict, i: nat)
    requires Unique(changes) && i < |changes|
    ensures Has(ApplyChanges(d, changes), changes[i].key)
    ensures Get(ApplyChanges(d, changes), changes[i].key, changes[i].requirement) == Synced(d, changes[i])
  {
    var n := |changes| - 1;
    var front, last := changes[..n], changes[n];
    var before := ApplyChanges(d, front);
    PutGet(before, last.key, Synced(before, last), changes[i].key, changes[i].requirement);
    PutKeys(before, last.key, Synced(before, last), changes[i].key);
    if i == n {
      OthersKept(d, front, last.key, last.requirement);
    } else {
      assert front[i] == changes[i] && last.key != changes[i].key;
      ChangeAt(d, front, i);
    }
  }

  /** Every package of the change list gets its source and the extras of both requests. */
  lemma SyncKeepsExtras(d: Dict, changes: Dict, e: Entry)
    requires Unique(changes) && e in changes
    ensures Resourced(ApplyChanges(d, changes), d, e)
  {
    var i :| 0 <= i < |changes| && changes[i] == e;
    ChangeAt(d, changes, i);
  }

  /** A key that the list does not mention keeps its requirement. */
  lemma SyncKeepsOthers(d: Dict, changes: Dict, k: string, r: Requirement)
    requires Unique(d) && Unique(ApplyChanges(d, changes)) && !Has(changes, k)
    ensures Entry(k, r) in ApplyChanges(d, changes) <==> Entry(k, r) in d
  {
    OthersKept(d, changes, k, r);
    GetMember(d, k, r, r);
    GetMember(ApplyChanges(d, changes), k, r, r);
  }

  lemma {:induction false} OthersKept(d: Dict, changes: Dict, k: string, otherwise: Requirement)
    requires forall i :: 0 <= i < |changes| ==> changes[i].key != k
    ensures Get(ApplyChanges(d, changes), k, otherwise) == Get(d, k, otherwise)
    ensures Has(ApplyChanges(d, changes), k) <==> Has(d, k)
  {
    if changes != [] {
      var n := |changes| - 1;
      OthersKept(d, changes[..n], k, otherwise);
      var before, last := ApplyChanges(d, changes[..n]), changes[n];
      PutGet(before, last.key, Synced(before, last), k, otherwise);
      PutKeys(before, last.key, Synced(before, last), k);
    }
  }

  // ----- The upgrade plan ---------------------------------------------------

  predicate CatalogOk(o: Options) {
    o.catalog.Some? ==> CoreNamed(o.catalog.value)
  }

  ghost predicate KeyOffered(catalog: Catalog, packages: set<string>, k: string) {
    exists e :: Offers(catalog, packages, e) && e.key == k
  }

  /**
   * Without synchronization the request is the recorded one. With it, every
   * selected package of the catalog has the catalog's source and the extras of
   * both requests, and every other package is as it was recorded.
   */
  ghost predicate SyncsSources(inst: Installation, o: Options, request: Request, packages: set<string>) {
    var was, now := File(inst.requirements), File(request.All());
    if !o.sync then request.All() == inst.requirements
    else
      && o.catalog.Some?
      && (forall e :: Offers(o.catalog.value, packages, e) ==> Resourced(now, was, e))
      && (forall e: Entry :: !KeyOffered(o.catalog.value, packages, e.key) ==> (e in now <==> e in was))
  }

  lemma DesiredSyncs(rs: seq<Requirement>, o: Options, packages: set<string>)
    requires WellNamed(rs) && o.sync && o.catalog.Some? && CatalogOk(o) && Desired(rs, o, packages).Ok?
    ensures var was, now := File(rs), Desired(rs, o, packages).value;
      && (forall e :: Offers(o.catalog.value, packages, e) ==> Resourced(now, was, e))
      && (forall e: Entry :: !KeyOffered(o.catalog.value, packages, e.key) ==> (e in now <==> e in was))
  {
    var catalog, was := o.catalog.value, File(rs);
    var core := CoreChange(catalog, packages);
    FileWhole(rs);
    DesiredWhole(rs, o, packages);
    CollectExactly(catalog.adapters, packages, core);
    var changes := Collect(catalog.adapters, packages, core).value;
    forall e | Offers(catalog, packages, e)
      ensures Resourced(ApplyChanges(was, changes), was, e)
    {
      SyncKeepsExtras(was, changes, e);
    }
    forall e: Entry | !KeyOffered(catalog, packages, e.key)
      ensures e in ApplyChanges(was, changes) <==> e in was
    {
      if Has(changes, e.key) {
        var i :| 0 <= i < |changes| && changes[i].key == e.key;
        assert changes[i] in changes && Offers(catalog, packages, changes[i]);
      }
      SyncKeepsOthers(was, changes, e.key, e.requirement);
    }
  }

  lemma PlanSyncs(inst: Installation, o: Options, packages: seq<string>, moving: Requirement -> bool)
    requires CatalogOk(o) && (o.sync ==> o.catalog.Some?)
    ensures var r := UpgradeWith(inst, o, packages, moving);
      r.Ok? && r.value.Selective? ==> SyncsSources(inst, o, r.value.request, Elements(packages))
  {
    var r := UpgradeWith(inst, o, packages, moving);
    if r.Ok? && r.value.Selective? {
      var rs := inst.requirements;
      FileWhole(rs);
      DesiredWhole(rs, o, Elements(packages));
      WholeIsAccepted(inst, Desired(rs, o, Elements(packages)).value);
      if o.sync {
        DesiredSyncs(rs, o, Elements(packages));
      }
    }
  }

  /** What an upgrade plan requests of the selected packages. */
  lemma UpgradeSyncs(inst: Installation, o: Options, providers: Providers, moving: Requirement -> bool)
    requires CatalogOk(o)
    ensures var r := Upgrade(inst, o, providers, moving);
      r.Ok? && r.value.Selective? ==> SyncsSources(inst, o, r.value.request, Elements(r.value.packages))
  {
    if (o.sync ==> o.catalog.Some?) && Packages(o, providers).Ok? {
      PlanKeepsTheRest(inst, o, Packages(o, providers).value, moving);
      PlanSyncs(inst, o, Packages(o, providers).value, moving);
    }
  }

  method PlanUpgrade(inst: Installation, o: Options, providers: Providers, moving: Requirement -> bool)
    returns (r: Result<Plan, Refusal>)
    ensures r == Upgrade(inst, o, providers, moving)
    ensures CatalogOk(o) ==> r != Err(AmbiguousRequest)
    ensures CatalogOk(o) && r.Ok? && r.value.Selective? ==>
              && KeepsTheRest(inst, r.value.request, Elements(r.value.packages))
              && SyncsSources(inst, o, r.value.request, Elements(r.value.packages))
  {
    if CatalogOk(o) {
      UpgradeKeepsTheRest(inst, o, providers, moving);
      UpgradeSyncs(inst, o, providers, moving);
    }
    if o.coreOnly && (o.adaptersOnly || o.sels != []) {
      return Err(CoreWithAdapters);
    }
    if o.sync && o.catalog.None? {
      return Err(CatalogRequired);
    }
    if o.Plain() {
      return Ok(Bulk);
    }
    var chosen := Packages(o, providers);
    if chosen.Err? {
      return Err(chosen.reason);
    }
    var packages := chosen.value;
    if packages == [] {
      return Ok(NothingToDo);
    }
    var recorded := Recorded(inst);
    if recorded.Err? {
      return Err(recorded.reason);
    }
    if ScopeBlocked(recorded.value, o, Elements(packages), moving) {
      return Err(MutableSource);
    }
    var desired := File(recorded.value);
    if o.sync {
      var synced := Synchronize(desired, o.catalog.value, Elements(packages));
      if synced.Err? {
        return Err(synced.reason);
      }
      desired := synced.value;
    }
    var request := InstallRequest(inst, Values(desired));
    r := if request.Err? then Err(request.reason) else Ok(Selective(request.value, packages, o.Scoped()));
  }
}
