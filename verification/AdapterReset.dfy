/**
 * Resetting installed first-party adapters, and core on request, to their default
 * sources: every ordinary extra is kept, and nothing else of the request changes.
 */
module AdapterReset {
  import opened Counting
  import opened Ordering
  import opened Requirements
  import opened InstallPlanner
  import opened SelfUpgrade
  import opened Results

  // ----- The rewritten request ----------------------------------------------

  const INTEGRATION := "integration"

  /** Default sources by package name. */
  type Defaults = map<string, Requirement>

  /** Defaults are filed by package name, and none of them is core. */
  predicate DefaultsOk(defaults: Defaults) {
    CORE !in defaults && forall name :: name in defaults ==> PackageName(defaults[name]) == name
  }

  /** The default source with every extra except the candidate-only one. */
  function ResetTo(source: Requirement, previous: Requirement): Requirement {
    source.(extras := MergedExtras(source.extras, previous.extras, {"", INTEGRATION}))
  }

  function ResetOne(d: Dict, name: string, source: Requirement): Dict {
    Put(d, name, ResetTo(source, Get(d, name, source)))
  }

  function ResetAll(d: Dict, names: seq<string>, defaults: Defaults): Dict
    requires forall i :: 0 <= i < |names| ==> names[i] in defaults
  {
    if names == [] then d
    else
      var n := |names| - 1;
      ResetOne(ResetAll(d, names[..n], defaults), names[n], defaults[names[n]])
  }

  function ResetCore(d: Dict, core: Requirement): Dict {
    Put(d, CORE, RetainExtras(core, Get(d, CORE, core)))
  }

  function ResetRequest(d: Dict, names: seq<string>, defaults: Defaults, includeCore: bool, core: Requirement): Dict
    requires forall i :: 0 <= i < |names| ==> names[i] in defaults
  {
    var adapters := ResetAll(d, names, defaults);
    if includeCore then ResetCore(adapters, core) else adapters
  }

  /** The adapters to reset: the selected ones, or every installed one that has a default source. */
  function ResetNames(
    sels: seq<Selection>, aliases: Catalog, providers: Providers, defaults: Defaults): (r: Result<seq<string>, Refusal>)
    ensures r.Ok? ==> forall i :: 0 <= i < |r.value| ==> r.value[i] in defaults && r.value[i] in providers
    ensures r.Ok? ==> Distinct(r.value)
  {
    if exists i :: 0 <= i < |sels| && (sels[i].Malformed? || sels[i].extras != []) then Err(NotASelection)
    else match AllInstalled(sels, aliases, providers)
         case Err(reason) => Err(reason)
         case Ok(found) =>
           var chosen := if sels != [] then found else providers.Keys * defaults.Keys;
           if chosen <= defaults.Keys then
             var names := SortedStrings(chosen);
             assert forall i :: 0 <= i < |names| ==> names[i] in names;
             Ok(names)
           else Err(NoDefaultSource)
  }

  function ResetPackages(names: seq<string>, includeCore: bool): seq<string> {
    (if includeCore then [CORE] else []) + names
  }

  function Reset(
    inst: Installation, sels: seq<Selection>, aliases: Catalog, providers: Providers, defaults: Defaults,
    includeCore: bool, core: Requirement): Result<Plan, Refusal>
  {
    if Recorded(inst).Err? then Err(Recorded(inst).reason)
    else match ResetNames(sels, aliases, providers, defaults)
         case Err(reason) => Err(reason)
         case Ok(names) =>
           if names == [] && !includeCore then Ok(NothingToDo)
           else
             var desired := ResetRequest(File(inst.requirements), names, defaults, includeCore, core);
             match InstallRequest(inst, Values(desired))
             case Err(reason) => Err(reason)
             case Ok(request) => Ok(Selective(request, ResetPackages(names, includeCore), true))
  }

  method ResetEach(recorded: Dict, names: seq<string>, defaults: Defaults) returns (desired: Dict)
    requires forall i :: 0 <= i < |names| ==> names[i] in defaults
    ensures desired == ResetAll(recorded, names, defaults)
  {
    desired := recorded;
    for i := 0 to |names|
      invariant desired == ResetAll(recorded, names[..i], defaults)
    {
      TakeNext(names, i);
      assert names[..i + 1][..i] == names[..i] && names[..i + 1][i] == names[i];
      desired := ResetOne(desired, names[i], defaults[names[i]]);
    }
    assert names[..|names|] == names;
  }

  lemma ResetOneKeeps(d: Dict, name: string, source: Requirement, touched: set<string>)
    requires Whole(d) && PackageName(source) == name && name in touched
    ensures Whole(ResetOne(d, name, source))
    ensures Untouched(ResetOne(d, name, source), touched) == Untouched(d, touched)
  {
    var r := ResetTo(source, Get(d, name, source));
    PutWhole(d, name, r);
    PutUntouched(d, name, r, touched);
  }

  lemma {:induction false} ResetKeepsOthers(d: Dict, names: seq<string>, defaults: Defaults, touched: set<string>)
    requires Whole(d) && DefaultsOk(defaults)
    requires forall i :: 0 <= i < |names| ==> names[i] in defaults && names[i] in touched
    ensures Whole(ResetAll(d, names, defaults))
    ensures Untouched(ResetAll(d, names, defaults), touched) == Untouched(d, touched)
  {
    if names != [] {
      var n := |names| - 1;
      var name, front := names[n], ResetAll(d, names[..n], defaults);
      assert ResetAll(d, names, defaults) == ResetOne(front, name, defaults[name]);
      assert PackageName(defaults[name]) == name && name in touched;
      ResetKeepsOthers(d, names[..n], defaults, touched);
      ResetOneKeeps(front, name, defaults[name], touched);
    }
  }

  lemma ResetRequestKeeps(
    d: Dict, names: seq<string>, defaults: Defaults, includeCore: bool, core: Requirement, touched: set<string>)
    requires Whole(d) && DefaultsOk(defaults) && PackageName(core) == CORE
    requires forall i :: 0 <= i < |names| ==> names[i] in defaults && names[i] in touched
    requires includeCore ==> CORE in touched
    ensures Whole(ResetRequest(d, names, defaults, includeCore, core))
    ensures Untouched(ResetRequest(d, names, defaults, includeCore, core), touched) == Untouched(d, touched)
  {
    ResetKeepsOthers(d, names, defaults, touched);
    if includeCore {
      var adapters := ResetAll(d, names, defaults);
      var r := RetainExtras(core, Get(adapters, CORE, core));
      PutWhole(adapters, CORE, r);
      PutUntouched(adapters, CORE, r, touched);
    }
  }

  lemma ResetNamesNeverAmbiguous(sels: seq<Selection>, aliases: Catalog, providers: Providers, defaults: Defaults)
    ensures ResetNames(sels, aliases, providers, defaults) != Err(AmbiguousRequest)
  {
    SelectionNeverAmbiguous(sels, aliases, providers);
  }

  /** The plan of a reset, once its adapters are chosen: what is requested is exactly the rewritten dictionary. */
  lemma ResetPlan(
    inst: Installation, sels: seq<Selection>, aliases: Catalog, providers: Providers, defaults: Defaults,
    includeCore: bool, core: Requirement)
    requires DefaultsOk(defaults) && PackageName(core) == CORE && Recorded(inst).Ok?
    requires ResetNames(sels, aliases, providers, defaults).Ok?
    requires ResetNames(sels, aliases, providers, defaults).value != [] || includeCore
    ensures var r := Reset(inst, sels, aliases, providers, defaults, includeCore, core);
      var names := ResetNames(sels, aliases, providers, defaults).value;
      var d := ResetRequest(File(inst.requirements), names, defaults, includeCore, core);
      && r.Ok? && r.value.Selective? && r.value.packages == ResetPackages(names, includeCore) && r.value.onlyThose
      && r.value.request.All() == Values(d) && WellNamed(Values(d)) && File(Values(d)) == d
      && Untouched(d, Elements(r.value.packages)) == Untouched(File(inst.requirements), Elements(r.value.packages))
  {
    var names := ResetNames(sels, aliases, providers, defaults).value;
    var packages := ResetPackages(names, includeCore);
    assert forall i :: 0 <= i < |names| ==> names[i] in names && names[i] in packages;
    FileWhole(inst.requirements);
    ResetRequestKeeps(File(inst.requirements), names, defaults, includeCore, core, Elements(packages));
    WholeIsAccepted(inst, ResetRequest(File(inst.requirements), names, defaults, includeCore, core));
  }

  /** A reset is never ambiguous either, and keeps what it was not asked to change. */
  lemma ResetKeepsTheRest(
    inst: Installation, sels: seq<Selection>, aliases: Catalog, providers: Providers, defaults: Defaults,
    includeCore: bool, core: Requirement)
    requires DefaultsOk(defaults) && PackageName(core) == CORE
    ensures var r := Reset(inst, sels, aliases, providers, defaults, includeCore, core);
      && r != Err(AmbiguousRequest)
      && (r.Ok? && r.value.Selective? ==> KeepsTheRest(inst, r.value.request, Elements(r.value.packages)))
  {
    ResetNamesNeverAmbiguous(sels, aliases, providers, defaults);
    if Recorded(inst).Ok? && ResetNames(sels, aliases, providers, defaults).Ok? {
      if ResetNames(sels, aliases, providers, defaults).value != [] || includeCore {
        ResetPlan(inst, sels, aliases, providers, defaults, includeCore, core);
      }
    }
  }

  // ----- Resetting twice ----------------------------------------------------

  /** Resetting this package again would change nothing. */
  predicate Settled(d: Dict, name: string, source: Requirement) {
    Has(d, name) && ResetTo(source, Get(d, name, source)) == Get(d, name, source)
  }

  lemma ResetSettles(d: Dict, name: string, source: Requirement)
    ensures Settled(ResetOne(d, name, source), name, source)
    ensures Settled(d, name, source) ==> ResetOne(d, name, source) == d
  {
    var previous := Get(d, name, source);
    var r := ResetTo(source, previous);
    PutKeys(d, name, r, name);
    PutGet(d, name, r, name, source);
    MergeIdempotent(source.extras, previous.extras, {"", INTEGRATION});
    if Settled(d, name, source) {
      PutSame(d, name, source);
    }
  }

  lemma PutKeepsSettled(d: Dict, k: string, r: Requirement, name: string, source: Requirement)
    requires k != name && Settled(d, name, source)
    ensures Settled(Put(d, k, r), name, source)
  {
    PutKeys(d, k, r, name);
    PutGet(d, k, r, name, source);
  }

  lemma ResetKeepsSettled(d: Dict, k: string, kSource: Requirement, name: string, source: Requirement)
    requires Settled(d, name, source) && (k == name ==> kSource == source)
    ensures Settled(ResetOne(d, k, kSource), name, source)
  {
    if k == name {
      ResetSettles(d, name, source);
    } else {
      PutKeepsSettled(d, k, ResetTo(kSource, Get(d, k, kSource)), name, source);
    }
  }

  predicate AllSettled(d: Dict, names: seq<string>, defaults: Defaults)
    requires forall i :: 0 <= i < |names| ==> names[i] in defaults
  {
    forall i :: 0 <= i < |names| ==> Settled(d, names[i], defaults[names[i]])
  }

  lemma {:induction false} SettledAt(d: Dict, names: seq<string>, defaults: Defaults, i: nat)
    requires forall j :: 0 <= j < |names| ==> names[j] in defaults
    requires i < |names|
    ensures Settled(ResetAll(d, names, defaults), names[i], defaults[names[i]])
  {
    var n := |names| - 1;
    var front := ResetAll(d, names[..n], defaults);
    if i == n {
      ResetSettles(front, names[n], defaults[names[n]]);
    } else {
      SettledAt(d, names[..n], defaults, i);
      ResetKeepsSettled(front, names[n], defaults[names[n]], names[i], defaults[names[i]]);
    }
  }

  lemma ResetAllSettles(d: Dict, names: seq<string>, defaults: Defaults)
    requires forall i :: 0 <= i < |names| ==> names[i] in defaults
    ensures AllSettled(ResetAll(d, names, defaults), names, defaults)
  {
    forall i | 0 <= i < |names|
      ensures Settled(ResetAll(d, names, defaults), names[i], defaults[names[i]])
    {
      SettledAt(d, names, defaults, i);
    }
  }

  lemma {:induction false} SettledStays(d: Dict, names: seq<string>, defaults: Defaults)
    requires forall i :: 0 <= i < |names| ==> names[i] in defaults
    requires AllSettled(d, names, defaults)
    ensures ResetAll(d, names, defaults) == d
  {
    if names != [] {
      var n := |names| - 1;
      assert forall i :: 0 <= i < n ==> names[..n][i] == names[i];
      SettledStays(d, names[..n], defaults);
      ResetSettles(d, names[n], defaults[names[n]]);
    }
  }

  /** Applying a reset to its own result changes nothing: no source, no extra, no position. */
  lemma ResetIdempotent(d: Dict, names: seq<string>, defaults: Defaults, includeCore: bool, core: Requirement)
    requires forall i :: 0 <= i < |names| ==> names[i] in defaults && names[i] != CORE
    ensures var once := ResetRequest(d, names, defaults, includeCore, core);
      ResetRequest(once, names, defaults, includeCore, core) == once
  {
    var once := ResetRequest(d, names, defaults, includeCore, core);
    var adapters := ResetAll(d, names, defaults);
    ResetAllSettles(d, names, defaults);
    if includeCore {
      forall i | 0 <= i < |names|
        ensures Settled(once, names[i], defaults[names[i]])
      {
        PutKeepsSettled(adapters, CORE, RetainExtras(core, Get(adapters, CORE, core)), names[i], defaults[names[i]]);
      }
    }
    SettledStays(once, names, defaults);
    if includeCore {
      CoreSettles(adapters, core);
    }
  }

  lemma CoreSettles(d: Dict, core: Requirement)
    ensures ResetCore(ResetCore(d, core), core) == ResetCore(d, core)
  {
    var previous := Get(d, CORE, core);
    var r := RetainExtras(core, previous);
    var once := ResetCore(d, core);
    PutKeys(d, CORE, r, CORE);
    PutGet(d, CORE, r, CORE, core);
    MergeIdempotent(core.extras, previous.extras, {""});
    PutSame(once, CORE, core);
  }

  // ----- The extras of a reset ----------------------------------------------

  /** The default source with exactly the extras of both requests, minus `integration`. */
  predicate HasOrdinary(now: Requirement, source: Requirement, was: Requirement) {
    && now.base == source.base && now.tail == source.tail
    && Elements(now.extras) == (Elements(source.extras) + Elements(was.extras)) - {"", INTEGRATION}
  }

  /** A reset package is rewritten once, from what was recorded for it. */
  lemma {:induction false} ResetAllAt(
    d: Dict, names: seq<string>, defaults: Defaults, k: string, otherwise: Requirement)
    requires Distinct(names) && forall i :: 0 <= i < |names| ==> names[i] in defaults
    ensures Has(ResetAll(d, names, defaults), k) <==> k in names || Has(d, k)
    ensures k in names ==>
              Get(ResetAll(d, names, defaults), k, otherwise) == ResetTo(defaults[k], Get(d, k, defaults[k]))
    ensures k !in names ==> Get(ResetAll(d, names, defaults), k, otherwise) == Get(d, k, otherwise)
  {
    if names != [] {
      var n := |names| - 1;
      var front, name := names[..n], names[n];
      var before, source := ResetAll(d, front, defaults), defaults[name];
      var r := ResetTo(source, Get(before, name, source));
      assert k in names <==> k in front || k == name;
      assert name !in front;
      if k == name {
        ResetAllAt(d, front, defaults, name, source);
      } else {
        ResetAllAt(d, front, defaults, k, otherwise);
      }
      assert ResetAll(d, names, defaults) == Put(before, name, r);
      PutGet(before, name, r, k, otherwise);
      PutKeys(before, name, r, k);
    }
  }

  predicate ResetAt(now: Dict, was: Dict, k: string, defaults: Defaults, core: Requirement) {
    && Has(now, k)
    && if k == CORE then HasBoth(Get(now, CORE, core), core, Get(was, CORE, core))
       else k in defaults && HasOrdinary(Get(now, k, defaults[k]), defaults[k], Get(was, k, defaults[k]))
  }

  /** Every package of the plan, core among them, asks for its default source and keeps its extras. */
  ghost predicate ResetsSources(
    inst: Installation, request: Request, packages: seq<string>, defaults: Defaults, core: Requirement)
  {
    var was, now := File(inst.requirements), File(request.All());
    forall k :: k in packages ==> ResetAt(now, was, k, defaults, core)
  }

  lemma ResetRequestAt(d: Dict, names: seq<string>, defaults: Defaults, includeCore: bool, core: Requirement, k: string)
    requires DefaultsOk(defaults) && Distinct(names) && forall i :: 0 <= i < |names| ==> names[i] in defaults
    requires k in ResetPackages(names, includeCore)
    ensures ResetAt(ResetRequest(d, names, defaults, includeCore, core), d, k, defaults, core)
  {
    var adapters := ResetAll(d, names, defaults);
    assert k in names || (k == CORE && includeCore);
    assert CORE !in names;
    ResetAllAt(d, names, defaults, CORE, core);
    ResetAllAt(d, names, defaults, k, if k in defaults then defaults[k] else core);
    if includeCore {
      var r := RetainExtras(core, Get(adapters, CORE, core));
      PutGet(adapters, CORE, r, k, if k in defaults then defaults[k] else core);
      PutKeys(adapters, CORE, r, k);
    }
  }

  /**
   * What a planned reset requests: for every package it names, the default source
   * with the extras of the default and of the record; adapters lose `integration`.
   */
  lemma ResetExtras(
    inst: Installation, sels: seq<Selection>, aliases: Catalog, providers: Providers, defaults: Defaults,
    includeCore: bool, core: Requirement)
    requires DefaultsOk(defaults) && PackageName(core) == CORE
    ensures var r := Reset(inst, sels, aliases, providers, defaults, includeCore, core);
      r.Ok? && r.value.Selective? ==>
        && r.value.packages == ResetPackages(ResetNames(sels, aliases, providers, defaults).value, includeCore)
        && ResetsSources(inst, r.value.request, r.value.packages, defaults, core)
  {
    var r := Reset(inst, sels, aliases, providers, defaults, includeCore, core);
    if r.Ok? && r.value.Selective? {
      var names := ResetNames(sels, aliases, providers, defaults).value;
      ResetPlan(inst, sels, aliases, providers, defaults, includeCore, core);
      forall k | k in r.value.packages
        ensures ResetAt(File(r.value.request.All()), File(inst.requirements), k, defaults, core)
      {
        ResetRequestAt(File(inst.requirements), names, defaults, includeCore, core, k);
      }
    }
  }

  method PlanReset(
    inst: Installation, sels: seq<Selection>, aliases: Catalog, providers: Providers, defaults: Defaults,
    includeCore: bool, core: Requirement)
    returns (r: Result<Plan, Refusal>)
    ensures r == Reset(inst, sels, aliases, providers, defaults, includeCore, core)
    ensures DefaultsOk(defaults) && PackageName(core) == CORE ==> r != Err(AmbiguousRequest)
    ensures DefaultsOk(defaults) && PackageName(core) == CORE && r.Ok? && r.value.Selective? ==>
              && KeepsTheRest(inst, r.value.request, Elements(r.value.packages))
              && ResetsSources(inst, r.value.request, r.value.packages, defaults, core)
  {
    if DefaultsOk(defaults) && PackageName(core) == CORE {
      ResetKeepsTheRest(inst, sels, aliases, providers, defaults, includeCore, core);
      ResetExtras(inst, sels, aliases, providers, defaults, includeCore, core);
    }
    var recorded := Recorded(inst);
    if recorded.Err? {
      return Err(recorded.reason);
    }
    var chosen := ResetNames(sels, aliases, providers, defaults);
    if chosen.Err? {
      return Err(chosen.reason);
    }
    var names := chosen.value;
    if names == [] && !includeCore {
      return Ok(NothingToDo);
    }
    var desired := ResetEach(File(recorded.value), names, defaults);
    if includeCore {
      desired := ResetCore(desired, core);
    }
    var request := InstallRequest(inst, Values(desired));
    r := if request.Err? then Err(request.reason)
    else Ok(Selective(request.value, ResetPackages(names, includeCore), true));
  }

  /** Planning the same reset for the environment it asks for gives the same plan. */
  lemma ResetTwice(
    inst: Installation, sels: seq<Selection>, aliases: Catalog, providers: Providers, defaults: Defaults,
    includeCore: bool, core: Requirement)
    requires DefaultsOk(defaults) && PackageName(core) == CORE
    requires Reset(inst, sels, aliases, providers, defaults, includeCore, core).Ok?
    requires Reset(inst, sels, aliases, providers, defaults, includeCore, core).value.Selective?
    ensures var first := Reset(inst, sels, aliases, providers, defaults, includeCore, core);
      var again := Installation(first.value.request.All(), true);
      Reset(again, sels, aliases, providers, defaults, includeCore, core) == first
  {
    var first := Reset(inst, sels, aliases, providers, defaults, includeCore, core).value;
    var again := Installation(first.request.All(), true);
    ResetPlan(inst, sels, aliases, providers, defaults, includeCore, core);
    ResetPlan(again, sels, aliases, providers, defaults, includeCore, core);
    var names := ResetNames(sels, aliases, providers, defaults).value;
    ResetIdempotent(File(inst.requirements), names, defaults, includeCore, core);
    var second := Reset(again, sels, aliases, providers, defaults, includeCore, core).value;
    SameRequest(first.request, second.request);
  }

  lemma SameRequest(a: Request, b: Request)
    requires a.All() == b.All()
    ensures a == b
  {
    assert a.All()[0] == a.core && b.All()[0] == b.core;
    assert a.All()[1..] == a.others && b.All()[1..] == b.others;
  }
}
