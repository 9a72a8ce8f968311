/**
 * Adding and removing adapters of the persistent tool installation. The planner
 * rebuilds the complete request from the recorded requirements; only the selected
 * packages may change.
 */
module InstallPlanner {
  import opened Counting
  import opened Requirements
  import opened Results

  /** Why a plan is refused. */
  datatype Refusal =
    | CustomSettings
    | AmbiguousReceipt
    | AmbiguousRequest
    | UnknownSource
    | CoreReplacement
    | NotADependency
    | CoreWithAdapters
    | CatalogRequired
    | NotASelection
    | SeveralProviders
    | NotInstalled
    | ConflictingAliases
    | MutableSource
    | NoDefaultSource

  const CORE := "medre"

  /** A selection as written: `alias` or `alias[extra,...]`; anything else is malformed. */
  datatype Selection = Malformed(text: string) | Selected(alias: string, extras: seq<string>)

  type Sources = map<string, Requirement>

  /** The receipt: requested packages, and whether its other settings can be replayed. */
  datatype Installation = Installation(requirements: seq<Requirement>, replayable: bool)

  datatype Request = Request(core: Requirement, others: seq<Requirement>) {
    function All(): seq<Requirement> {
      [core] + others
    }
  }

  function Names(rs: seq<Requirement>): seq<string> {
    seq(|rs|, i requires 0 <= i < |rs| => PackageName(rs[i]))
  }

  /** Core first, and no package requested twice. */
  predicate WellNamed(rs: seq<Requirement>) {
    rs != [] && PackageName(rs[0]) == CORE && Distinct(Names(rs))
  }

  function Recorded(inst: Installation): Result<seq<Requirement>, Refusal> {
    if !inst.replayable then Err(CustomSettings)
    else if !WellNamed(inst.requirements) then Err(AmbiguousReceipt)
    else Ok(inst.requirements)
  }

  function InstallRequest(inst: Installation, rs: seq<Requirement>): Result<Request, Refusal> {
    if Recorded(inst).Err? then Err(Recorded(inst).reason)
    else if !WellNamed(rs) then Err(AmbiguousRequest)
    else Ok(Request(rs[0], rs[1..]))
  }

  /** Resolves an alias, merging any requested extras into its source. */
  function SelectedSource(sel: Selection, sources: Sources): Result<Entry, Refusal> {
    if sel.Malformed? || sel.alias !in sources then Err(UnknownSource)
    else
      var r := sources[sel.alias];
      if PackageName(r) == CORE then Err(CoreReplacement)
      else if sel.extras == [] then Ok(Entry(PackageName(r), r))
      else Ok(Entry(PackageName(r), r.(extras := MergedExtras(r.extras, sel.extras, {""}))))
  }

  /** A removal may name an installed package directly. */
  predicate NamesPackage(d: Dict, sel: Selection) {
    sel.Selected? && sel.extras == [] && Has(d, Normalize(sel.alias))
  }

  /** The package one selection is about. */
  function Resolve(d: Dict, sel: Selection, sources: Sources, remove: bool): Result<Entry, Refusal> {
    if remove && NamesPackage(d, sel) then Ok(Entry(Normalize(sel.alias), Requirement("", [], "")))
    else SelectedSource(sel, sources)
  }

  function ChangeOne(d: Dict, sel: Selection, sources: Sources, remove: bool): Result<Dict, Refusal> {
    match Resolve(d, sel, sources, remove)
    case Err(reason) => Err(reason)
    case Ok(entry) =>
      if !remove then Ok(Put(d, entry.key, entry.requirement))
      else if !Has(d, entry.key) then Err(NotADependency)
      else Ok(Delete(d, entry.key))
  }

  /** All selections in order. */
  function Change(d: Dict, sels: seq<Selection>, sources: Sources, remove: bool): Result<Dict, Refusal> {
    if sels == [] then Ok(d)
    else match Change(d, sels[..|sels| - 1], sources, remove)
         case Err(reason) => Err(reason)
         case Ok(m) => ChangeOne(m, sels[|sels| - 1], sources, remove)
  }

  /** The packages that the selections are about. */
  function Touched(d: Dict, sels: seq<Selection>, sources: Sources, remove: bool): set<string> {
    if sels == [] then {}
    else
      var front := sels[..|sels| - 1];
      match Change(d, front, sources, remove)
      case Err(_) => Touched(d, front, sources, remove)
      case Ok(m) =>
        match Resolve(m, sels[|sels| - 1], sources, remove)
        case Err(_) => Touched(d, front, sources, remove)
        case Ok(entry) => Touched(d, front, sources, remove) + {entry.key}
  }

  function Planned(inst: Installation, sels: seq<Selection>, sources: Sources, remove: bool): Result<Request, Refusal> {
    match Recorded(inst)
    case Err(reason) => Err(reason)
    case Ok(rs) =>
      match Change(File(rs[1..]), sels, sources, remove)
      case Err(reason) => Err(reason)
      case Ok(d) => InstallRequest(inst, [rs[0]] + Values(d))
  }

  method ChangeAdapters(inst: Installation, sels: seq<Selection>, sources: Sources, remove: bool)
    returns (r: Result<Request, Refusal>)
    ensures r == Planned(inst, sels, sources, remove)
  {
    var recorded := Recorded(inst);
    if recorded.Err? {
      return Err(recorded.reason);
    }
    var rs := recorded.value;
    var desired := File(rs[1..]);
    for i := 0 to |sels|
      invariant Change(File(rs[1..]), sels[..i], sources, remove) == Ok(desired)
    {
      var sel := sels[i];
      assert sels[..i + 1][..i] == sels[..i];
      var resolved := Resolve(desired, sel, sources, remove);
      if resolved.Err? {
        ChangeFails(File(rs[1..]), sels, i, sources, remove);
        return Err(resolved.reason);
      }
      var name := resolved.value.key;
      if remove {
        if !Has(desired, name) {
          ChangeFails(File(rs[1..]), sels, i, sources, remove);
          return Err(NotADependency);
        }
        desired := Delete(desired, name);
      } else {
        desired := Put(desired, name, resolved.value.requirement);
      }
    }
    assert sels[..|sels|] == sels;
    r := InstallRequest(inst, [rs[0]] + Values(desired));
  }

  lemma {:induction false} ChangeFails(d: Dict, sels: seq<Selection>, i: nat, sources: Sources, remove: bool)
    requires i < |sels| && Change(d, sels[..i + 1], sources, remove).Err?
    ensures Change(d, sels, sources, remove) == Change(d, sels[..i + 1], sources, remove)
  {
    var n := |sels| - 1;
    if i == n {
      assert sels[..i + 1] == sels;
    } else {
      assert sels[..n][..i + 1] == sels[..i + 1];
      ChangeFails(d, sels[..n], i, sources, remove);
    }
  }

  // ----- Nothing else changes -----------------------------------------------

  /** What a dictionary of adapters must satisfy next to core. */
  predicate Sound(d: Dict) {
    Unique(d) && Filed(d) && !Has(d, CORE)
  }

  lemma FileSound(rs: seq<Requirement>)
    requires WellNamed(rs)
    ensures Sound(File(rs[1..]))
    ensures Values(File(rs[1..])) == rs[1..]
  {
    var d := File(rs[1..]);
    assert forall i :: 0 <= i < |d| ==> d[i].key == Names(rs)[i + 1];
    assert Names(rs)[0] == CORE;
  }

  lemma ChangeOneSound(d: Dict, sel: Selection, sources: Sources, remove: bool)
    requires Sound(d) && ChangeOne(d, sel, sources, remove).Ok?
    ensures Sound(ChangeOne(d, sel, sources, remove).value)
    ensures Resolve(d, sel, sources, remove).Ok? && Resolve(d, sel, sources, remove).value.key != CORE
  {
    var entry := Resolve(d, sel, sources, remove).value;
    if remove {
      DeleteKeys(d, entry.key, CORE);
      DeleteFiled(d, entry.key);
    } else {
      PutUnique(d, entry.key, entry.requirement);
      PutKeys(d, entry.key, entry.requirement, CORE);
      PutFiled(d, entry.key, entry.requirement);
    }
  }

  lemma ChangeOneUntouched(d: Dict, sel: Selection, sources: Sources, remove: bool, touched: set<string>)
    requires ChangeOne(d, sel, sources, remove).Ok?
    requires Resolve(d, sel, sources, remove).Ok? && Resolve(d, sel, sources, remove).value.key in touched
    ensures Untouched(ChangeOne(d, sel, sources, remove).value, touched) == Untouched(d, touched)
  {
    var entry := Resolve(d, sel, sources, remove).value;
    if remove {
      DeleteUntouched(d, entry.key, touched);
    } else {
      PutUntouched(d, entry.key, entry.requirement, touched);
    }
  }

  lemma {:induction false} ChangeKeepsOthers(
    d: Dict, sels: seq<Selection>, sources: Sources, remove: bool, touched: set<string>)
    requires Sound(d) && Change(d, sels, sources, remove).Ok? && Touched(d, sels, sources, remove) <= touched
    ensures Sound(Change(d, sels, sources, remove).value)
    ensures Untouched(Change(d, sels, sources, remove).value, touched) == Untouched(d, touched)
    ensures CORE !in Touched(d, sels, sources, remove)
  {
    if sels != [] {
      var n := |sels| - 1;
      ChangeKeepsOthers(d, sels[..n], sources, remove, touched);
      var m := Change(d, sels[..n], sources, remove).value;
      ChangeOneSound(m, sels[n], sources, remove);
      ChangeOneUntouched(m, sels[n], sources, remove, touched);
    }
  }

  lemma RefiledIsSame(d: Dict)
    requires Filed(d)
    ensures File(Values(d)) == d && Names(Values(d)) == Keys(d)
  {
  }

  lemma SoundIsWellNamed(core: Requirement, d: Dict)
    requires PackageName(core) == CORE && Sound(d)
    ensures WellNamed([core] + Values(d))
    ensures File(Values(d)) == d
  {
    RefiledIsSame(d);
    var names := Names([core] + Values(d));
    assert names == [CORE] + Keys(d);
    forall i, j | 0 <= i < j < |names|
      ensures names[i] != names[j]
    {
      assert names[j] == d[j - 1].key;
      assert i > 0 ==> names[i] == d[i - 1].key;
    }
  }

  /**
   * A change that resolves every selection always yields a request: core first
   * and untouched, no name twice, and every package outside the selections with
   * its value and its place among the others.
   */
  lemma RequestKeepsTheRest(inst: Installation, sels: seq<Selection>, sources: Sources, remove: bool)
    requires Recorded(inst).Ok?
    requires Change(File(inst.requirements[1..]), sels, sources, remove).Ok?
    ensures Planned(inst, sels, sources, remove).Ok?
    ensures var request := Planned(inst, sels, sources, remove).value;
      var touched := Touched(File(inst.requirements[1..]), sels, sources, remove);
      && request.core == inst.requirements[0]
      && WellNamed(request.All())
      && CORE !in touched
      && Untouched(File(request.others), touched) == Untouched(File(inst.requirements[1..]), touched)
  {
    var rs := inst.requirements;
    FileSound(rs);
    var d := File(rs[1..]);
    ChangeKeepsOthers(d, sels, sources, remove, Touched(d, sels, sources, remove));
    var changed := Change(d, sels, sources, remove).value;
    SoundIsWellNamed(rs[0], changed);
    assert ([rs[0]] + Values(changed))[1..] == Values(changed);
  }

  /** The request of a change is the changed dictionary. */
  lemma PlannedIsChanged(inst: Installation, sels: seq<Selection>, sources: Sources, remove: bool)
    requires Planned(inst, sels, sources, remove).Ok?
    ensures Recorded(inst).Ok? && Sound(File(inst.requirements[1..]))
    ensures var d := File(inst.requirements[1..]);
      && Change(d, sels, sources, remove) == Ok(File(Planned(inst, sels, sources, remove).value.others))
      && Sound(File(Planned(inst, sels, sources, remove).value.others))
  {
    var rs := inst.requirements;
    FileSound(rs);
    var d := File(rs[1..]);
    ChangeKeepsOthers(d, sels, sources, remove, Touched(d, sels, sources, remove));
    var changed := Change(d, sels, sources, remove).value;
    SoundIsWellNamed(rs[0], changed);
    assert ([rs[0]] + Values(changed))[1..] == Values(changed);
  }

  // ----- What an install requests -------------------------------------------

  /** The source of the selection's alias, with the extras of both. */
  predicate AsSelected(sel: Selection, sources: Sources, e: Entry) {
    && sel.Selected? && sel.alias in sources
    && var source := sources[sel.alias];
       && e.key == PackageName(source) == PackageName(e.requirement)
       && e.requirement.base == source.base && e.requirement.tail == source.tail
       && Elements(e.requirement.extras) ==
          if sel.extras == [] then Elements(source.extras)
          else (Elements(source.extras) + Elements(sel.extras)) - {""}
  }

  lemma SourceAsSelected(sel: Selection, sources: Sources)
    requires SelectedSource(sel, sources).Ok?
    ensures AsSelected(sel, sources, SelectedSource(sel, sources).value)
  {
  }

  predicate Resolves(sels: seq<Selection>, sources: Sources) {
    forall i :: 0 <= i < |sels| ==> SelectedSource(sels[i], sources).Ok?
  }

  /** What each selection asks for. */
  function Entries(sels: seq<Selection>, sources: Sources): seq<Entry>
    requires Resolves(sels, sources)
  {
    seq(|sels|, i requires 0 <= i < |sels| => SelectedSource(sels[i], sources).value)
  }

  function PutAll(d: Dict, es: seq<Entry>): Dict {
    if es == [] then d else Put(PutAll(d, es[..|es| - 1]), es[|es| - 1].key, es[|es| - 1].requirement)
  }

  lemma {:induction false} PutAllUnique(d: Dict, es: seq<Entry>)
    requires Unique(d)
    ensures Unique(PutAll(d, es))
  {
    if es != [] {
      var n := |es| - 1;
      PutAllUnique(d, es[..n]);
      PutUnique(PutAll(d, es[..n]), es[n].key, es[n].requirement);
    }
  }

  /** No later entry has the same key. */
  predicate LastOfItsKey(es: seq<Entry>, i: nat)
    requires i < |es|
  {
    forall j :: i < j < |es| ==> es[j].key != es[i].key
  }

  lemma {:induction false} PutAllLast(d: Dict, es: seq<Entry>, i: nat)
    requires Unique(d) && i < |es| && LastOfItsKey(es, i)
    ensures es[i] in PutAll(d, es)
  {
    var n := |es| - 1;
    PutAllUnique(d, es[..n]);
    PutMembers(PutAll(d, es[..n]), es[n].key, es[n].requirement, es[i]);
    if i < n {
      PutAllLast(d, es[..n], i);
    }
  }

  lemma InstallStep(d: Dict, sels: seq<Selection>, sources: Sources)
    requires sels != [] && Change(d, sels, sources, false).Ok?
    ensures var n := |sels| - 1;
      && Change(d, sels[..n], sources, false).Ok?
      && SelectedSource(sels[n], sources).Ok?
      && var front, last := Change(d, sels[..n], sources, false).value, SelectedSource(sels[n], sources).value;
         && Change(d, sels, sources, false).value == Put(front, last.key, last.requirement)
         && Touched(d, sels, sources, false) == Touched(d, sels[..n], sources, false) + {last.key}
  {
  }

  lemma EntriesNext(sels: seq<Selection>, sources: Sources)
    requires sels != [] && Resolves(sels[..|sels| - 1], sources) && SelectedSource(sels[|sels| - 1], sources).Ok?
    ensures Resolves(sels, sources)
    ensures var n := |sels| - 1;
      && Entries(sels, sources)[..n] == Entries(sels[..n], sources)
      && Entries(sels, sources)[n] == SelectedSource(sels[n], sources).value
  {
    var n := |sels| - 1;
    assert forall i :: 0 <= i < n ==> sels[..n][i] == sels[i];
  }

  function KeySet(es: seq<Entry>): set<string> {
    set e | e in es :: e.key
  }

  lemma KeySetNext(es: seq<Entry>)
    requires es != []
    ensures KeySet(es) == KeySet(es[..|es| - 1]) + {es[|es| - 1].key}
  {
    var n := |es| - 1;
    assert forall e :: e in es <==> e in es[..n] || e == es[n];
  }

  /** A successful install puts what its selections ask for, one after the other. */
  lemma {:induction false} InstallIsPutAll(d: Dict, sels: seq<Selection>, sources: Sources)
    requires Change(d, sels, sources, false).Ok?
    ensures Resolves(sels, sources)
    ensures Change(d, sels, sources, false).value == PutAll(d, Entries(sels, sources))
    ensures Touched(d, sels, sources, false) == KeySet(Entries(sels, sources))
  {
    if sels != [] {
      var n := |sels| - 1;
      InstallStep(d, sels, sources);
      InstallIsPutAll(d, sels[..n], sources);
      EntriesNext(sels, sources);
      KeySetNext(Entries(sels, sources));
    }
  }

  /**
   * Every selection of an accepted install resolves; the last one for a package is
   * what the request asks for; and no other package is touched.
   */
  lemma InstallRequests(inst: Installation, sels: seq<Selection>, sources: Sources)
    requires Planned(inst, sels, sources, false).Ok?
    ensures Resolves(sels, sources)
    ensures var now, es := File(Planned(inst, sels, sources, false).value.others), Entries(sels, sources);
      && (forall i :: 0 <= i < |sels| ==> AsSelected(sels[i], sources, es[i]))
      && (forall i :: 0 <= i < |sels| && LastOfItsKey(es, i) ==> es[i] in now)
      && Touched(File(inst.requirements[1..]), sels, sources, false) == KeySet(es)
  {
    var d := File(inst.requirements[1..]);
    PlannedIsChanged(inst, sels, sources, false);
    InstallIsPutAll(d, sels, sources);
    var es := Entries(sels, sources);
    forall i | 0 <= i < |sels|
      ensures AsSelected(sels[i], sources, es[i])
      ensures LastOfItsKey(es, i) ==> es[i] in PutAll(d, es)
    {
      SourceAsSelected(sels[i], sources);
      if LastOfItsKey(es, i) {
        PutAllLast(d, es, i);
      }
    }
  }

  // ----- What a removal requests --------------------------------------------

  lemma {:induction false} RemovedKeys(d: Dict, sels: seq<Selection>, sources: Sources, k: string)
    requires Sound(d) && Change(d, sels, sources, true).Ok?
    ensures Has(Change(d, sels, sources, true).value, k) <==> Has(d, k) && k !in Touched(d, sels, sources, true)
    ensures k in Touched(d, sels, sources, true) ==> Has(d, k)
  {
    if sels != [] {
      var n := |sels| - 1;
      RemovedKeys(d, sels[..n], sources, k);
      var front := Change(d, sels[..n], sources, true).value;
      ChangeKeepsOthers(d, sels[..n], sources, true, Touched(d, sels[..n], sources, true));
      DeleteKeys(front, Resolve(front, sels[n], sources, true).value.key, k);
    }
  }

  /** An accepted removal removes only what was there, and leaves exactly the rest, in order. */
  lemma RemovalRequests(inst: Installation, sels: seq<Selection>, sources: Sources)
    requires Planned(inst, sels, sources, true).Ok?
    ensures var d := File(inst.requirements[1..]);
      var touched := Touched(d, sels, sources, true);
      && (forall k :: k in touched ==> Has(d, k))
      && File(Planned(inst, sels, sources, true).value.others) == Untouched(d, touched)
  {
    var d := File(inst.requirements[1..]);
    var touched := Touched(d, sels, sources, true);
    PlannedIsChanged(inst, sels, sources, true);
    var now := Change(d, sels, sources, true).value;
    forall k
      ensures Has(now, k) <==> Has(d, k) && k !in touched
      ensures k in touched ==> Has(d, k)
    {
      RemovedKeys(d, sels, sources, k);
    }
    ChangeKeepsOthers(d, sels, sources, true, touched);
    forall i | 0 <= i < |now|
      ensures now[i].key !in touched
    {
      assert Has(now, now[i].key);
    }
    UntouchedWhole(now, touched);
  }

  // ----- Install, then remove -----------------------------------------------

  lemma ChangeSingle(d: Dict, sel: Selection, sources: Sources, remove: bool)
    ensures Change(d, [sel], sources, remove) == ChangeOne(d, sel, sources, remove)
  {
    assert [sel][..0] == [];
    assert Change(d, [], sources, remove) == Ok(d);
  }

  /** Removing what was just installed, on dictionaries. */
  lemma RemoveAfterPut(d: Dict, sel: Selection, sources: Sources)
    requires Sound(d) && SelectedSource(sel, sources).Ok?
    ensures var entry := SelectedSource(sel, sources).value;
      ChangeOne(Put(d, entry.key, entry.requirement), sel, sources, true) == Ok(d)
      <==> !Has(d, entry.key) && !NamesPackage(d, sel)
  {
    var entry := SelectedSource(sel, sources).value;
    var grown := Put(d, entry.key, entry.requirement);
    var p := Normalize(sel.alias);
    PutKeys(d, entry.key, entry.requirement, p);
    PutKeys(d, entry.key, entry.requirement, entry.key);
    PutUnique(d, entry.key, entry.requirement);
    var removed := if NamesPackage(grown, sel) then p else entry.key;
    DeleteKeys(grown, removed, removed);
    if !Has(d, entry.key) && !NamesPackage(d, sel) {
      PutDelete(d, entry.key, entry.requirement);
    } else {
      assert Has(d, removed);
    }
  }

  lemma PlannedInstall(inst: Installation, sel: Selection, sources: Sources)
    requires Recorded(inst).Ok? && SelectedSource(sel, sources).Ok?
    ensures var rs, entry := inst.requirements, SelectedSource(sel, sources).value;
      var grown := Put(File(rs[1..]), entry.key, entry.requirement);
      && Planned(inst, [sel], sources, false) == Ok(Request(rs[0], Values(grown)))
      && Sound(grown) && Sound(File(rs[1..])) && WellNamed([rs[0]] + Values(grown)) && File(Values(grown)) == grown
  {
    var rs, entry := inst.requirements, SelectedSource(sel, sources).value;
    var d := File(rs[1..]);
    FileSound(rs);
    ChangeSingle(d, sel, sources, false);
    var grown := Put(d, entry.key, entry.requirement);
    ChangeOneSound(d, sel, sources, false);
    SoundIsWellNamed(rs[0], grown);
    assert ([rs[0]] + Values(grown))[1..] == Values(grown);
  }

  /**
   * Installing by a selection and then removing by the same selection restores
   * the recorded requirements if and only if the package was not there before and
   * the alias, read as a package name, is not itself an installed package.
   */
  lemma InstallThenRemove(inst: Installation, sel: Selection, sources: Sources)
    requires Recorded(inst).Ok? && SelectedSource(sel, sources).Ok?
    ensures Planned(inst, [sel], sources, false).Ok?
    ensures var d := File(inst.requirements[1..]);
      var installed := Installation(Planned(inst, [sel], sources, false).value.All(), true);
      Planned(installed, [sel], sources, true) == Ok(Request(inst.requirements[0], inst.requirements[1..]))
      <==> !Has(d, SelectedSource(sel, sources).value.key) && !NamesPackage(d, sel)
  {
    var rs, entry := inst.requirements, SelectedSource(sel, sources).value;
    var d := File(rs[1..]);
    PlannedInstall(inst, sel, sources);
    var grown := Put(d, entry.key, entry.requirement);
    RemoveInstalled(Installation([rs[0]] + Values(grown), true), rs, d, grown, sel, sources);
  }

  lemma RemoveInstalled(
    installed: Installation, rs: seq<Requirement>, d: Dict, grown: Dict, sel: Selection, sources: Sources)
    requires SelectedSource(sel, sources).Ok? && WellNamed(rs) && d == File(rs[1..]) && Sound(grown)
    requires grown == Put(d, SelectedSource(sel, sources).value.key, SelectedSource(sel, sources).value.requirement)
    requires installed.replayable && installed.requirements == [rs[0]] + Values(grown)
    requires WellNamed(installed.requirements)
    requires File(Values(grown)) == grown
    ensures Planned(installed, [sel], sources, true) == Ok(Request(rs[0], rs[1..]))
       <==> !Has(d, SelectedSource(sel, sources).value.key) && !NamesPackage(d, sel)
  {
    FileSound(rs);
    RemoveAfterPut(d, sel, sources);
    ChangeSingle(grown, sel, sources, true);
    assert installed.requirements[1..] == Values(grown);
    var after := ChangeOne(grown, sel, sources, true);
    if after.Ok? {
      ChangeOneSound(grown, sel, sources, true);
      SoundIsWellNamed(rs[0], after.value);
      var all := [rs[0]] + Values(after.value);
      assert all[1..] == Values(after.value);
      if Values(after.value) == rs[1..] {
        assert after.value == File(Values(after.value)) == d;
      }
    }
  }

  lemma SourceIsNormal(sel: Selection, sources: Sources)
    requires SelectedSource(sel, sources).Ok?
    ensures var k := SelectedSource(sel, sources).value.key; Normalize(k) == k && k != CORE
  {
    NormalizeIdempotent(sources[sel.alias].base);
  }

  /**
   * Removing by distribution name instead of by alias: it always finds the
   * package that was installed, and restores the record if and only if the
   * package is new.
   */
  lemma InstallThenRemoveByName(inst: Installation, sel: Selection, sources: Sources)
    requires Recorded(inst).Ok? && SelectedSource(sel, sources).Ok?
    ensures Planned(inst, [sel], sources, false).Ok?
    ensures var k := SelectedSource(sel, sources).value.key;
      var installed := Installation(Planned(inst, [sel], sources, false).value.All(), true);
      var removed := Planned(installed, [Selected(k, [])], sources, true);
      && removed.Ok?
      && (removed.value.All() == inst.requirements <==> !Has(File(inst.requirements[1..]), k))
  {
    var rs, entry := inst.requirements, SelectedSource(sel, sources).value;
    var d, k := File(rs[1..]), entry.key;
    PlannedInstall(inst, sel, sources);
    SourceIsNormal(sel, sources);
    FileSound(rs);
    var grown := Put(d, k, entry.requirement);
    var installed := Installation([rs[0]] + Values(grown), true);
    assert installed.requirements[1..] == Values(grown);
    RemoveNamed(installed, rs, d, grown, entry, sources);
  }

  lemma RemoveNamed(
    installed: Installation, rs: seq<Requirement>, d: Dict, grown: Dict, entry: Entry, sources: Sources)
    requires WellNamed(rs) && d == File(rs[1..]) && Values(d) == rs[1..] && Sound(d) && Sound(grown)
    requires grown == Put(d, entry.key, entry.requirement) && File(Values(grown)) == grown
    requires Normalize(entry.key) == entry.key && entry.key != CORE
    requires installed.replayable && installed.requirements == [rs[0]] + Values(grown)
    requires WellNamed(installed.requirements)
    ensures var removed := Planned(installed, [Selected(entry.key, [])], sources, true);
      removed.Ok? && (removed.value.All() == rs <==> !Has(d, entry.key))
  {
    var sel, k := Selected(entry.key, []), entry.key;
    PutKeys(d, k, entry.requirement, k);
    ChangeSingle(grown, sel, sources, true);
    assert installed.requirements[1..] == Values(grown);
    var after := Delete(grown, k);
    assert ChangeOne(grown, sel, sources, true) == Ok(after);
    ChangeOneSound(grown, sel, sources, true);
    SoundIsWellNamed(rs[0], after);
    assert ([rs[0]] + Values(after))[1..] == Values(after);
    assert rs == [rs[0]] + rs[1..];
    if Has(d, k) {
      DeleteKeys(grown, k, k);
      assert after != d && File(Values(after)) == after && File(Values(d)) == d;
    } else {
      PutDelete(d, k, entry.requirement);
    }
  }

  /**
   * An alias that is also the name of another installed package: installing `a`
   * adds package `b`, and removing `a` takes the wrong one away.
   */
  lemma AliasNamesAnother()
    ensures var core, a, b := Requirement(CORE, [], ""), Requirement("a", [], ""), Requirement("b", [], "");
      var inst, sel, sources := Installation([core, a], true), Selected("a", []), map["a" := b];
      && Recorded(inst).Ok? && SelectedSource(sel, sources) == Ok(Entry("b", b))
      && !Has(File(inst.requirements[1..]), "b")
      && Planned(inst, [sel], sources, false).Ok?
      && Planned(Installation(Planned(inst, [sel], sources, false).value.All(), true), [sel], sources, true)
         != Ok(Request(core, [a]))
  {
    var core, a, b := Requirement(CORE, [], ""), Requirement("a", [], ""), Requirement("b", [], "");
    var inst, sel, sources := Installation([core, a], true), Selected("a", []), map["a" := b];
    LetterNames();
    assert Names(inst.requirements) == [CORE, "a"] && |CORE| != |"a"|;
    assert inst.requirements[1..] == [a] && File([a]) == [Entry("a", a)];
    assert File([a])[0].key == "a" && "a"[0] != "b"[0];
    InstallThenRemove(inst, sel, sources);
  }

  lemma LetterNames()
    ensures Normalize("a") == "a" && Normalize("b") == "b" && Normalize(CORE) == CORE
  {
    NormalizeLetter("a");
    NormalizeLetter("b");
    NormalizeCore();
  }

  lemma NormalizeLetter(s: string)
    requires |s| == 1 && 'a' <= s[0] <= 'z'
    ensures Normalize(s) == s
  {
    assert Normalize(s[1..]) == "";
  }

  lemma NormalizeCore()
    ensures Normalize(CORE) == CORE
  {
    assert CORE[1..] == "edre" && "edre"[1..] == "dre" && "dre"[1..] == "re" && "re"[1..] == "e" && "e"[1..] == "";
    assert Normalize("e") == "e";
    assert Normalize("re") == "re";
    assert Normalize("dre") == "dre";
    assert Normalize("edre") == "edre";
  }
}
