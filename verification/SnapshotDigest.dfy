/**
 * Recording a source snapshot and re-checking it later. The recorder walks the
 * files Git tracks; the re-checker walks the staged copy in path order and also
 * compares every file with the running image. The hash is any function on bytes.
 */
module SnapshotDigest {
  import opened Framing
  import opened Ordering
  import opened Counting
  import opened Results

  // ----- Recording ----------------------------------------------------------

  /** What a tracked name turns out to be in the worktree. */
  datatype Source = Regular(content: Bytes, mode: nat) | Unsafe | Absent

  type Checkout = map<Bytes, Source>

  /** `staged` is the copy written beside the build: content and mode by path. */
  datatype Snapshot = Snapshot(input: Bytes, files: nat, staged: map<Bytes, (Bytes, nat)>)

  predicate Readable(checkout: Checkout, name: Bytes) {
    && name in checkout
    && checkout[name].Regular?
    && |name| < LENGTH_LIMIT
    && |checkout[name].content| < LENGTH_LIMIT
  }

  predicate AllReadable(checkout: Checkout, listing: seq<Bytes>) {
    forall i :: 0 <= i < |listing| && listing[i] != [] ==> Readable(checkout, listing[i])
  }

  function Tracked(checkout: Checkout, name: Bytes): (m: Material)
    requires Readable(checkout, name)
    ensures Encodable(m)
  {
    Material(name, checkout[name].content, ExecBits(checkout[name].mode))
  }

  /** The listing ends in a NUL, so splitting it leaves an empty name behind. */
  function Materials(checkout: Checkout, listing: seq<Bytes>): (ms: seq<Material>)
    requires AllReadable(checkout, listing)
    ensures AllEncodable(ms)
  {
    if listing == [] then []
    else
      var n := |listing| - 1;
      var front := Materials(checkout, listing[..n]);
      if listing[n] == [] then front else front + [Tracked(checkout, listing[n])]
  }

  lemma MaterialsStep(checkout: Checkout, listing: seq<Bytes>, i: nat)
    requires i < |listing| && AllReadable(checkout, listing[..i])
    requires listing[i] != [] ==> Readable(checkout, listing[i])
    ensures AllReadable(checkout, listing[..i + 1])
    ensures listing[i] == [] ==> Materials(checkout, listing[..i + 1]) == Materials(checkout, listing[..i])
    ensures listing[i] != [] ==>
              var front := Materials(checkout, listing[..i]);
              Materials(checkout, listing[..i + 1]) == front + [Tracked(checkout, listing[i])]
  {
    assert listing[..i + 1][..i] == listing[..i];
    assert forall k :: 0 <= k < i ==> listing[..i + 1][k] == listing[..i][k];
  }

  /** The staged copy holds the first `n` listed files, with their worktree content and mode, and no others. */
  predicate CopiedTo(staged: map<Bytes, (Bytes, nat)>, checkout: Checkout, listing: seq<Bytes>, n: nat)
    requires n <= |listing|
  {
    && (forall p :: p in staged ==> p in listing[..n] && p != [])
    && (forall k :: 0 <= k < n && listing[k] != [] && Readable(checkout, listing[k]) ==>
                      && listing[k] in staged
                      && staged[listing[k]] == (checkout[listing[k]].content, checkout[listing[k]].mode))
  }

  lemma CopyStep(staged: map<Bytes, (Bytes, nat)>, checkout: Checkout, listing: seq<Bytes>, i: nat)
    requires i < |listing| && CopiedTo(staged, checkout, listing, i)
    ensures listing[i] == [] ==> CopiedTo(staged, checkout, listing, i + 1)
    ensures listing[i] != [] && Readable(checkout, listing[i]) ==>
              var copy := (checkout[listing[i]].content, checkout[listing[i]].mode);
              CopiedTo(staged[listing[i] := copy], checkout, listing, i + 1)
  {
    assert listing[..i + 1] == listing[..i] + [listing[i]];
  }

  method TakeSnapshot(listing: seq<Bytes>, checkout: Checkout, dirty: bool, allowDirty: bool, stable: bool)
    returns (r: Result<Snapshot, string>)
    ensures r.Ok? <==> (dirty ==> allowDirty) && stable && AllReadable(checkout, listing)
    ensures r.Ok? ==> r.value.input == Stream(Materials(checkout, listing))
    ensures r.Ok? ==> r.value.files == |Materials(checkout, listing)|
    ensures r.Ok? ==> CopiedTo(r.value.staged, checkout, listing, |listing|)
  {
    if dirty && !allowDirty {
      return Err("Commit source changes or explicitly use --allow-dirty");
    }
    var input: Bytes, count: nat, staged: map<Bytes, (Bytes, nat)> := [], 0, map[];
    for i := 0 to |listing|
      invariant AllReadable(checkout, listing[..i])
      invariant input == Stream(Materials(checkout, listing[..i]))
      invariant count == |Materials(checkout, listing[..i])|
      invariant CopiedTo(staged, checkout, listing, i)
    {
      var name := listing[i];
      CopyStep(staged, checkout, listing, i);
      if name != [] {
        if name !in checkout || !checkout[name].Regular? {
          return Err("Build snapshots require complete tracked files");
        }
        var content, mode := checkout[name].content, checkout[name].mode;
        staged := staged[name := (content, mode)];
        if LENGTH_LIMIT <= |name| || LENGTH_LIMIT <= |content| {
          return Err("int too big to convert");
        }
        StreamAppend(Materials(checkout, listing[..i]), Tracked(checkout, name));
        input := input + (Framed(name) + Framed(content) + Width2(ExecBits(mode)));
        count := count + 1;
      }
      MaterialsStep(checkout, listing, i);
    }
    assert listing[..|listing|] == listing;
    if !stable {
      return Err("Source checkout changed during snapshot; retry in a fresh directory");
    }
    r := Ok(Snapshot(input, count, staged));
  }

  // ----- Re-checking --------------------------------------------------------

  datatype Node = File(content: Bytes, mode: nat) | Directory | Other

  datatype Entry = Entry(path: Bytes, node: Node)

  predicate ByPath(a: Entry, b: Entry) {
    LexLe(a.path, b.path)
  }

  /** A directory walk meets each path once. */
  predicate DistinctPaths(entries: seq<Entry>) {
    forall i, j :: 0 <= i < j < |entries| ==> entries[i].path != entries[j].path
  }

  function Covered(e: Entry): Material
    requires e.node.File?
  {
    Material(e.path, e.node.content, ExecBits(e.node.mode))
  }

  /** The digest material of the files among `entries`, in order; directories are skipped. */
  function Staged(entries: seq<Entry>): seq<Material> {
    if entries == [] then []
    else
      var n := |entries| - 1;
      Staged(entries[..n]) + (if entries[n].node.File? then [Covered(entries[n])] else [])
  }

  /** One entry passes: nothing unsafe, lengths encode, and the image holds the same bytes. */
  predicate EntryOk(e: Entry, image: map<Bytes, Bytes>) {
    match e.node
    case Directory => true
    case Other => false
    case File(content, mode) => Encodable(Covered(e)) && e.path in image && image[e.path] == content
  }

  predicate AllOk(entries: seq<Entry>, image: map<Bytes, Bytes>) {
    forall i :: 0 <= i < |entries| ==> EntryOk(entries[i], image)
  }

  lemma {:induction false} OkIsEncodable(entries: seq<Entry>, image: map<Bytes, Bytes>)
    requires AllOk(entries, image)
    ensures AllEncodable(Staged(entries))
  {
    if entries != [] {
      OkIsEncodable(entries[..|entries| - 1], image);
    }
  }

  function Walk(entries: seq<Entry>): seq<Entry> {
    Sort(ByPath, entries)
  }

  ghost predicate Accepts(
    entries: seq<Entry>, image: map<Bytes, Bytes>, files: int, digest: string, hash: Bytes -> string)
  {
    && 1 <= files
    && AllOk(Walk(entries), image)
    && |Staged(Walk(entries))| == files
    && AllEncodable(Staged(Walk(entries)))
    && hash(Stream(Staged(Walk(entries)))) == digest
  }

  lemma StagedStep(walk: seq<Entry>, i: nat)
    requires i < |walk|
    ensures walk[i].node.File? ==> Staged(walk[..i + 1]) == Staged(walk[..i]) + [Covered(walk[i])]
    ensures !walk[i].node.File? ==> Staged(walk[..i + 1]) == Staged(walk[..i])
    ensures forall image :: AllOk(walk[..i + 1], image) <==> AllOk(walk[..i], image) && EntryOk(walk[i], image)
  {
    assert walk[..i + 1] == walk[..i] + [walk[i]];
  }

  lemma OneBadEntry(walk: seq<Entry>, image: map<Bytes, Bytes>, i: nat)
    requires i < |walk| && !EntryOk(walk[i], image)
    ensures !AllOk(walk, image)
  {
  }

  method VerifyMaterial(
    entries: seq<Entry>, image: map<Bytes, Bytes>, files: int, digest: string, hash: Bytes -> string)
    returns (ok: bool)
    ensures ok <==> Accepts(entries, image, files, digest, hash)
  {
    if files < 1 {
      return false;
    }
    var walk := Walk(entries);
    var input: Bytes, total := [], 0;
    for i := 0 to |walk|
      invariant AllOk(walk[..i], image)
      invariant AllEncodable(Staged(walk[..i]))
      invariant input == Stream(Staged(walk[..i]))
      invariant total == |Staged(walk[..i])|
    {
      var e := walk[i];
      StagedStep(walk, i);
      if e.node.Other? {
        OneBadEntry(walk, image, i);
        return false;
      }
      if e.node.File? {
        var content, exec := e.node.content, ExecBits(e.node.mode);
        if LENGTH_LIMIT <= |e.path| || LENGTH_LIMIT <= |content| {
          OneBadEntry(walk, image, i);
          return false;
        }
        StreamAppend(Staged(walk[..i]), Covered(e));
        input := input + (Framed(e.path) + Framed(content) + Width2(exec));
        if e.path !in image || image[e.path] != content {
          OneBadEntry(walk, image, i);
          return false;
        }
        total := total + 1;
      }
    }
    assert walk[..|walk|] == walk;
    ok := total == files && hash(input) == digest;
  }

  // ----- Order --------------------------------------------------------------

  predicate PathSorted(ms: seq<Material>) {
    forall i, j :: 0 <= i < j < |ms| ==> LexLe(ms[i].path, ms[j].path) && ms[i].path != ms[j].path
  }

  function FilesOf(entries: seq<Entry>): set<Material> {
    set e | e in entries && e.node.File? :: Covered(e)
  }

  lemma WalkOrder()
    ensures TotalPreorder(ByPath)
  {
    forall a: Entry, b: Entry
      ensures ByPath(a, b) || ByPath(b, a)
    {
      LexTotal(a.path, b.path);
    }
    forall a: Entry, b: Entry, c: Entry | ByPath(a, b) && ByPath(b, c)
      ensures ByPath(a, c)
    {
      LexTrans(a.path, b.path, c.path);
    }
  }

  /** The walk visits the same entries, in strictly increasing path order. */
  lemma WalkSorted(entries: seq<Entry>)
    requires DistinctPaths(entries)
    ensures SortedBy(ByPath, Walk(entries)) && DistinctPaths(Walk(entries))
    ensures forall e :: e in Walk(entries) <==> e in entries
  {
    WalkOrder();
    SortSorts(ByPath, entries);
    SortPermutes(ByPath, entries);
    SameMembers(Walk(entries), entries);
    PathsStayDistinct(entries, Walk(entries));
  }

  lemma PathsStayDistinct(a: seq<Entry>, b: seq<Entry>)
    requires DistinctPaths(a) && multiset(a) == multiset(b)
    ensures DistinctPaths(b)
  {
    forall i, j | 0 <= i < j < |b|
      ensures b[i].path != b[j].path
    {
      if b[i] == b[j] {
        Twice(b, i, j);
        OnlyOnce(a, b[i]);
      } else {
        SameMembers(a, b);
        assert b[i] in a && b[j] in a;
      }
    }
  }

  lemma {:induction false} OnlyOnce(entries: seq<Entry>, e: Entry)
    requires DistinctPaths(entries)
    ensures multiset(entries)[e] <= 1
  {
    if entries != [] {
      var n := |entries| - 1;
      OnlyOnce(entries[..n], e);
      assert entries == entries[..n] + [entries[n]];
      assert multiset(entries) == multiset(entries[..n]) + multiset([entries[n]]);
      if e == entries[n] {
        assert e !in entries[..n];
      }
    }
  }

  lemma {:induction false} StagedElements(entries: seq<Entry>)
    ensures Elements(Staged(entries)) == FilesOf(entries)
  {
    if entries != [] {
      var n := |entries| - 1;
      StagedElements(entries[..n]);
      assert entries == entries[..n] + [entries[n]];
      assert FilesOf(entries) == FilesOf(entries[..n]) + FilesOf([entries[n]]);
      if entries[n].node.File? {
        assert FilesOf([entries[n]]) == {Covered(entries[n])};
      }
    }
  }

  predicate AllBefore(ms: seq<Material>, path: Bytes) {
    forall i :: 0 <= i < |ms| ==> LexLe(ms[i].path, path) && ms[i].path != path
  }

  lemma PathSortedAppend(front: seq<Material>, m: Material)
    requires PathSorted(front) && AllBefore(front, m.path)
    ensures PathSorted(front + [m])
  {
  }

  lemma StagedBefore(entries: seq<Entry>, last: Entry)
    requires forall i :: 0 <= i < |entries| ==> ByPath(entries[i], last) && entries[i].path != last.path
    ensures AllBefore(Staged(entries), last.path)
  {
    var ms := Staged(entries);
    StagedElements(entries);
    forall i | 0 <= i < |ms|
      ensures LexLe(ms[i].path, last.path) && ms[i].path != last.path
    {
      assert ms[i] in Elements(ms);
      var e :| e in entries && e.node.File? && Covered(e) == ms[i];
    }
  }

  lemma {:induction false} StagedSorted(entries: seq<Entry>)
    requires SortedBy(ByPath, entries) && DistinctPaths(entries)
    ensures PathSorted(Staged(entries))
  {
    if entries != [] {
      var n := |entries| - 1;
      StagedSorted(entries[..n]);
      StagedBefore(entries[..n], entries[n]);
      if entries[n].node.File? {
        PathSortedAppend(Staged(entries[..n]), Covered(entries[n]));
      }
    }
  }

  /** Path-sorted lists with the same members are the same list. */
  lemma {:induction false} PathSortedUnique(a: seq<Material>, b: seq<Material>)
    requires PathSorted(a) && PathSorted(b) && Elements(a) == Elements(b)
    ensures a == b
  {
    assert (a != [] ==> a[0] in Elements(a)) && (b != [] ==> b[0] in Elements(b));
    if a != [] {
      assert a[0] in Elements(b) && b[0] in Elements(a);
      if a[0].path != b[0].path {
        LexAntisym(a[0].path, b[0].path);
      }
      forall x
        ensures x in Elements(a[1..]) <==> x in Elements(b[1..])
      {
        assert x in Elements(a) <==> x == a[0] || x in a[1..];
        assert x in Elements(b) <==> x == b[0] || x in b[1..];
      }
      PathSortedUnique(a[1..], b[1..]);
    }
  }

  // ----- Results ------------------------------------------------------------

  /** Recorder and re-checker feed the hash the same bytes exactly when the same files are present. */
  lemma SameInputSameFiles(recorded: seq<Material>, entries: seq<Entry>)
    requires AllEncodable(recorded) && PathSorted(recorded)
    requires DistinctPaths(entries) && AllEncodable(Staged(Walk(entries)))
    ensures Stream(recorded) == Stream(Staged(Walk(entries))) <==> Elements(recorded) == FilesOf(entries)
  {
    WalkSorted(entries);
    var walk := Walk(entries);
    StagedElements(walk);
    StagedSorted(walk);
    assert FilesOf(walk) == FilesOf(entries);
    StreamInjective(recorded, Staged(walk));
    if Elements(recorded) == FilesOf(entries) {
      PathSortedUnique(recorded, Staged(walk));
    }
  }

  /**
   * What acceptance proves: the staged tree holds exactly the recorded files,
   * with the same bytes and executable bits, and the image holds those bytes —
   * or else the two digest inputs are a collision of the hash.
   */
  lemma AcceptedIsIdentical(
    recorded: seq<Material>, entries: seq<Entry>, image: map<Bytes, Bytes>, hash: Bytes -> string)
    requires AllEncodable(recorded) && PathSorted(recorded) && DistinctPaths(entries)
    requires Accepts(entries, image, |recorded|, hash(Stream(recorded)), hash)
    ensures
      || (&& FilesOf(entries) == Elements(recorded)
          && forall m :: m in recorded ==> m.path in image && image[m.path] == m.content)
      || (var other := Stream(Staged(Walk(entries)));
          other != Stream(recorded) && hash(other) == hash(Stream(recorded)))
  {
    SameInputSameFiles(recorded, entries);
    if FilesOf(entries) == Elements(recorded) {
      WalkSorted(entries);
      forall m | m in recorded
        ensures m.path in image && image[m.path] == m.content
      {
        assert m in FilesOf(entries);
        var e :| e in entries && e.node.File? && Covered(e) == m;
        assert e in Walk(entries);
        assert EntryOk(e, image);
      }
    }
  }

  lemma EntryPasses(e: Entry, recorded: seq<Material>, files: set<Material>, image: map<Bytes, Bytes>)
    requires AllEncodable(recorded) && !e.node.Other? && files == Elements(recorded)
    requires e.node.File? ==> Covered(e) in files
    requires forall m :: m in recorded ==> m.path in image && image[m.path] == m.content
    ensures EntryOk(e, image)
  {
    if e.node.File? {
      assert Covered(e) in recorded;
    }
  }

  /** An untouched staged copy whose files the image also holds is always accepted. */
  lemma IdenticalIsAccepted(
    recorded: seq<Material>, entries: seq<Entry>, image: map<Bytes, Bytes>, hash: Bytes -> string)
    requires AllEncodable(recorded) && PathSorted(recorded) && DistinctPaths(entries) && recorded != []
    requires FilesOf(entries) == Elements(recorded)
    requires forall e :: e in entries ==> !e.node.Other?
    requires forall m :: m in recorded ==> m.path in image && image[m.path] == m.content
    ensures Accepts(entries, image, |recorded|, hash(Stream(recorded)), hash)
  {
    var walk := Walk(entries);
    WalkSorted(entries);
    forall i | 0 <= i < |walk|
      ensures EntryOk(walk[i], image)
    {
      assert walk[i] in entries;
      EntryPasses(walk[i], recorded, FilesOf(entries), image);
    }
    WalkGivesRecorded(recorded, entries);
  }

  lemma WalkGivesRecorded(recorded: seq<Material>, entries: seq<Entry>)
    requires PathSorted(recorded) && DistinctPaths(entries) && FilesOf(entries) == Elements(recorded)
    ensures Staged(Walk(entries)) == recorded
  {
    var walk := Walk(entries);
    WalkSorted(entries);
    StagedElements(walk);
    StagedSorted(walk);
    assert FilesOf(walk) == FilesOf(entries);
    PathSortedUnique(recorded, Staged(walk));
  }

  /** `git ls-files -z`: byte order, no repeats; splitting leaves empty names behind. */
  predicate GitOrder(listing: seq<Bytes>) {
    forall i, j :: 0 <= i < j < |listing| && listing[i] != [] && listing[j] != [] ==>
                     LexLe(listing[i], listing[j]) && listing[i] != listing[j]
  }

  lemma {:induction false} MaterialsBefore(checkout: Checkout, listing: seq<Bytes>, last: Bytes)
    requires AllReadable(checkout, listing)
    requires forall i :: 0 <= i < |listing| && listing[i] != [] ==> LexLe(listing[i], last) && listing[i] != last
    ensures AllBefore(Materials(checkout, listing), last)
  {
    if listing != [] {
      MaterialsBefore(checkout, listing[..|listing| - 1], last);
    }
  }

  /** Git lists names in byte order without repeats, so the recorded list is path-sorted. */
  lemma {:induction false} ListingSorted(checkout: Checkout, listing: seq<Bytes>)
    requires AllReadable(checkout, listing) && GitOrder(listing)
    ensures PathSorted(Materials(checkout, listing))
  {
    if listing != [] {
      var n := |listing| - 1;
      ListingSorted(checkout, listing[..n]);
      if listing[n] != [] {
        MaterialsBefore(checkout, listing[..n], listing[n]);
        PathSortedAppend(Materials(checkout, listing[..n]), Tracked(checkout, listing[n]));
      }
    }
  }

  /** A snapshot of a Git listing that verifies later is still that checkout, unless the hash collides. */
  lemma VerifiedIsTheCheckout(
    checkout: Checkout, listing: seq<Bytes>, entries: seq<Entry>, image: map<Bytes, Bytes>, hash: Bytes -> string)
    requires AllReadable(checkout, listing) && GitOrder(listing) && DistinctPaths(entries)
    requires var ms := Materials(checkout, listing); Accepts(entries, image, |ms|, hash(Stream(ms)), hash)
    ensures var input, again := Stream(Materials(checkout, listing)), Stream(Staged(Walk(entries)));
      FilesOf(entries) == Elements(Materials(checkout, listing)) || (input != again && hash(input) == hash(again))
  {
    ListingSorted(checkout, listing);
    AcceptedIsIdentical(Materials(checkout, listing), entries, image, hash);
  }

  lemma {:induction false} MaterialsMembers(checkout: Checkout, listing: seq<Bytes>, m: Material)
    requires AllReadable(checkout, listing)
    ensures m in Materials(checkout, listing) <==>
            m.path in listing && m.path != [] && Readable(checkout, m.path) && m == Tracked(checkout, m.path)
  {
    if listing != [] {
      var n := |listing| - 1;
      MaterialsMembers(checkout, listing[..n], m);
      assert m.path in listing <==> m.path in listing[..n] || m.path == listing[n];
    }
  }

  /** The staged directory holds exactly the copied files, with the copied content and mode. */
  ghost predicate HoldsCopy(entries: seq<Entry>, staged: map<Bytes, (Bytes, nat)>) {
    forall e: Entry :: e.node.File? ==>
                         (e in entries <==> e.path in staged && staged[e.path] == (e.node.content, e.node.mode))
  }

  lemma CopyAt(staged: map<Bytes, (Bytes, nat)>, checkout: Checkout, listing: seq<Bytes>, p: Bytes)
    requires AllReadable(checkout, listing) && CopiedTo(staged, checkout, listing, |listing|)
    ensures p in staged <==> p in listing && p != []
    ensures p in staged ==> Readable(checkout, p) && staged[p] == (checkout[p].content, checkout[p].mode)
  {
    assert listing[..|listing|] == listing;
  }

  lemma CopyIsRecorded(
    staged: map<Bytes, (Bytes, nat)>, checkout: Checkout, listing: seq<Bytes>, entries: seq<Entry>)
    requires AllReadable(checkout, listing) && CopiedTo(staged, checkout, listing, |listing|)
    requires HoldsCopy(entries, staged)
    ensures FilesOf(entries) == Elements(Materials(checkout, listing))
  {
    forall m
      ensures m in FilesOf(entries) <==> m in Elements(Materials(checkout, listing))
    {
      CopyAt(staged, checkout, listing, m.path);
      MaterialsMembers(checkout, listing, m);
      if m in FilesOf(entries) {
        var e :| e in entries && e.node.File? && Covered(e) == m;
      }
      if m.path in staged {
        var e := Entry(m.path, File(staged[m.path].0, staged[m.path].1));
        assert e in entries;
      }
    }
  }

  /**
   * From recording to re-checking: the copy that a snapshot of a Git listing
   * staged, found again unchanged and also in the image, is accepted.
   */
  lemma SnapshotIsAccepted(
    checkout: Checkout, listing: seq<Bytes>, staged: map<Bytes, (Bytes, nat)>, entries: seq<Entry>,
    image: map<Bytes, Bytes>, hash: Bytes -> string)
    requires AllReadable(checkout, listing) && GitOrder(listing) && Materials(checkout, listing) != []
    requires CopiedTo(staged, checkout, listing, |listing|)
    requires DistinctPaths(entries) && HoldsCopy(entries, staged) && forall e :: e in entries ==> !e.node.Other?
    requires forall p :: p in staged ==> p in image && image[p] == staged[p].0
    ensures var ms := Materials(checkout, listing); Accepts(entries, image, |ms|, hash(Stream(ms)), hash)
  {
    var ms := Materials(checkout, listing);
    ListingSorted(checkout, listing);
    CopyIsRecorded(staged, checkout, listing, entries);
    forall m | m in ms
      ensures m.path in image && image[m.path] == m.content
    {
      MaterialsMembers(checkout, listing, m);
      CopyAt(staged, checkout, listing, m.path);
    }
    IdenticalIsAccepted(ms, entries, image, hash);
  }
}
