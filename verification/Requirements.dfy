/**
 * Named requirements and the insertion-ordered dictionaries that the install
 * planner rewrites. A requirement is its written name, its extras and the rest
 * of its text; which package it asks for is the normalized name.
 */
module Requirements {
  import opened Counting
  import opened Ordering

  datatype Requirement = Requirement(base: string, extras: seq<string>, tail: string)

  // ----- Names --------------------------------------------------------------

  predicate Separator(c: char) {
    c == '-' || c == '_' || c == '.'
  }

  function Lower(c: char): char {
    if 'A' <= c <= 'Z' then c - 'A' + 'a' else c
  }

  function DropSeparators(s: string): (r: string)
    ensures |r| <= |s|
    ensures r != "" ==> !Separator(r[0])
  {
    if s != "" && Separator(s[0]) then DropSeparators(s[1..]) else s
  }

  /** Runs of separators become one dash; letters become lower case. */
  function Normalize(s: string): string
    decreases |s|
  {
    if s == "" then ""
    else if Separator(s[0]) then "-" + Normalize(DropSeparators(s))
    else [Lower(s[0])] + Normalize(s[1..])
  }

  function PackageName(r: Requirement): string {
    Normalize(r.base)
  }

  lemma {:induction false} NormalizeHead(s: string)
    requires s != "" && !Separator(s[0])
    ensures Normalize(s) != "" && !Separator(Normalize(s)[0])
  {
  }

  /** A normalized name is its own normal form, so it can be used to select a package. */
  lemma {:induction false} NormalizeIdempotent(s: string)
    ensures Normalize(Normalize(s)) == Normalize(s)
    decreases |s|
  {
    if s != "" {
      if Separator(s[0]) {
        var rest := DropSeparators(s);
        NormalizeIdempotent(rest);
        var n := Normalize(rest);
        if rest != "" {
          NormalizeHead(rest);
        }
        assert Normalize(s) == "-" + n && ("-" + n)[1..] == n;
        assert DropSeparators("-" + n) == n;
      } else {
        NormalizeIdempotent(s[1..]);
        var n := Normalize(s[1..]);
        assert ([Lower(s[0])] + n)[1..] == n;
      }
    }
  }

  // ----- Extras -------------------------------------------------------------

  /** `sorted((set(a) | set(b)) - drop)`. */
  function MergedExtras(a: seq<string>, b: seq<string>, drop: set<string>): (r: seq<string>)
    ensures StrictlySorted(r)
    ensures Elements(r) == (Elements(a) + Elements(b)) - drop
  {
    var r := SortedStrings((Elements(a) + Elements(b)) - drop);
    assert Elements(r) == (Elements(a) + Elements(b)) - drop;
    r
  }

  /** `requirement` with the extras of both requests. */
  function RetainExtras(requirement: Requirement, previous: Requirement): Requirement {
    requirement.(extras := MergedExtras(requirement.extras, previous.extras, {""}))
  }

  lemma SortedIsMerged(a: seq<string>, b: seq<string>, r: seq<string>, drop: set<string>)
    requires StrictlySorted(r) && Elements(r) == (Elements(a) + Elements(b)) - drop
    ensures r == MergedExtras(a, b, drop)
  {
    var m := MergedExtras(a, b, drop);
    assert forall x :: x in r <==> x in Elements(r);
    assert forall x :: x in m <==> x in Elements(m);
    StrictlySortedUnique(r, m);
  }

  /** Merging the same extras again changes nothing, not even their order. */
  lemma MergeIdempotent(a: seq<string>, b: seq<string>, drop: set<string>)
    ensures MergedExtras(a, MergedExtras(a, b, drop), drop) == MergedExtras(a, b, drop)
  {
    var m := MergedExtras(a, b, drop);
    assert (Elements(a) + Elements(m)) - drop == Elements(m);
    SortedIsMerged(a, m, m, drop);
  }

  // ----- Ordered dictionaries -----------------------------------------------

  datatype Entry = Entry(key: string, requirement: Requirement)

  type Dict = seq<Entry>

  function Keys(d: Dict): seq<string> {
    seq(|d|, i requires 0 <= i < |d| => d[i].key)
  }

  function Values(d: Dict): seq<Requirement> {
    seq(|d|, i requires 0 <= i < |d| => d[i].requirement)
  }

  predicate Has(d: Dict, k: string) {
    exists i :: 0 <= i < |d| && d[i].key == k
  }

  predicate Unique(d: Dict) {
    forall i, j :: 0 <= i < j < |d| ==> d[i].key != d[j].key
  }

  /** Every requirement is filed under its own package name. */
  predicate Filed(d: Dict) {
    forall i :: 0 <= i < |d| ==> d[i].key == PackageName(d[i].requirement)
  }

  /** `{package_name(r): r for r in rs}` for distinct names. */
  function File(rs: seq<Requirement>): Dict {
    seq(|rs|, i requires 0 <= i < |rs| => Entry(PackageName(rs[i]), rs[i]))
  }

  function Get(d: Dict, k: string, otherwise: Requirement): Requirement {
    if d == [] then otherwise
    else if d[0].key == k then d[0].requirement
    else Get(d[1..], k, otherwise)
  }

  /** `d[k] = r`: in place when the key exists, at the end otherwise. */
  function Put(d: Dict, k: string, r: Requirement): Dict {
    if d == [] then [Entry(k, r)]
    else if d[0].key == k then [Entry(k, r)] + d[1..]
    else [d[0]] + Put(d[1..], k, r)
  }

  /** `del d[k]`. */
  function Delete(d: Dict, k: string): Dict {
    if d == [] then []
    else if d[0].key == k then d[1..]
    else [d[0]] + Delete(d[1..], k)
  }

  /** The entries whose keys are outside `touched`, in order. */
  function Untouched(d: Dict, touched: set<string>): Dict {
    if d == [] then []
    else if d[0].key in touched then Untouched(d[1..], touched)
    else [d[0]] + Untouched(d[1..], touched)
  }

  lemma HasTail(d: Dict, k: string)
    requires d != []
    ensures Has(d, k) <==> d[0].key == k || Has(d[1..], k)
  {
    if Has(d, k) {
      var i :| 0 <= i < |d| && d[i].key == k;
      if i > 0 {
        assert d[1..][i - 1].key == k;
      }
    }
    if Has(d[1..], k) {
      var i :| 0 <= i < |d[1..]| && d[1..][i].key == k;
      assert d[i + 1].key == k;
    }
  }

  lemma {:induction false} PutKeys(d: Dict, k: string, r: Requirement, other: string)
    ensures Has(Put(d, k, r), other) <==> other == k || Has(d, other)
  {
    if d == [] {
      assert [Entry(k, r)][0].key == k;
    } else {
      HasTail(d, other);
      var p := Put(d, k, r);
      HasTail(p, other);
      if d[0].key == k {
        assert p[1..] == d[1..];
      } else {
        PutKeys(d[1..], k, r, other);
        assert p[1..] == Put(d[1..], k, r);
      }
    }
  }

  lemma UniqueTail(d: Dict)
    requires d != []
    ensures Unique(d) <==> Unique(d[1..]) && !Has(d[1..], d[0].key)
  {
    assert forall i :: 0 <= i < |d[1..]| ==> d[1..][i] == d[i + 1];
    if Unique(d[1..]) && !Has(d[1..], d[0].key) {
      forall i, j | 0 <= i < j < |d|
        ensures d[i].key != d[j].key
      {
        assert d[j] == d[1..][j - 1];
        if i > 0 {
          assert d[i] == d[1..][i - 1];
        }
      }
    }
  }

  lemma {:induction false} PutUnique(d: Dict, k: string, r: Requirement)
    requires Unique(d)
    ensures Unique(Put(d, k, r))
  {
    if d != [] {
      UniqueTail(d);
      var p := Put(d, k, r);
      UniqueTail(p);
      if d[0].key == k {
        assert p[1..] == d[1..];
      } else {
        PutUnique(d[1..], k, r);
        PutKeys(d[1..], k, r, d[0].key);
        assert p[1..] == Put(d[1..], k, r);
      }
    }
  }

  lemma {:induction false} PutFiled(d: Dict, k: string, r: Requirement)
    requires Filed(d) && PackageName(r) == k
    ensures Filed(Put(d, k, r))
  {
    if d != [] && d[0].key != k {
      PutFiled(d[1..], k, r);
    }
  }

  lemma {:induction false} PutGet(d: Dict, k: string, r: Requirement, other: string, otherwise: Requirement)
    ensures Get(Put(d, k, r), other, otherwise) == if other == k then r else Get(d, other, otherwise)
  {
    if d != [] && d[0].key != k {
      PutGet(d[1..], k, r, other, otherwise);
      assert Put(d, k, r)[1..] == Put(d[1..], k, r);
    }
  }

  /** Looking a key up finds its one entry. */
  lemma {:induction false} GetMember(d: Dict, k: string, r: Requirement, otherwise: Requirement)
    requires Unique(d)
    ensures Entry(k, r) in d <==> Has(d, k) && Get(d, k, otherwise) == r
  {
    if d != [] {
      UniqueTail(d);
      HasTail(d, k);
      GetMember(d[1..], k, r, otherwise);
      assert Entry(k, r) in d <==> Entry(k, r) == d[0] || Entry(k, r) in d[1..];
    }
  }

  lemma {:induction false} PutMembers(d: Dict, k: string, r: Requirement, e: Entry)
    requires Unique(d)
    ensures e in Put(d, k, r) <==> e == Entry(k, r) || (e.key != k && e in d)
  {
    if d != [] {
      UniqueTail(d);
      assert e in d <==> e == d[0] || e in d[1..];
      var p := Put(d, k, r);
      assert e in p <==> e == p[0] || e in p[1..];
      if d[0].key == k {
        assert p[1..] == d[1..];
        assert e in d[1..] ==> Has(d[1..], e.key);
      } else {
        PutMembers(d[1..], k, r, e);
        assert p[1..] == Put(d[1..], k, r);
      }
    }
  }

  lemma {:induction false} PutSame(d: Dict, k: string, otherwise: Requirement)
    requires Has(d, k)
    ensures Put(d, k, Get(d, k, otherwise)) == d
  {
    HasTail(d, k);
    if d[0].key != k {
      PutSame(d[1..], k, otherwise);
    }
    assert d == [d[0]] + d[1..];
  }

  lemma {:induction false} PutUntouched(d: Dict, k: string, r: Requirement, touched: set<string>)
    requires k in touched
    ensures Untouched(Put(d, k, r), touched) == Untouched(d, touched)
  {
    if d != [] {
      var p := Put(d, k, r);
      if d[0].key == k {
        assert p[1..] == d[1..];
      } else {
        PutUntouched(d[1..], k, r, touched);
        assert p[1..] == Put(d[1..], k, r);
      }
    }
  }

  lemma {:induction false} UntouchedWhole(d: Dict, touched: set<string>)
    requires forall i :: 0 <= i < |d| ==> d[i].key !in touched
    ensures Untouched(d, touched) == d
  {
    if d != [] {
      UntouchedWhole(d[1..], touched);
    }
  }

  lemma {:induction false} DeleteKeys(d: Dict, k: string, other: string)
    requires Unique(d)
    ensures Unique(Delete(d, k))
    ensures Has(Delete(d, k), other) <==> other != k && Has(d, other)
  {
    if d != [] {
      UniqueTail(d);
      HasTail(d, other);
      if d[0].key != k {
        var e := Delete(d, k);
        assert e[1..] == Delete(d[1..], k);
        DeleteKeys(d[1..], k, other);
        DeleteKeys(d[1..], k, d[0].key);
        UniqueTail(e);
        HasTail(e, other);
      }
    }
  }

  lemma {:induction false} DeleteFiled(d: Dict, k: string)
    requires Filed(d)
    ensures Filed(Delete(d, k))
  {
    if d != [] && d[0].key != k {
      DeleteFiled(d[1..], k);
    }
  }

  lemma {:induction false} DeleteUntouched(d: Dict, k: string, touched: set<string>)
    requires k in touched
    ensures Untouched(Delete(d, k), touched) == Untouched(d, touched)
  {
    if d != [] && d[0].key != k {
      DeleteUntouched(d[1..], k, touched);
      assert Delete(d, k)[1..] == Delete(d[1..], k);
    }
  }

  /** A key that was not there is gone again after putting and deleting it. */
  lemma {:induction false} PutDelete(d: Dict, k: string, r: Requirement)
    requires !Has(d, k)
    ensures Delete(Put(d, k, r), k) == d
  {
    if d != [] {
      HasTail(d, k);
      PutDelete(d[1..], k, r);
      assert Put(d, k, r)[1..] == Put(d[1..], k, r);
    }
  }
}
