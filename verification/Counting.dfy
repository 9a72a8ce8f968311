/** Cardinality facts shared by the accounting and pigeonhole arguments. */
module Counting {

  /** The pairs with first component in `a` and second component in `b`. */
  function Product<A, B>(a: set<A>, b: set<B>): set<(A, B)> {
    set x, y | x in a && y in b :: (x, y)
  }

  lemma ProductSplit<A, B>(a: set<A>, b: set<B>, x: A)
    requires x in a
    ensures Product(a, b) == Product(a - {x}, b) + Product({x}, b)
    ensures Product(a - {x}, b) !! Product({x}, b)
  {
    assert a == (a - {x}) + {x};
  }

  lemma {:induction false} ProductSize<A, B>(a: set<A>, b: set<B>)
    ensures |Product(a, b)| == |a| * |b|
    decreases a
  {
    if a == {} {
      assert Product(a, b) == {};
    } else {
      var x :| x in a;
      ProductSize(a - {x}, b);
      RowSize(x, b);
      ProductSplit(a, b, x);
      UnionSize(Product(a - {x}, b), Product({x}, b));
      UnionSize(a - {x}, {x});
      assert a == (a - {x}) + {x};
      OneMoreRow(|a - {x}|, |b|);
    }
  }

  lemma UnionSize<T>(a: set<T>, b: set<T>)
    requires a !! b
    ensures |a + b| == |a| + |b|
  {
  }

  lemma OneMoreRow(rows: nat, n: nat)
    ensures (rows + 1) * n == rows * n + n
  {
  }

  lemma {:induction false} RowSize<A, B>(x: A, b: set<B>)
    ensures |Product({x}, b)| == |b|
    decreases b
  {
    if b == {} {
      assert Product({x}, b) == {};
    } else {
      var y :| y in b;
      RowSize(x, b - {y});
      assert Product({x}, b) == Product({x}, b - {y}) + {(x, y)};
    }
  }

  lemma {:induction false} SubsetSize<T>(a: set<T>, b: set<T>)
    requires a <= b
    ensures |a| <= |b|
    ensures |a| == |b| ==> a == b
    decreases a
  {
    if a != {} {
      var x :| x in a;
      SubsetSize(a - {x}, b - {x});
    }
  }

  /** The naturals below `n`. */
  function Below(n: nat): (r: set<nat>)
    ensures forall i :: i in r <==> 0 <= i < n
  {
    if n == 0 then {} else Below(n - 1) + {n - 1}
  }

  lemma {:induction false} BelowSize(n: nat)
    ensures |Below(n)| == n
  {
    if n > 0 {
      BelowSize(n - 1);
    }
  }

  function Elements<T>(s: seq<T>): set<T> {
    set x | x in s
  }

  predicate Distinct<T(==)>(s: seq<T>) {
    forall i, j :: 0 <= i < j < |s| ==> s[i] != s[j]
  }

  /** A sequence has as many elements as its length exactly when nothing repeats. */
  lemma {:induction false} DistinctSize<T>(s: seq<T>)
    ensures |Elements(s)| <= |s|
    ensures |Elements(s)| == |s| <==> Distinct(s)
  {
    if s != [] {
      var front, last := s[..|s| - 1], s[|s| - 1];
      DistinctSize(front);
      assert s == front + [last];
      assert Elements(s) == Elements(front) + {last};
      if last in Elements(front) {
        var i :| 0 <= i < |front| && front[i] == last;
        assert s[i] == s[|s| - 1];
        assert Elements(s) == Elements(front);
      } else {
        assert forall i :: 0 <= i < |front| ==> s[i] == front[i];
        if Distinct(front) {
          assert Distinct(s);
        } else {
          var i, j :| 0 <= i < j < |front| && front[i] == front[j];
          assert s[i] == s[j];
        }
      }
    }
  }

  function Sum(s: seq<nat>): nat {
    if s == [] then 0 else Sum(s[..|s| - 1]) + s[|s| - 1]
  }

  lemma {:induction false} SumUpdate(s: seq<nat>, i: nat, v: nat)
    requires i < |s|
    ensures Sum(s[i := v]) + s[i] == Sum(s) + v
  {
    var n := |s| - 1;
    if i == n {
      assert s[i := v][..n] == s[..n];
    } else {
      assert s[i := v][..n] == s[..n][i := v];
      SumUpdate(s[..n], i, v);
    }
  }

  /** If no term grows by more than `d`, the sum grows by at most `d` per term. */
  lemma {:induction false} SumGrowth(s: seq<nat>, t: seq<nat>, d: nat)
    requires |s| == |t|
    requires forall i :: 0 <= i < |s| ==> t[i] <= s[i] + d
    ensures Sum(t) <= Sum(s) + d * |s|
  {
    if s != [] {
      SumGrowth(s[..|s| - 1], t[..|s| - 1], d);
    }
  }

  lemma {:induction false} SumConstant(s: seq<nat>, c: nat)
    requires forall i :: 0 <= i < |s| ==> s[i] == c
    ensures Sum(s) == c * |s|
  {
    if s != [] {
      SumConstant(s[..|s| - 1], c);
    }
  }
}
