/**
 * The presentation check of a radio receipt: the expected text is encoded, cut
 * at the byte budget and decoded with errors ignored, and the presented text
 * must equal it and fit the budget.
 */
module ByteBudget {
  import opened Utf8
  import opened Results

  function Cut(b: seq<Byte>, n: nat): seq<Byte> {
    if n < |b| then b[..n] else b
  }

  function Truncated(s: string, n: nat): string {
    DecodeIgnoring(Cut(Encode(s), n))
  }

  function Expected(prefix: string, message: string, budget: Option<nat>): string {
    match budget
    case None => prefix + message
    case Some(n) => Truncated(prefix + message, n)
  }

  /** Both assertions about the presented text; the text is only compared for a source with a declared prefix. */
  predicate Accepts(presented: string, prefix: Option<string>, message: Option<string>, budget: Option<nat>) {
    && (budget.Some? ==> |Encode(presented)| <= budget.value)
    && (prefix.Some? ==> message.Some? && presented == Expected(prefix.value, message.value, budget))
  }

  /** `p` is the longest prefix of `s` whose encoding fits in `n` bytes. */
  predicate LongestFitting(s: string, n: nat, p: string) {
    && p <= s
    && |Encode(p)| <= n
    && forall k :: |p| < k <= |s| ==> |Encode(s[..k])| > n
  }

  lemma PrefixEncoding(s: string, k: nat)
    requires s != "" && 1 <= k <= |s|
    ensures Encode(s[..k]) == EncodeChar(s[0]) + Encode(s[1..][..k - 1])
  {
    assert s[..k][1..] == s[1..][..k - 1];
  }

  /** Encode, cut and decode is exact whole-character truncation. */
  lemma {:induction false} TruncatedIsLongest(s: string, n: nat)
    ensures LongestFitting(s, n, Truncated(s, n))
  {
    if s != "" {
      var e, rest := EncodeChar(s[0]), s[1..];
      if n < |e| {
        CutInside(s, n);
        forall k | 0 < k <= |s|
          ensures |Encode(s[..k])| > n
        {
          PrefixEncoding(s, k);
        }
      } else {
        TruncatedIsLongest(rest, n - |e|);
        CutAfter(s, n);
        var t := Truncated(rest, n - |e|);
        assert [s[0]] + t <= [s[0]] + rest == s;
        assert ([s[0]] + t)[1..] == t;
        forall k | |t| + 1 < k <= |s|
          ensures |Encode(s[..k])| > n
        {
          PrefixEncoding(s, k);
        }
      }
    }
  }

  lemma CutInside(s: string, n: nat)
    requires s != "" && n < |EncodeChar(s[0])|
    ensures Truncated(s, n) == ""
  {
    var e := EncodeChar(s[0]);
    assert Cut(Encode(s), n) == e[..n];
    if n > 0 {
      var cut := e[..n];
      NextCut(s[0], n);
      assert cut[n..] == [] && DecodeIgnoring(cut) == DecodeIgnoring(cut[n..]);
    }
  }

  lemma CutAfter(s: string, n: nat)
    requires s != "" && |EncodeChar(s[0])| <= n
    ensures Truncated(s, n) == [s[0]] + Truncated(s[1..], n - |EncodeChar(s[0])|)
  {
    var e := EncodeChar(s[0]);
    var tail := Cut(Encode(s[1..]), n - |e|);
    assert Cut(Encode(s), n) == e + tail;
    NextWhole(s[0], tail);
    assert (e + tail)[|e|..] == tail;
  }

  /** There is only one longest fitting prefix. */
  lemma LongestUnique(s: string, n: nat, p: string, q: string)
    requires LongestFitting(s, n, p) && LongestFitting(s, n, q)
    ensures p == q
  {
    assert s[..|p|] == p && s[..|q|] == q;
  }

  /** Decoding undoes encoding when the budget does not bite. */
  lemma RoundTrip(s: string)
    ensures DecodeIgnoring(Encode(s)) == s
  {
    var n := |Encode(s)|;
    TruncatedIsLongest(s, n);
    assert s[..|s|] == s;
    assert LongestFitting(s, n, s);
    LongestUnique(s, n, s, Truncated(s, n));
  }

  /** A larger budget never shows less. */
  lemma Monotone(s: string, n: nat, m: nat)
    requires n <= m
    ensures Truncated(s, n) <= Truncated(s, m)
  {
    TruncatedIsLongest(s, n);
    TruncatedIsLongest(s, m);
    var p, q := Truncated(s, n), Truncated(s, m);
    assert s[..|p|] == p && s[..|q|] == q;
  }

  /**
   * For a source with a declared prefix exactly one text is accepted, the longest
   * whole-character prefix that fits, and the separate byte-budget assertion can
   * never reject it. Without a declared prefix any text within the budget is.
   */
  lemma AcceptsExactly(presented: string, prefix: Option<string>, message: Option<string>, budget: Option<nat>)
    ensures prefix.Some? && message.Some? && budget.Some? ==>
              (Accepts(presented, prefix, message, budget) <==>
               LongestFitting(prefix.value + message.value, budget.value, presented))
    ensures prefix.Some? && message.Some? && budget.None? ==>
              (Accepts(presented, prefix, message, budget) <==> presented == prefix.value + message.value)
    ensures prefix.Some? && message.None? ==> !Accepts(presented, prefix, message, budget)
    ensures prefix.None? ==>
              (Accepts(presented, prefix, message, budget) <==> budget.None? || |Encode(presented)| <= budget.value)
  {
    if prefix.Some? && message.Some? && budget.Some? {
      var s := prefix.value + message.value;
      TruncatedIsLongest(s, budget.value);
      if LongestFitting(s, budget.value, presented) {
        LongestUnique(s, budget.value, presented, Truncated(s, budget.value));
      }
    }
  }
}
