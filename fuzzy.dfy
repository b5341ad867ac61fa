/** The Dice bigram coefficient of server/sync/fuzzy.js: both names are
    lower-cased and stripped to `[a-z0-9]`, and the score is twice the number
    of shared bigrams over the total number of bigrams. */
module Fuzzy {
  import opened Text

  predicate IsAlnumLower(c: char) { 'a' <= c <= 'z' || '0' <= c <= '9' }

  /** `.replace(/[^a-z0-9]/g, '')`. */
  function KeepAlnum(s: string): (r: string)
    ensures |r| <= |s|
    ensures forall i :: 0 <= i < |r| ==> IsAlnumLower(r[i])
    ensures (forall i :: 0 <= i < |s| ==> IsAlnumLower(s[i])) ==> r == s
  {
    if |s| == 0 then []
    else (if IsAlnumLower(s[0]) then [s[0]] else []) + KeepAlnum(s[1..])
  }

  /** `normalize`: lower-case, then keep only ASCII letters and digits. */
  function Normalize(s: string): (r: string)
    ensures forall i :: 0 <= i < |r| ==> IsAlnumLower(r[i])
  {
    KeepAlnum(Lower(s))
  }

  /** Normalising twice is normalising once. */
  lemma NormalizeIdempotent(s: string)
    ensures Normalize(Normalize(s)) == Normalize(s)
  {
    var n := Normalize(s);
    assert Lower(n) == n;
  }

  /** The bigrams `s.slice(i, i + 2)` for `0 <= i < |s| - 1`, in order. */
  function Bigrams(s: string): (r: seq<string>)
    ensures |r| == if |s| < 2 then 0 else |s| - 1
    ensures forall i :: 0 <= i < |r| ==> i + 2 <= |s| && r[i] == s[i..i + 2]
  {
    if |s| < 2 then [] else seq(|s| - 1, i requires 0 <= i < |s| - 1 => s[i..i + 2])
  }

  /** The score as a formula: 1 for equal normal forms, 0 when either normal
      form has no bigram, else 2|A ∩ B| / (|A| + |B|) over the bigram multisets. */
  function Dice(a: string, b: string): real {
    var aN := Normalize(a);
    var bN := Normalize(b);
    if aN == bN then 1.0
    else if |aN| < 2 || |bN| < 2 then 0.0
    else
      (2 * |multiset(Bigrams(aN)) * multiset(Bigrams(bN))|) as real
        / ((|aN| - 1 + |bN| - 1) as real)
  }

  /** `aBigrams.get(k) || 0`. */
  function Get(m: map<string, int>, k: string): int {
    if k in m then m[k] else 0
  }

  /** Adding one element to the consumed side of an intersection adds one
      to it exactly when that element still has a count left in `a`. */
  lemma IntersectionStep(a: multiset<string>, b: multiset<string>, x: string)
    ensures a[x] > b[x] ==> a * (b + multiset{x}) == a * b + multiset{x}
    ensures a[x] <= b[x] ==> a * (b + multiset{x}) == a * b
    ensures (a - (b + multiset{x}))[x] == if a[x] > b[x] then a[x] - b[x] - 1 else 0
    ensures forall k :: k != x ==> (a - (b + multiset{x}))[k] == (a - b)[k]
  {
    if a[x] > b[x] {
      assert forall k :: (a * (b + multiset{x}))[k] == (a * b + multiset{x})[k];
    } else {
      assert forall k :: (a * (b + multiset{x}))[k] == (a * b)[k];
    }
  }

  /** The first loop of `diceCoefficient`: the count of every bigram of `s`. */
  method CountBigrams(s: string) returns (counts: map<string, int>)
    ensures forall k :: Get(counts, k) == multiset(Bigrams(s))[k]
  {
    ghost var bs := Bigrams(s);
    counts := map[];
    if |s| < 2 {
      return;
    }
    var i := 0;
    while i < |s| - 1
      invariant 0 <= i <= |s| - 1
      invariant forall k :: Get(counts, k) == multiset(bs[..i])[k]
    {
      var bi := s[i..i + 2];
      assert bs[..i + 1] == bs[..i] + [bi];
      counts := counts[bi := Get(counts, bi) + 1];
      i := i + 1;
    }
    assert bs[..i] == bs;
  }

  /** The second loop of `diceCoefficient`: each bigram of `s` that still has
      a count left consumes one; the number consumed is the size of the
      multiset intersection. */
  method CountShared(counts0: map<string, int>, ghost a: multiset<string>, s: string)
    returns (intersection: int)
    requires forall k :: Get(counts0, k) == a[k]
    ensures intersection == |a * multiset(Bigrams(s))|
  {
    ghost var bs := Bigrams(s);
    var counts := counts0;
    intersection := 0;
    if |s| < 2 {
      assert a * multiset{} == multiset{};
      return;
    }
    var j := 0;
    while j < |s| - 1
      invariant 0 <= j <= |s| - 1
      invariant forall k :: Get(counts, k) == (a - multiset(bs[..j]))[k]
      invariant intersection == |a * multiset(bs[..j])|
    {
      var bi := s[j..j + 2];
      ghost var b := multiset(bs[..j]);
      assert bs[..j + 1] == bs[..j] + [bi];
      assert multiset(bs[..j + 1]) == b + multiset{bi};
      IntersectionStep(a, b, bi);
      var count := Get(counts, bi);
      if count > 0 {
        counts := counts[bi := count - 1];
        intersection := intersection + 1;
      }
      j := j + 1;
    }
    assert bs[..j] == bs;
  }

  /** `diceCoefficient(a, b)`. */
  method DiceCoefficient(a: string, b: string) returns (score: real)
    ensures score == Dice(a, b)
    ensures 0.0 <= score <= 1.0
  {
    var aN := Normalize(a);
    var bN := Normalize(b);
    DiceRange(a, b);
    if aN == bN {
      return 1.0;
    }
    if |aN| < 2 || |bN| < 2 {
      return 0.0;
    }
    var counts := CountBigrams(aN);
    var intersection := CountShared(counts, multiset(Bigrams(aN)), bN);
    score := (2 * intersection) as real / ((|aN| - 1 + |bN| - 1) as real);
  }

  /** Every element of a multiset intersection is counted in each operand. */
  lemma IntersectionBound(a: multiset<string>, b: multiset<string>)
    ensures |a * b| <= |a| && |a * b| <= |b|
  {
    assert a == a * b + (a - b) by {
      assert forall k :: a[k] == (a * b + (a - b))[k];
    }
    assert b == a * b + (b - a) by {
      assert forall k :: b[k] == (a * b + (b - a))[k];
    }
  }

  /** The score lies in [0, 1]; the denominator is at least 2 whenever the
      division is reached. */
  lemma DiceRange(a: string, b: string)
    ensures 0.0 <= Dice(a, b) <= 1.0
  {
    var aN := Normalize(a);
    var bN := Normalize(b);
    if aN != bN && |aN| >= 2 && |bN| >= 2 {
      var A := multiset(Bigrams(aN));
      var B := multiset(Bigrams(bN));
      IntersectionBound(A, B);
      assert |A| == |aN| - 1 && |B| == |bN| - 1;
      RatioAtMostOne((2 * |A * B|) as real, (|aN| - 1 + |bN| - 1) as real);
    }
  }

  lemma RatioAtMostOne(n: real, d: real)
    requires 0.0 <= n <= d && d > 0.0
    ensures 0.0 <= n / d <= 1.0
  {
  }

  /** The score does not depend on the order of its arguments. */
  lemma DiceSymmetric(a: string, b: string)
    ensures Dice(a, b) == Dice(b, a)
  {
    var A := multiset(Bigrams(Normalize(a)));
    var B := multiset(Bigrams(Normalize(b)));
    assert A * B == B * A;
  }

  /** Names that differ only in case and punctuation score exactly 1, and a
      name scores 1 against its own normal form. */
  lemma DiceOfNormalized(a: string, b: string)
    requires Normalize(a) == Normalize(b)
    ensures Dice(a, b) == 1.0
    ensures Dice(a, Normalize(a)) == 1.0
  {
    NormalizeIdempotent(a);
  }

  /** Different normal forms, one without a bigram, score 0. */
  lemma DiceShort(a: string, b: string)
    requires Normalize(a) != Normalize(b)
    requires |Normalize(a)| < 2 || |Normalize(b)| < 2
    ensures Dice(a, b) == 0.0
  {
  }
}
