/** The rolling two-row dynamic program behind the fuzzy matching tier, and the similarity ratio built on it. */
module Lcs {

  /** `at` lists, left to right, the positions of `s` that spell `t`. */
  ghost predicate Picks(at: seq<nat>, t: string, s: string) {
    && |at| == |t|
    && (forall k :: 0 <= k < |at| ==> at[k] < |s| && s[at[k]] == t[k])
    && (forall j, k :: 0 <= j < k < |at| ==> at[j] < at[k])
  }

  ghost predicate IsSubsequence(t: string, s: string) {
    exists at :: Picks(at, t, s)
  }

  ghost predicate IsCommonSubsequence(t: string, a: string, b: string) {
    IsSubsequence(t, a) && IsSubsequence(t, b)
  }

  function Max(x: nat, y: nat): nat {
    if x > y then x else y
  }

  function Init(s: string): string
    requires s != ""
  {
    s[..|s| - 1]
  }

  /** The textbook recurrence on the last characters; what it means is proved by LcsLenIsLongest. */
  function LcsLen(a: string, b: string): nat
    decreases |a| + |b|
  {
    if a == "" || b == "" then 0
    else if a[|a| - 1] == b[|b| - 1] then LcsLen(Init(a), Init(b)) + 1
    else Max(LcsLen(Init(a), b), LcsLen(a, Init(b)))
  }

  lemma PicksShorter(at: seq<nat>, t: string, s: string)
    requires Picks(at, t, s) && t != ""
    ensures s != ""
    ensures Picks(at[..|at| - 1], Init(t), Init(s))
    ensures at[|at| - 1] < |s| - 1 ==> Picks(at, t, Init(s))
  {
    var last := |at| - 1;
    assert at[last] < |s|;
    forall k | 0 <= k < last
      ensures at[k] < |s| - 1
    {
      assert at[k] < at[last];
    }
    if at[last] < |s| - 1 {
      forall k | 0 <= k < |at|
        ensures at[k] < |s| - 1
      {
        assert k < last ==> at[k] < at[last];
      }
    }
  }

  lemma PicksLonger(at: seq<nat>, t: string, s: string)
    requires s != "" && Picks(at, t, Init(s))
    ensures Picks(at, t, s)
    ensures Picks(at + [|s| - 1], t + [s[|s| - 1]], s)
  {
  }

  /** No common subsequence is longer than LcsLen. */
  lemma {:induction false} LcsLenBounds(t: string, a: string, b: string, f: seq<nat>, g: seq<nat>)
    requires Picks(f, t, a) && Picks(g, t, b)
    ensures |t| <= LcsLen(a, b)
    decreases |a| + |b|
  {
    if t != "" {
      PicksShorter(f, t, a);
      PicksShorter(g, t, b);
      if a[|a| - 1] == b[|b| - 1] {
        LcsLenBounds(Init(t), Init(a), Init(b), f[..|f| - 1], g[..|g| - 1]);
      } else if f[|f| - 1] < |a| - 1 {
        LcsLenBounds(t, Init(a), b, f, g);
      } else {
        LcsLenBounds(t, a, Init(b), f, g);
      }
    }
  }

  /** Some common subsequence is exactly that long. */
  lemma {:induction false} LcsLenAttained(a: string, b: string) returns (t: string, f: seq<nat>, g: seq<nat>)
    ensures Picks(f, t, a) && Picks(g, t, b)
    ensures |t| == LcsLen(a, b)
    decreases |a| + |b|
  {
    if a == "" || b == "" {
      t, f, g := "", [], [];
    } else if a[|a| - 1] == b[|b| - 1] {
      t, f, g := LcsLenAttained(Init(a), Init(b));
      PicksLonger(f, t, a);
      PicksLonger(g, t, b);
      t, f, g := t + [a[|a| - 1]], f + [|a| - 1], g + [|b| - 1];
    } else if LcsLen(Init(a), b) > LcsLen(a, Init(b)) {
      t, f, g := LcsLenAttained(Init(a), b);
      PicksLonger(f, t, a);
    } else {
      t, f, g := LcsLenAttained(a, Init(b));
      PicksLonger(g, t, b);
    }
  }

  /** LcsLen is the length of a longest common subsequence: one has that length and none is longer. */
  lemma LcsLenIsLongest(a: string, b: string)
    ensures exists t :: IsCommonSubsequence(t, a, b) && |t| == LcsLen(a, b)
    ensures forall t :: IsCommonSubsequence(t, a, b) ==> |t| <= LcsLen(a, b)
  {
    var t, f, g := LcsLenAttained(a, b);
    assert IsCommonSubsequence(t, a, b);
    forall t | IsCommonSubsequence(t, a, b)
      ensures |t| <= LcsLen(a, b)
    {
      var f :| Picks(f, t, a);
      var g :| Picks(g, t, b);
      LcsLenBounds(t, a, b, f, g);
    }
  }

  lemma {:induction false} LcsLenSymmetric(a: string, b: string)
    ensures LcsLen(a, b) == LcsLen(b, a)
  {
    var t, f, g := LcsLenAttained(a, b);
    LcsLenBounds(t, b, a, g, f);
    var t', f', g' := LcsLenAttained(b, a);
    LcsLenBounds(t', a, b, g', f');
  }

  /** A strictly increasing list of positions below n is no longer than n, and is everything when it has n entries. */
  lemma {:induction false} IncreasingIsShort(at: seq<nat>, n: nat)
    requires forall k :: 0 <= k < |at| ==> at[k] < n
    requires forall j, k :: 0 <= j < k < |at| ==> at[j] < at[k]
    ensures |at| <= n
    ensures |at| == n ==> forall k :: 0 <= k < n ==> at[k] == k
    decreases |at|
  {
    if |at| > 0 {
      var last := at[|at| - 1];
      IncreasingIsShort(at[..|at| - 1], last);
      assert forall k :: 0 <= k < |at| - 1 ==> at[..|at| - 1][k] == at[k];
    }
  }

  lemma SubsequenceOfFullLength(t: string, s: string)
    requires IsSubsequence(t, s)
    ensures |t| <= |s|
    ensures |t| == |s| ==> t == s
  {
    var at :| Picks(at, t, s);
    IncreasingIsShort(at, |s|);
  }

  /** The entry of the dynamic-programming table for the first `i` characters of `a` and the first `j` of `b`. */
  function Cell(a: string, b: string, i: nat, j: nat): nat
    requires i <= |a| && j <= |b|
  {
    LcsLen(a[..i], b[..j])
  }

  lemma CellStep(a: string, b: string, i: nat, j: nat)
    requires 0 < i <= |a| && 0 < j <= |b|
    ensures Cell(a, b, i, j) ==
            if a[i - 1] == b[j - 1] then Cell(a, b, i - 1, j - 1) + 1
            else Max(Cell(a, b, i - 1, j), Cell(a, b, i, j - 1))
  {
    assert Init(a[..i]) == a[..i - 1] && Init(b[..j]) == b[..j - 1];
  }

  ghost predicate IsRow(row: seq<int>, a: string, b: string, j: nat)
    requires j <= |b|
  {
    |row| == |a| + 1 && forall i :: 0 <= i <= |a| ==> row[i] == Cell(a, b, i, j)
  }

  /** The body of the outer loop: from the row of `j - 1` the row of `j`. */
  method FillRow(a: string, b: string, j: nat, prev: array<int>, cur: array<int>)
    requires 0 < j <= |b| && prev != cur && cur.Length == |a| + 1 && cur[0] == 0
    requires IsRow(prev[..], a, b, j - 1)
    modifies cur
    ensures IsRow(cur[..], a, b, j)
  {
    ghost var row := prev[..];
    for i := 1 to |a| + 1
      invariant prev[..] == row
      invariant forall k :: 0 <= k < i ==> cur[k] == Cell(a, b, k, j)
    {
      CellStep(a, b, i, j);
      if a[i - 1] == b[j - 1] {
        cur[i] := prev[i - 1] + 1;
      } else if prev[i] > cur[i - 1] {
        cur[i] := prev[i];
      } else {
        cur[i] := cur[i - 1];
      }
    }
  }

  /** The in-place computation: rows `prev` and `cur` are overwritten, swapped and cleared. */
  method LongestCommonSubsequenceLen(a0: string, b0: string) returns (n: nat)
    ensures n == LcsLen(a0, b0)
  {
    LcsLenSymmetric(a0, b0);
    var a, b := a0, b0;
    if |a| > |b| {
      a, b := b, a;
    }
    var prev := new int[|a| + 1](_ => 0);
    var cur := new int[|a| + 1](_ => 0);
    for j := 1 to |b| + 1
      invariant cur.Length == |a| + 1 && prev != cur && fresh(prev) && fresh(cur)
      invariant IsRow(prev[..], a, b, j - 1)
      invariant cur[0] == 0
    {
      FillRow(a, b, j, prev, cur);
      prev, cur := cur, prev;
      ghost var row := prev[..];
      for i := 0 to cur.Length
        invariant forall k :: 0 <= k < i ==> cur[k] == 0
        invariant prev[..] == row
      {
        cur[i] := 0;
      }
    }
    assert a[..|a|] == a && b[..|b|] == b;
    n := prev[|a|];
  }

  /** Twice the match over the total length, over the reals. */
  function Ratio(a: string, b: string): real {
    if |a| == 0 && |b| == 0 then 1.0
    else if |a| == 0 || |b| == 0 then 0.0
    else Quotient(2 * LcsLen(a, b), |a| + |b|)
  }

  function Quotient(x: nat, y: nat): real
    requires y > 0
  {
    x as real / y as real
  }

  method SequenceRatio(a: string, b: string) returns (r: real)
    ensures r == Ratio(a, b)
  {
    if |a| == 0 && |b| == 0 {
      return 1.0;
    }
    if |a| == 0 || |b| == 0 {
      return 0.0;
    }
    var lcs := LongestCommonSubsequenceLen(a, b);
    r := 2.0 * lcs as real / (|a| + |b|) as real;
  }

  lemma QuotientBounds(x: nat, y: nat)
    requires x <= y && y > 0
    ensures 0.0 <= Quotient(x, y) <= 1.0
    ensures Quotient(x, y) == 1.0 <==> x == y
  {
    var q, d := Quotient(x, y), y as real;
    assert q * d == x as real;
    assert (q - 1.0) * d == x as real - d;
  }

  lemma PositiveProduct(p: real, d: real)
    requires d > 0.0
    ensures p > 0.0 ==> p * d > 0.0
  {
  }

  lemma AtMostHalf(q: real, d: real, x: real)
    requires d > 0.0 && q * d == x && 2.0 * x <= d
    ensures q <= 0.5
  {
    PositiveProduct(q - 0.5, d);
    assert (q - 0.5) * d == q * d - 0.5 * d;
  }

  lemma QuotientHalf(x: nat, y: nat)
    requires 2 * x <= y && y > 0
    ensures Quotient(x, y) <= 0.5
  {
    assert Quotient(x, y) * y as real == x as real;
    AtMostHalf(Quotient(x, y), y as real, x as real);
  }

  /** The match is no longer than either text. */
  lemma MatchIsShort(a: string, b: string)
    ensures LcsLen(a, b) <= |a| && LcsLen(a, b) <= |b|
  {
    var t, f, g := LcsLenAttained(a, b);
    assert IsSubsequence(t, a) && IsSubsequence(t, b);
    SubsequenceOfFullLength(t, a);
    SubsequenceOfFullLength(t, b);
  }

  /** Twice the match is at most both lengths, and reaches them exactly on equal strings. */
  lemma TwiceTheMatch(a: string, b: string)
    ensures 2 * LcsLen(a, b) <= |a| + |b|
    ensures 2 * LcsLen(a, b) == |a| + |b| <==> a == b
  {
    var t, f, g := LcsLenAttained(a, b);
    assert IsSubsequence(t, a) && IsSubsequence(t, b);
    SubsequenceOfFullLength(t, a);
    SubsequenceOfFullLength(t, b);
    if a == b {
      var all := seq(|a|, i requires 0 <= i => i);
      assert Picks(all, a, a);
      LcsLenBounds(a, a, a, all, all);
    }
  }

  /** The ratio is symmetric, lies in [0,1], and reaches 1 exactly on equal strings. */
  lemma RatioCases(a: string, b: string)
    ensures a != "" && b != "" ==> Ratio(a, b) == Quotient(2 * LcsLen(a, b), |a| + |b|)
    ensures a == "" || b == "" ==> LcsLen(a, b) == 0 && (Ratio(a, b) == 0.0 || |a| + |b| == 0)
  {
    MatchIsShort(a, b);
  }

  /** `r` of `total` is twice `n`. */
  ghost predicate IsShare(r: real, total: nat, n: nat) {
    r * total as real == (2 * n) as real
  }

  lemma NoShare(r: real, total: nat)
    requires r == 0.0 || total == 0
    ensures IsShare(r, total, 0)
  {
  }

  lemma QuotientIsShare(n: nat, total: nat)
    requires total > 0
    ensures IsShare(Quotient(2 * n, total), total, n)
  {
  }

  /** The ratio is twice the length of a longest common subsequence, over both lengths together. */
  lemma RatioMeaning(a: string, b: string) returns (t: string)
    ensures IsCommonSubsequence(t, a, b) && (forall u :: IsCommonSubsequence(u, a, b) ==> |u| <= |t|)
    ensures IsShare(Ratio(a, b), |a| + |b|, |t|)
  {
    LcsLenIsLongest(a, b);
    t :| IsCommonSubsequence(t, a, b) && |t| == LcsLen(a, b);
    RatioCases(a, b);
    if a != "" && b != "" {
      QuotientIsShare(|t|, |a| + |b|);
    } else {
      NoShare(Ratio(a, b), |a| + |b|);
    }
  }

  lemma RatioLaws(a: string, b: string)
    ensures Ratio(a, b) == Ratio(b, a)
    ensures 0.0 <= Ratio(a, b) <= 1.0
    ensures Ratio(a, b) == 1.0 <==> a == b
  {
    LcsLenSymmetric(a, b);
    if |a| > 0 && |b| > 0 {
      TwiceTheMatch(a, b);
      QuotientBounds(2 * LcsLen(a, b), |a| + |b|);
    }
  }
}
