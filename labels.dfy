/**
 * Positional lookups on label sequences that decide which write to a
 * label-keyed table comes last, and the first-seen order in which new column
 * labels are appended to it.
 */
module Labels {

  /**
   * The largest index below `n` (and inside `s`) holding `x`, or -1 when
   * `s[..n]` does not contain `x`.
   */
  function LastIndex(s: seq<string>, x: string, n: nat): (i: int)
    ensures -1 <= i < n
    ensures i >= 0 ==> i < |s| && s[i] == x
    ensures forall j :: i < j < n && j < |s| ==> s[j] != x
  {
    if n == 0 then -1
    else if n - 1 < |s| && s[n - 1] == x then n - 1
    else LastIndex(s, x, n - 1)
  }

  /**
   * The smallest index below `n` (and inside `s`) holding `x`, or -1 when
   * `s[..n]` does not contain `x`.
   */
  function FirstIndex(s: seq<string>, x: string, n: nat): (i: int)
    ensures -1 <= i < n
    ensures i >= 0 ==> i < |s| && s[i] == x
    ensures forall j :: 0 <= j < n && j < |s| && (i < 0 || j < i) ==> s[j] != x
  {
    if n == 0 then -1
    else
      var i := FirstIndex(s, x, n - 1);
      if i >= 0 then i
      else if n - 1 < |s| && s[n - 1] == x then n - 1
      else -1
  }

  /**
   * The distinct elements of `s[..n]` in the order of their first
   * appearance, as a table gains a column each time it meets a new label.
   */
  function FirstSeen(s: seq<string>, n: nat): (d: seq<string>)
    ensures forall x :: x in d <==> LastIndex(s, x, n) >= 0
    ensures forall i, j :: 0 <= i < j < |d| ==> d[i] != d[j]
    ensures forall i, j :: 0 <= i < j < |d| ==> 0 <= FirstIndex(s, d[i], n) < FirstIndex(s, d[j], n)
  {
    if n == 0 then []
    else
      var d := FirstSeen(s, n - 1);
      FirstSeenStep(s, n, d);
      if n - 1 < |s| && s[n - 1] !in d then d + [s[n - 1]] else d
  }

  /** The labels seen before position n - 1 keep their first index when s[n - 1] is met. */
  lemma FirstSeenStep(s: seq<string>, n: nat, d: seq<string>)
    requires n > 0
    requires forall x :: x in d <==> LastIndex(s, x, n - 1) >= 0
    ensures forall x :: x in d ==> 0 <= FirstIndex(s, x, n) == FirstIndex(s, x, n - 1) < n - 1
    ensures n - 1 < |s| && s[n - 1] !in d ==> FirstIndex(s, s[n - 1], n) == n - 1
  {
    forall x | x in d
      ensures 0 <= FirstIndex(s, x, n) == FirstIndex(s, x, n - 1) < n - 1
    {
      var k := LastIndex(s, x, n - 1);
      assert 0 <= k < |s| && s[k] == x;
    }
    if n - 1 < |s| && s[n - 1] !in d {
      var x := s[n - 1];
      assert LastIndex(s, x, n - 1) < 0;
      assert FirstIndex(s, x, n - 1) < 0;
    }
  }

  /** Without repetitions, the first-seen order of `s[..n]` is `s[..n]` itself. */
  lemma {:induction false} FirstSeenDistinct(s: seq<string>, n: nat)
    requires n <= |s|
    requires forall i, j :: 0 <= i < j < n ==> s[i] != s[j]
    ensures FirstSeen(s, n) == s[..n]
  {
    if n > 0 {
      FirstSeenDistinct(s, n - 1);
      assert s[..n] == s[..n - 1] + [s[n - 1]];
      assert s[n - 1] !in s[..n - 1];
    }
  }

  /** In a sequence without repetitions, the last index of `s[i]` is `i`. */
  lemma LastIndexOfDistinct(s: seq<string>, n: nat, i: nat)
    requires n <= |s| && i < n
    requires forall a, b :: 0 <= a < b < n ==> s[a] != s[b]
    ensures LastIndex(s, s[i], n) == i
  {
  }
}
