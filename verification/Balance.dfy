/** Load balancing, on the numbers of buffers the pool threads hold. */
module Balance {
  import opened Common

  function MaxOf(s: seq<nat>): (m: nat)
    requires |s| > 0
    ensures m in s && forall i :: 0 <= i < |s| ==> s[i] <= m
  {
    if |s| == 1 then s[0] else
      var m := MaxOf(s[1..]);
      assert forall i :: 0 < i < |s| ==> s[i] == s[1..][i - 1];
      if s[0] > m then s[0] else m
  }

  function MinOf(s: seq<nat>): (m: nat)
    requires |s| > 0
    ensures m in s && forall i :: 0 <= i < |s| ==> m <= s[i]
  {
    if |s| == 1 then s[0] else
      var m := MinOf(s[1..]);
      assert forall i :: 0 < i < |s| ==> s[i] == s[1..][i - 1];
      if s[0] < m then s[0] else m
  }

  function Spread(s: seq<nat>): nat
    requires |s| > 0
  {
    MaxOf(s) - MinOf(s)
  }

  /** What std::min_element returns: the first of the smallest. */
  function LeastIndex(s: seq<nat>): (m: nat)
    requires |s| > 0
    ensures m < |s| && (forall i :: 0 <= i < |s| ==> s[m] <= s[i]) && (forall i :: 0 <= i < m ==> s[m] < s[i])
  {
    var n := |s| - 1;
    if n == 0 then 0
    else
      var m := LeastIndex(s[..n]);
      if s[n] < s[m] then n else m
  }

  /** Loading a least thread never raises the spread above the larger of 1 and what it was. */
  lemma AttachKeepsSpread(s: seq<nat>)
    requires |s| > 0
    ensures var m := LeastIndex(s);
      Spread(s[m := s[m] + 1]) <= if Spread(s) > 1 then Spread(s) else 1
  {
    hide MaxOf, MinOf, LeastIndex;
    var m := LeastIndex(s);
    var t := s[m := s[m] + 1];
    var hi :| 0 <= hi < |t| && t[hi] == MaxOf(t);
    var lo :| 0 <= lo < |t| && t[lo] == MinOf(t);
    assert MinOf(s) == s[m];
  }

  /** Sizes after n buffers with new ids have been attached. */
  function Loaded(s: seq<nat>, n: nat): (t: seq<nat>)
    requires |s| > 0
    ensures |t| == |s|
    decreases n
  {
    if n == 0 then s
    else
      var m := LeastIndex(s);
      Loaded(s[m := s[m] + 1], n - 1)
  }

  /** The last buffer goes to the thread least loaded by then. */
  lemma {:induction false} LoadedMore(s: seq<nat>, n: nat)
    requires |s| > 0
    ensures var t := Loaded(s, n);
      var m := LeastIndex(t);
      Loaded(s, n + 1) == t[m := t[m] + 1]
    decreases n
  {
    hide LeastIndex;
    var m := LeastIndex(s);
    var s1 := s[m := s[m] + 1];
    if n == 0 {
      assert Loaded(s, 1) == Loaded(s1, 0);
    } else {
      LoadedMore(s1, n - 1);
    }
  }

  function Sum(s: seq<nat>): nat {
    if s == [] then 0 else s[0] + Sum(s[1..])
  }

  lemma {:induction false} SumUpdate(s: seq<nat>, i: nat, x: nat)
    requires i < |s|
    ensures Sum(s[i := x]) == Sum(s) - s[i] + x
  {
    if i > 0 {
      assert s[i := x][1..] == s[1..][i - 1 := x];
      SumUpdate(s[1..], i - 1, x);
    } else {
      assert s[0 := x][1..] == s[1..];
    }
  }

  lemma {:induction false} LoadedSpread(s: seq<nat>, n: nat)
    requires |s| > 0
    ensures Sum(Loaded(s, n)) == Sum(s) + n
    ensures Spread(Loaded(s, n)) <= if Spread(s) > 1 then Spread(s) else 1
    decreases n
  {
    hide MaxOf, MinOf, LeastIndex, Sum, Spread;
    if n > 0 {
      var m := LeastIndex(s);
      AttachKeepsSpread(s);
      SumUpdate(s, m, s[m] + 1);
      LoadedSpread(s[m := s[m] + 1], n - 1);
    }
  }

  lemma {:induction false} SumBounds(s: seq<nat>, lo: nat, hi: nat)
    requires forall i :: 0 <= i < |s| ==> lo <= s[i] <= hi
    ensures lo * |s| <= Sum(s) <= hi * |s|
  {
    if s != [] {
      SumBounds(s[1..], lo, hi);
      OneMore(lo, |s|);
      OneMore(hi, |s|);
    }
  }

  lemma OneMore(x: nat, n: nat)
    requires n > 0
    ensures x * n == x + x * (n - 1)
  {
  }

  function NoLoad(k: nat): (s: seq<nat>)
    ensures |s| == k && forall i :: 0 <= i < k ==> s[i] == 0
  {
    seq(k, _ => 0)
  }

  lemma {:induction false} ZeroSpread(n: nat)
    requires n > 0
    ensures Spread(NoLoad(n)) == 0 && Sum(NoLoad(n)) == 0
  {
    SumBounds(NoLoad(n), 0, 0);
  }

  /** An attach-only run from an empty pool of k threads gives every thread its even share of
      the n buffers, rounded down or up. */
  lemma LoadedIsEven(k: nat, n: nat, i: nat)
    requires i < k
    ensures var t := Loaded(NoLoad(k), n);
      n / k <= t[i] <= n / k + 1 && (n % k == 0 ==> t[i] == n / k)
  {
    var t := Loaded(NoLoad(k), n);
    ZeroSpread(k);
    LoadedSpread(NoLoad(k), n);
    EvenShare(k, n, t, MinOf(t));
  }

  /** n = lo*k + (how many hold lo + 1) and at least one holds lo, so lo is n / k. */
  lemma EvenShare(k: nat, n: nat, t: seq<nat>, lo: nat)
    requires k > 0 && |t| == k && Sum(t) == n && lo in t
    requires forall i :: 0 <= i < k ==> lo <= t[i] <= lo + 1
    ensures n / k == lo
    ensures n % k == 0 ==> forall i :: 0 <= i < k ==> t[i] == lo
  {
    var j :| 0 <= j < k && t[j] == lo;
    SumBounds(t[j := lo + 1], lo, lo + 1);
    SumUpdate(t, j, lo + 1);
    SumBounds(t, lo, lo + 1);
    assert lo * k <= n < (lo + 1) * k;
    DivisionIs(n, k, lo);
    if n % k == 0 && exists i :: 0 <= i < k && t[i] != lo {
      var i :| 0 <= i < k && t[i] != lo;
      SumUpdate(t, i, lo);
      SumBounds(t[i := lo], lo, lo + 1);
      assert false;
    }
  }

  lemma LeastOfOne(s: seq<nat>)
    requires |s| == 1
    ensures LeastIndex(s) == 0
  {
  }

  lemma LeastExtend(s: seq<nat>, x: nat)
    requires |s| > 0
    ensures LeastIndex(s + [x]) == if x < s[LeastIndex(s)] then |s| else LeastIndex(s)
  {
    assert (s + [x])[..|s|] == s;
  }
}
