/** One-pass performance metrics against their definitions, and the permutation Monte Carlo. */
module Metrics {
  import opened Common

  // ---------- Equity curve and drawdown ----------

  /** Equity after the first i results. */
  function Cum(pnl: seq<real>, i: nat): real
    requires i <= |pnl|
  {
    if i == 0 then 0.0 else Cum(pnl, i - 1) + pnl[i - 1]
  }

  /** No fall between two points numbered from..n exceeds dd. */
  ghost predicate FallsWithin(pnl: seq<real>, from: nat, n: nat, dd: real)
    requires n <= |pnl|
  {
    forall i, j :: from <= i <= j <= n ==> Cum(pnl, i) - Cum(pnl, j) <= dd
  }

  /** dd is the largest fall of the curve from an earlier point, points numbered from `from`. */
  ghost predicate IsMaxDrawdown(pnl: seq<real>, from: nat, dd: real) {
    FallsWithin(pnl, from, |pnl|, dd) && exists i, j :: from <= i <= j <= |pnl| && Cum(pnl, i) - Cum(pnl, j) == dd
  }

  /** Highest point of the curve among from..n. */
  function Top(pnl: seq<real>, from: nat, n: nat): real
    requires from <= n <= |pnl|
  {
    if n == from then Cum(pnl, n) else Max(Top(pnl, from, n - 1), Cum(pnl, n))
  }

  /** Largest fall from a running peak among the points from..n: what the loops accumulate. */
  function WorstFall(pnl: seq<real>, from: nat, n: nat): real
    requires from <= n <= |pnl|
  {
    if n == from then 0.0 else Max(WorstFall(pnl, from, n - 1), Top(pnl, from, n) - Cum(pnl, n))
  }

  lemma {:induction false} TopBounds(pnl: seq<real>, from: nat, n: nat, i: nat)
    requires from <= i <= n <= |pnl|
    ensures Cum(pnl, i) <= Top(pnl, from, n)
  {
    if i < n { TopBounds(pnl, from, n - 1, i); }
  }

  lemma {:induction false} TopAttained(pnl: seq<real>, from: nat, n: nat) returns (i: nat)
    requires from <= n <= |pnl|
    ensures from <= i <= n && Cum(pnl, i) == Top(pnl, from, n)
  {
    i := n;
    if n > from && Top(pnl, from, n) != Cum(pnl, n) { i := TopAttained(pnl, from, n - 1); }
  }

  lemma {:induction false} WorstFallBounds(pnl: seq<real>, from: nat, n: nat, i: nat, j: nat)
    requires from <= i <= j <= n <= |pnl|
    ensures Cum(pnl, i) - Cum(pnl, j) <= WorstFall(pnl, from, n) && WorstFall(pnl, from, n) >= 0.0
    decreases n
  {
    if n > from {
      if j < n {
        WorstFallBounds(pnl, from, n - 1, i, j);
      } else {
        TopBounds(pnl, from, n, i);
        WorstFallBounds(pnl, from, n - 1, from, from);
      }
    }
  }

  lemma {:induction false} WorstFallAttained(pnl: seq<real>, from: nat, n: nat) returns (i: nat, j: nat)
    requires from <= n <= |pnl|
    ensures from <= i <= j <= n && Cum(pnl, i) - Cum(pnl, j) == WorstFall(pnl, from, n)
  {
    i, j := n, n;
    if n > from {
      if WorstFall(pnl, from, n) == WorstFall(pnl, from, n - 1) {
        i, j := WorstFallAttained(pnl, from, n - 1);
      } else {
        i := TopAttained(pnl, from, n);
      }
    }
  }

  /** The accumulated fall is the maximal drawdown. */
  lemma WorstFallIsMaxDrawdown(pnl: seq<real>, from: nat)
    requires from <= |pnl|
    ensures IsMaxDrawdown(pnl, from, WorstFall(pnl, from, |pnl|))
  {
    forall i: nat, j: nat | from <= i <= j <= |pnl|
      ensures Cum(pnl, i) - Cum(pnl, j) <= WorstFall(pnl, from, |pnl|)
    {
      WorstFallBounds(pnl, from, |pnl|, i, j);
    }
    var i, j := WorstFallAttained(pnl, from, |pnl|);
  }

  /** Running-peak drawdown whose peak starts at the first equity point, as several of the scripts compute it. */
  method RunningDrawdown(pnl: seq<real>) returns (maxDd: real)
    requires pnl != []
    ensures IsMaxDrawdown(pnl, 1, maxDd) && maxDd == WorstFall(pnl, 1, |pnl|)
  {
    var equity, cum := [], 0.0;
    for k := 0 to |pnl|
      invariant |equity| == k && cum == Cum(pnl, k)
      invariant forall i :: 0 <= i < k ==> equity[i] == Cum(pnl, i + 1)
    {
      cum := cum + pnl[k];
      equity := equity + [cum];
    }
    var peak := equity[0];
    maxDd := 0.0;
    for k := 0 to |equity|
      invariant peak == Top(pnl, 1, if k == 0 then 1 else k)
      invariant maxDd == WorstFall(pnl, 1, if k == 0 then 1 else k) >= 0.0
    {
      var v := equity[k];
      if v > peak { peak := v; }
      var dd := peak - v;
      if dd > maxDd { maxDd := dd; }
    }
    WorstFallIsMaxDrawdown(pnl, 1);
  }

  /** Yearly drawdown: peak and equity both start at zero, and the result is reported as a negative number. */
  method ZeroStartDrawdown(pnl: seq<real>) returns (maxDd: real)
    ensures IsMaxDrawdown(pnl, 0, -maxDd)
  {
    var equity, peak := 0.0, 0.0;
    maxDd := 0.0;
    for k := 0 to |pnl|
      invariant equity == Cum(pnl, k) && peak == Top(pnl, 0, k) && maxDd == -WorstFall(pnl, 0, k)
    {
      equity := equity + pnl[k];
      peak := Max(peak, equity);
      maxDd := Min(maxDd, equity - peak);
    }
    WorstFallIsMaxDrawdown(pnl, 0);
  }

  /** low is the lowest point of the curve, the start at zero included. */
  ghost predicate IsLowest(pnl: seq<real>, low: real) {
    (forall j :: 0 <= j <= |pnl| ==> low <= Cum(pnl, j)) && (exists j :: 0 <= j <= |pnl| && low == Cum(pnl, j))
  }

  /** The yearly figure is the running-peak one or the depth below zero, whichever is larger: the two scripts
      agree exactly when the curve never falls further below its start than from a later peak. */
  lemma ZeroStartRelated(pnl: seq<real>, d: real, z: real, low: real)
    requires pnl != [] && IsMaxDrawdown(pnl, 1, d) && IsMaxDrawdown(pnl, 0, z) && IsLowest(pnl, low)
    ensures z == Max(d, -low)
    ensures z == d <==> -low <= d
  {
    var i, j :| 1 <= i <= j <= |pnl| && Cum(pnl, i) - Cum(pnl, j) == d;
    assert d <= z;
    var m :| 0 <= m <= |pnl| && low == Cum(pnl, m);
    assert Cum(pnl, 0) - Cum(pnl, m) <= z;
    var a, b :| 0 <= a <= b <= |pnl| && Cum(pnl, a) - Cum(pnl, b) == z;
    assert Cum(pnl, 0) == 0.0;
    assert low <= Cum(pnl, b);
    if a > 0 {
      assert z <= d;
    }
  }

  /** One losing trade: the running-peak figure does not see it, the yearly one does. */
  lemma FirstLossIsMissed()
    ensures IsMaxDrawdown([-1.0], 1, 0.0) && IsMaxDrawdown([-1.0], 0, 1.0)
  {
    var pnl := [-1.0];
    assert Cum(pnl, 0) == 0.0 && Cum(pnl, 1) == -1.0;
    assert Cum(pnl, 1) - Cum(pnl, 1) == 0.0 && Cum(pnl, 0) - Cum(pnl, 1) == 1.0;
  }

  // ---------- Streaks ----------

  datatype TradeResult = WIN | LOSS | TIMEOUT | OTHER

  predicate Losing(result: TradeResult) { result == LOSS || result == TIMEOUT }

  /** All results in [i, j) are losing, or all are not. */
  ghost predicate IsRun(results: seq<TradeResult>, losing: bool, i: nat, j: nat) {
    i <= j <= |results| && forall k :: i <= k < j ==> Losing(results[k]) == losing
  }

  ghost predicate RunsWithin(results: seq<TradeResult>, losing: bool, n: nat, len: nat) {
    forall i: nat, j: nat :: j <= n && IsRun(results, losing, i, j) ==> j - i <= len
  }

  /** len is the length of the longest contiguous run of the kind among the first n results. */
  ghost predicate IsLongestRun(results: seq<TradeResult>, losing: bool, n: nat, len: nat) {
    RunsWithin(results, losing, n, len) &&
    exists i: nat, j: nat :: j <= n && IsRun(results, losing, i, j) && j - i == len
  }

  /** cur is the length of the run of the kind that ends at n. */
  ghost predicate IsCurrentRun(results: seq<TradeResult>, losing: bool, n: nat, cur: nat)
    requires n <= |results|
  {
    cur <= n && IsRun(results, losing, n - cur, n) && (cur < n ==> Losing(results[n - cur - 1]) != losing)
  }

  /** A run that ends after m either starts inside the current run or would extend past its beginning. */
  lemma RunsClose(results: seq<TradeResult>, losing: bool, m: nat, n: nat, len: nat, cur: nat, i: nat, j: nat)
    requires n <= |results| && cur <= n && (m == n - cur || m + 1 == n)
    requires IsCurrentRun(results, losing, n, cur) && RunsWithin(results, losing, m, len)
    requires j <= n && IsRun(results, losing, i, j)
    ensures j - i <= if cur > len then cur else len
  {
  }

  /** Taking the run that ends at n into account extends the maximum from m to n, when m is where that run
      starts or the point before n. */
  lemma LongestCloses(results: seq<TradeResult>, losing: bool, m: nat, n: nat, len: nat, cur: nat)
    requires n <= |results| && IsCurrentRun(results, losing, n, cur) && IsLongestRun(results, losing, m, len)
    requires m == n - cur || m + 1 == n
    ensures IsLongestRun(results, losing, n, if cur > len then cur else len)
  {
    forall i: nat, j: nat | j <= n && IsRun(results, losing, i, j) ensures j - i <= if cur > len then cur else len {
      RunsClose(results, losing, m, n, len, cur, i, j);
    }
    var i: nat, j: nat :| j <= m && IsRun(results, losing, i, j) && j - i == len;
    assert IsRun(results, losing, n - cur, n);
  }

  /** What the four counters mean after n trades; the losing maximum lags behind by the open losing streak. */
  ghost predicate StreakState(results: seq<TradeResult>, n: nat, current: nat, currentWin: nat,
                              maxLosing: nat, maxWin: nat)
  {
    n <= |results| && current <= n &&
    IsCurrentRun(results, true, n, current) && IsCurrentRun(results, false, n, currentWin) &&
    IsLongestRun(results, true, n - current, maxLosing) && IsLongestRun(results, false, n, maxWin)
  }

  function Larger(x: nat, y: nat): nat { if x >= y then x else y }

  lemma LosingTrade(results: seq<TradeResult>, n: nat, current: nat, currentWin: nat, maxLosing: nat, maxWin: nat)
    requires n < |results| && Losing(results[n]) && StreakState(results, n, current, currentWin, maxLosing, maxWin)
    ensures StreakState(results, n + 1, current + 1, 0, maxLosing, maxWin)
  {
    LongestCloses(results, false, n, n + 1, maxWin, 0);
  }

  lemma WinningTrade(results: seq<TradeResult>, n: nat, current: nat, currentWin: nat, maxLosing: nat, maxWin: nat)
    requires n < |results| && !Losing(results[n]) && StreakState(results, n, current, currentWin, maxLosing, maxWin)
    ensures StreakState(results, n + 1, 0, currentWin + 1, Larger(maxLosing, current), Larger(maxWin, currentWin + 1))
  {
    LongestCloses(results, true, n - current, n, maxLosing, current);
    LongestCloses(results, true, n, n + 1, Larger(maxLosing, current), 0);
    LongestCloses(results, false, n, n + 1, maxWin, currentWin + 1);
  }

  method Streaks(results: seq<TradeResult>) returns (maxLosing: nat, maxWin: nat)
    ensures IsLongestRun(results, true, |results|, maxLosing)
    ensures IsLongestRun(results, false, |results|, maxWin)
  {
    var current, currentWin := 0, 0;
    maxLosing, maxWin := 0, 0;
    assert IsRun(results, true, 0, 0) && IsRun(results, false, 0, 0);
    for n := 0 to |results|
      invariant StreakState(results, n, current, currentWin, maxLosing, maxWin)
    {
      if results[n] == LOSS || results[n] == TIMEOUT {
        LosingTrade(results, n, current, currentWin, maxLosing, maxWin);
        current := current + 1;
        currentWin := 0;
      } else {
        WinningTrade(results, n, current, currentWin, maxLosing, maxWin);
        currentWin := currentWin + 1;
        maxLosing := Larger(maxLosing, current);
        current := 0;
      }
      maxWin := Larger(maxWin, currentWin);
    }
    LongestCloses(results, true, |results| - current, |results|, maxLosing, current);
    maxLosing := Larger(maxLosing, current);
  }

  /** A time-out counts as a loss, and any other result than these two does not. */
  lemma StreakExample()
    ensures var results := [LOSS, TIMEOUT, WIN, OTHER, WIN];
      IsLongestRun(results, true, 5, 2) && IsLongestRun(results, false, 5, 3)
  {
    var results := [LOSS, TIMEOUT, WIN, OTHER, WIN];
    assert Losing(results[0]) && Losing(results[1]);
    assert !Losing(results[2]) && !Losing(results[3]) && !Losing(results[4]);
    assert IsRun(results, true, 0, 2) && IsRun(results, false, 2, 5);
  }

  // ---------- Permutation Monte Carlo ----------

  function LossOf(r: real): real { Max(0.0, -r) }

  function Losses(pnl: seq<real>): seq<real> {
    seq(|pnl|, i requires 0 <= i < |pnl| => LossOf(pnl[i]))
  }

  /** The sum of all negative results, taken positive. */
  function GrossLoss(pnl: seq<real>): real { Sum(Losses(pnl)) }

  lemma GrossLossMiddle(u: seq<real>, x: real, v: seq<real>)
    ensures GrossLoss(u + [x] + v) == GrossLoss(u + v) + LossOf(x)
  {
    assert Losses(u + [x] + v) == Losses(u) + [LossOf(x)] + Losses(v) && Losses(u + v) == Losses(u) + Losses(v);
    SumMiddle(Losses(u), LossOf(x), Losses(v));
  }

  lemma {:induction false} GrossLossPermutation(a: seq<real>, b: seq<real>)
    requires multiset(a) == multiset(b)
    ensures GrossLoss(a) == GrossLoss(b)
    decreases |a|
  {
    if a == [] {
      assert |multiset(b)| == 0;
    } else {
      var x, a' := a[|a| - 1], a[..|a| - 1];
      assert a == a' + [x];
      assert x in multiset(b);
      var i :| 0 <= i < |b| && b[i] == x;
      var u, v := b[..i], b[i + 1..];
      assert b == u + [x] + v;
      DropOccurrence(a', x, u, v);
      GrossLossPermutation(a', u + v);
      GrossLossMiddle(u, x, v);
      GrossLossMiddle(a', x, []);
      assert a' + [x] + [] == a && a' + [] == a';
    }
  }

  lemma {:induction false} CumIsSum(pnl: seq<real>, i: nat)
    requires i <= |pnl|
    ensures Cum(pnl, i) == Sum(pnl[..i])
  {
    if i > 0 {
      CumIsSum(pnl, i - 1);
      assert pnl[..i][..i - 1] == pnl[..i - 1];
    }
  }

  lemma GrossLossAppend(pnl: seq<real>, x: real)
    ensures GrossLoss(pnl + [x]) == GrossLoss(pnl) + LossOf(x)
  {
    GrossLossMiddle(pnl, x, []);
    assert pnl + [x] + [] == pnl + [x] && pnl + [] == pnl;
  }

  /** Each result adds its own loss. */
  lemma GrossLossStep(pnl: seq<real>, k: nat)
    requires k < |pnl|
    ensures GrossLoss(pnl[..k + 1]) == GrossLoss(pnl[..k]) + LossOf(pnl[k])
  {
    GrossLossAppend(pnl[..k], pnl[k]);
    assert pnl[..k] + [pnl[k]] == pnl[..k + 1];
  }

  lemma {:induction false} FallIsLoss(pnl: seq<real>, i: nat, j: nat)
    requires i <= j <= |pnl|
    ensures Cum(pnl, i) - Cum(pnl, j) <= GrossLoss(pnl[..j]) - GrossLoss(pnl[..i]) && GrossLoss(pnl[..i]) >= 0.0
    decreases j
  {
    if j > i {
      FallIsLoss(pnl, i, j - 1);
      GrossLossStep(pnl, j - 1);
    } else if i > 0 {
      FallIsLoss(pnl, i - 1, j - 1);
      GrossLossStep(pnl, i - 1);
    }
  }

  lemma {:induction false} GrossLossGrows(pnl: seq<real>, j: nat)
    requires j <= |pnl|
    ensures GrossLoss(pnl[..j]) <= GrossLoss(pnl)
    decreases |pnl| - j
  {
    if j < |pnl| {
      GrossLossGrows(pnl, j + 1);
      GrossLossStep(pnl, j);
    } else {
      assert pnl[..j] == pnl;
    }
  }

  /** No drawdown exceeds the total of all losses. */
  lemma DrawdownWithinGrossLoss(pnl: seq<real>, from: nat, dd: real)
    requires IsMaxDrawdown(pnl, from, dd)
    ensures 0.0 <= dd <= GrossLoss(pnl)
  {
    var i: nat, j: nat :| from <= i <= j <= |pnl| && Cum(pnl, i) - Cum(pnl, j) == dd;
    assert Cum(pnl, i) - Cum(pnl, i) <= dd;
    FallIsLoss(pnl, i, j);
    GrossLossGrows(pnl, j);
  }

  lemma FinalIsTotal(arr: seq<real>, shuffled: seq<real>)
    requires multiset(shuffled) == multiset(arr)
    ensures |shuffled| == |arr| && Cum(shuffled, |shuffled|) == Sum(arr)
  {
    assert |multiset(shuffled)| == |shuffled| && |multiset(arr)| == |arr|;
    CumIsSum(shuffled, |shuffled|);
    assert shuffled[..|shuffled|] == shuffled;
    SumPermutation(shuffled, arr);
  }

  /** Pointwise lower envelope of the equity curves seen so far; None stands for plus infinity. */
  ghost predicate IsEnvelope(n: nat, paths: seq<seq<real>>, worst: seq<Option<real>>) {
    |worst| == n && (forall p :: p in paths ==> |p| == n) &&
    (forall k :: 0 <= k < n ==> worst[k].None? == (paths == [])) &&
    (forall k, i :: 0 <= k < n && 0 <= i < |paths| ==> worst[k].value <= Cum(paths[i], k + 1)) &&
    (forall k :: 0 <= k < n && paths != [] ==> exists i :: 0 <= i < |paths| && worst[k].value == Cum(paths[i], k + 1))
  }

  method LowerEnvelope(n: nat, ghost paths: seq<seq<real>>, worst: seq<Option<real>>, path: seq<real>)
    returns (lower: seq<Option<real>>)
    requires IsEnvelope(n, paths, worst) && |path| == n
    ensures IsEnvelope(n, paths + [path], lower)
  {
    var cum := 0.0;
    lower := [];
    for k := 0 to n
      invariant cum == Cum(path, k) && |lower| == k
      invariant forall j :: 0 <= j < k ==>
        lower[j] == Some(if worst[j].Some? && worst[j].value <= Cum(path, j + 1) then worst[j].value
                         else Cum(path, j + 1))
    {
      cum := cum + path[k];
      lower := lower + [Some(if worst[k].Some? && worst[k].value <= cum then worst[k].value else cum)];
    }
    ghost var all := paths + [path];
    forall k | 0 <= k < n
      ensures exists i :: 0 <= i < |all| && lower[k].value == Cum(all[i], k + 1)
    {
      if lower[k].value == Cum(path, k + 1) {
        assert all[|paths|] == path;
      } else {
        var i :| 0 <= i < |paths| && worst[k].value == Cum(paths[i], k + 1);
        assert all[i] == paths[i];
      }
    }
  }

  /** dd is the path's own maximal drawdown, and no worse than losing every losing trade in a row. */
  ghost predicate DrawdownReported(arr: seq<real>, path: seq<real>, dd: real) {
    IsMaxDrawdown(path, 1, dd) && 0.0 <= dd <= GrossLoss(arr)
  }

  /** Drawdown and final equity of one shuffle. */
  method OneShuffle(arr: seq<real>, shuffled: seq<real>) returns (dd: real, last: real)
    requires arr != [] && multiset(shuffled) == multiset(arr)
    ensures |shuffled| == |arr| && last == Sum(arr) && dd == WorstFall(shuffled, 1, |shuffled|)
  {
    FinalIsTotal(arr, shuffled);
    dd := RunningDrawdown(shuffled);
    last := 0.0;
    for k := 0 to |shuffled|
      invariant last == Cum(shuffled, k)
    {
      last := last + shuffled[k];
    }
  }

  /** The permutation Monte Carlo on arbitrary shuffles; the source gathers both results in one pass. */
  method MonteCarlo(arr: seq<real>, shuffles: seq<seq<real>>)
    returns (maxDds: seq<real>, finalRs: seq<real>, worst: seq<Option<real>>)
    requires arr != [] && forall s :: s in shuffles ==> multiset(s) == multiset(arr)
    ensures |maxDds| == |finalRs| == |shuffles|
    ensures forall i :: 0 <= i < |shuffles| ==> finalRs[i] == Sum(arr)
    ensures forall i :: 0 <= i < |shuffles| ==> DrawdownReported(arr, shuffles[i], maxDds[i])
    ensures IsEnvelope(|arr|, shuffles, worst)
    ensures shuffles != [] ==> worst[|arr| - 1] == Some(Sum(arr))
  {
    maxDds, finalRs := ShuffleStatistics(arr, shuffles);
    worst := WorstEquity(|arr|, arr, shuffles);
    forall i | 0 <= i < |shuffles| ensures DrawdownReported(arr, shuffles[i], maxDds[i]) {
      assert shuffles[i] in shuffles;
      ShuffleDrawdown(arr, shuffles[i]);
    }
    if shuffles != [] { EnvelopeEnds(arr, shuffles, worst); }
  }

  method ShuffleStatistics(arr: seq<real>, shuffles: seq<seq<real>>) returns (maxDds: seq<real>, finalRs: seq<real>)
    requires arr != [] && forall s :: s in shuffles ==> multiset(s) == multiset(arr)
    ensures |maxDds| == |finalRs| == |shuffles|
    ensures forall j :: 0 <= j < |shuffles| ==> finalRs[j] == Sum(arr)
    ensures forall j :: 0 <= j < |shuffles| ==>
      shuffles[j] != [] && maxDds[j] == WorstFall(shuffles[j], 1, |shuffles[j]|)
  {
    maxDds, finalRs := [], [];
    for i := 0 to |shuffles|
      invariant |maxDds| == |finalRs| == i
      invariant forall j :: 0 <= j < i ==> finalRs[j] == Sum(arr)
      invariant forall j :: 0 <= j < i ==> shuffles[j] != [] && maxDds[j] == WorstFall(shuffles[j], 1, |shuffles[j]|)
    {
      assert shuffles[i] in shuffles;
      var dd, last := OneShuffle(arr, shuffles[i]);
      maxDds, finalRs := maxDds + [dd], finalRs + [last];
    }
  }

  method WorstEquity(n: nat, arr: seq<real>, shuffles: seq<seq<real>>) returns (worst: seq<Option<real>>)
    requires n == |arr| && forall s :: s in shuffles ==> multiset(s) == multiset(arr)
    ensures IsEnvelope(n, shuffles, worst)
  {
    worst := seq(n, _ => None);
    for i := 0 to |shuffles|
      invariant IsEnvelope(n, shuffles[..i], worst)
    {
      assert shuffles[i] in shuffles;
      FinalIsTotal(arr, shuffles[i]);
      worst := LowerEnvelope(n, shuffles[..i], worst, shuffles[i]);
      assert shuffles[..i] + [shuffles[i]] == shuffles[..i + 1];
    }
    assert shuffles[..|shuffles|] == shuffles;
  }

  lemma ShuffleDrawdown(arr: seq<real>, shuffled: seq<real>)
    requires shuffled != [] && multiset(shuffled) == multiset(arr)
    ensures DrawdownReported(arr, shuffled, WorstFall(shuffled, 1, |shuffled|))
  {
    WorstFallIsMaxDrawdown(shuffled, 1);
    GrossLossPermutation(shuffled, arr);
    DrawdownWithinGrossLoss(shuffled, 1, WorstFall(shuffled, 1, |shuffled|));
  }

  lemma EnvelopeEnds(arr: seq<real>, shuffles: seq<seq<real>>, worst: seq<Option<real>>)
    requires arr != [] && shuffles != [] && IsEnvelope(|arr|, shuffles, worst)
    requires forall s :: s in shuffles ==> multiset(s) == multiset(arr)
    ensures worst[|arr| - 1] == Some(Sum(arr))
  {
    var k := |arr| - 1;
    var i :| 0 <= i < |shuffles| && worst[k].value == Cum(shuffles[i], k + 1);
    assert shuffles[i] in shuffles;
    FinalIsTotal(arr, shuffles[i]);
  }
}
