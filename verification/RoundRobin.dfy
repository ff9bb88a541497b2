/** Round-robin probing: every eligible member is probed once per round. */
module RoundRobin {

  /** The first eligible position at or after `i`, or the length if there is none. */
  function From(ok: seq<bool>, i: nat): (r: nat)
    ensures r <= |ok|
    decreases |ok| - i
  {
    if i >= |ok| then |ok| else if ok[i] then i else From(ok, i + 1)
  }

  /** The position after `probeIdx` in the round, starting over at the end; the length means nobody. */
  function Next(ok: seq<bool>, probeIdx: int): nat
    requires probeIdx >= -1
  {
    var i := From(ok, probeIdx + 1);
    if i < |ok| then i else From(ok, 0)
  }

  /** How many of the first `i` positions are eligible. */
  function Count(ok: seq<bool>, i: nat): nat
    requires i <= |ok|
  {
    if i == 0 then 0 else Count(ok, i - 1) + (if ok[i - 1] then 1 else 0)
  }

  lemma {:induction false} CountGrows(ok: seq<bool>, i: nat, j: nat)
    requires i <= j <= |ok|
    ensures Count(ok, i) <= Count(ok, j)
    ensures i < j && ok[i] ==> Count(ok, i) < Count(ok, j)
    decreases j
  {
    if i < j {
      CountGrows(ok, i, j - 1);
    }
  }

  lemma {:induction false} FromFinds(ok: seq<bool>, i: nat)
    ensures From(ok, i) < |ok| ==> ok[From(ok, i)] && i <= From(ok, i)
    ensures i <= |ok| ==> i <= From(ok, i) && Count(ok, From(ok, i)) == Count(ok, i)
    decreases |ok| - i
  {
    if i < |ok| && !ok[i] {
      FromFinds(ok, i + 1);
    }
  }

  /** The rank a round reaches next: one more than before, or 0 after the last. */
  function After(rank: nat, k: nat): nat {
    if rank + 1 < k then rank + 1 else 0
  }

  lemma {:induction false} FirstRank(ok: seq<bool>, probeIdx: int)
    requires probeIdx >= -1 && Count(ok, |ok|) > 0
    ensures var i := Next(ok, probeIdx);
            && i < |ok| && ok[i]
            && (probeIdx < |ok| && Count(ok, probeIdx + 1) < Count(ok, |ok|) ==>
                  Count(ok, i) == Count(ok, probeIdx + 1) && probeIdx < i)
            && (probeIdx >= |ok| || Count(ok, probeIdx + 1) == Count(ok, |ok|) ==> Count(ok, i) == 0)
  {
    FromFinds(ok, probeIdx + 1);
    FromFinds(ok, 0);
    if probeIdx + 1 <= |ok| && From(ok, probeIdx + 1) < |ok| {
      CountGrows(ok, From(ok, probeIdx + 1), |ok|);
    }
  }

  lemma {:induction false} NextRank(ok: seq<bool>, i: nat)
    requires i < |ok| && ok[i]
    ensures var j := Next(ok, i);
            j < |ok| && ok[j] && Count(ok, j) == After(Count(ok, i), Count(ok, |ok|))
  {
    CountGrows(ok, i, |ok|);
    CountGrows(ok, i + 1, |ok|);
    FirstRank(ok, i);
  }

  /** The search fails exactly when nobody is eligible. */
  lemma FailsIffNobody(ok: seq<bool>, probeIdx: int)
    requires probeIdx >= -1
    ensures Next(ok, probeIdx) == |ok| <==> forall i :: 0 <= i < |ok| ==> !ok[i]
    ensures Next(ok, probeIdx) < |ok| ==> ok[Next(ok, probeIdx)]
  {
    FromFinds(ok, probeIdx + 1);
    FromFinds(ok, 0);
    if i :| 0 <= i < |ok| && ok[i] {
      CountGrows(ok, i, |ok|);
    }
  }

  /** The position found by call number `n` of a series, the first being number 0. */
  function Probe(ok: seq<bool>, probeIdx: int, n: nat): nat
    requires probeIdx >= -1
  {
    if n == 0 then Next(ok, probeIdx) else Next(ok, Probe(ok, probeIdx, n - 1))
  }

  /** The rank reached `n` calls after rank `r`. */
  function Shift(r: nat, n: nat, k: nat): nat {
    if r + n < k then r + n else r + n - k
  }

  lemma {:induction false} ProbeRank(ok: seq<bool>, probeIdx: int, n: nat)
    requires probeIdx >= -1 && n < Count(ok, |ok|)
    ensures var k, i := Count(ok, |ok|), Probe(ok, probeIdx, n);
            && i < |ok| && ok[i] && Count(ok, Next(ok, probeIdx)) < k
            && Count(ok, i) == Shift(Count(ok, Next(ok, probeIdx)), n, k)
  {
    if n == 0 {
      FirstRank(ok, probeIdx);
      CountGrows(ok, Next(ok, probeIdx), |ok|);
    } else {
      ProbeRank(ok, probeIdx, n - 1);
      NextRank(ok, Probe(ok, probeIdx, n - 1));
    }
  }

  lemma {:induction false} SameRankSamePlace(ok: seq<bool>, i: nat, j: nat)
    requires i < |ok| && j < |ok| && ok[i] && ok[j] && Count(ok, i) == Count(ok, j)
    ensures i == j
  {
    if i < j {
      CountGrows(ok, i, j);
    } else if j < i {
      CountGrows(ok, j, i);
    }
  }

  /** In any `k` calls in a row with `k` eligible members, from any position, even one past the end,
      each eligible member is found exactly once. */
  lemma RoundIsFair(ok: seq<bool>, probeIdx: int, e: nat)
    requires probeIdx >= -1 && e < |ok| && ok[e]
    ensures exists n: nat :: n < Count(ok, |ok|) && Probe(ok, probeIdx, n) == e
                             && forall m: nat :: m < Count(ok, |ok|) && Probe(ok, probeIdx, m) == e ==> m == n
  {
    CountGrows(ok, e, |ok|);
    var k, rank := Count(ok, |ok|), Count(ok, e);
    ProbeRank(ok, probeIdx, 0);
    var r := Count(ok, Next(ok, probeIdx));
    var n: nat := if r <= rank then rank - r else rank + k - r;
    ProbeRank(ok, probeIdx, n);
    SameRankSamePlace(ok, Probe(ok, probeIdx, n), e);
    forall m: nat | m < k && Probe(ok, probeIdx, m) == e ensures m == n {
      ProbeRank(ok, probeIdx, m);
    }
  }
}
