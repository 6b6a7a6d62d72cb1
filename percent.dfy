/** Percentages as the pages compute them: `Math.round(done / total * 100)`,
    which is NaN when both counts are zero. */
module Percent {
  import opened Wrappers

  /** `Math.round(k / n * 100)` for counts, computed exactly: half-up
      rounding of the rational 100k/n. */
  function RoundPercent(k: nat, n: nat): nat
    requires n > 0
  {
    (200 * k + n) / (2 * n)
  }

  /** The same value with a zero denominator giving a non-number (None). */
  function RoundedShare(k: nat, n: nat): Option<nat> {
    if n == 0 then None else Some(RoundPercent(k, n))
  }

  /** What `Math.round(k / n * 100)` gives for two counts: a rounded
      number, NaN for 0/0, or Infinity for k/0 with k > 0. */
  datatype Percentage = Rounded(value: nat) | NotANumber | Infinity

  /** `Math.round(k / n * 100)` where nothing bounds k by n. */
  function PercentOf(k: nat, n: nat): Percentage {
    if n > 0 then Rounded(RoundPercent(k, n))
    else if k == 0 then NotANumber
    else Infinity
  }

  /** Whenever both are defined, the two readings of a share agree; they
      part only on k/0 with k > 0, which is Infinity and not NaN. */
  lemma PercentOfAgrees(k: nat, n: nat)
    ensures PercentOf(k, n).Rounded? <==> RoundedShare(k, n).Some?
    ensures PercentOf(k, n).Rounded? ==> PercentOf(k, n).value == RoundedShare(k, n).value
    ensures PercentOf(k, n).NotANumber? <==> k == 0 && RoundedShare(k, n).None?
    ensures PercentOf(k, n).Infinity? <==> k > 0 && RoundedShare(k, n).None?
  {
  }

  /** The result is the integer nearest to 100k/n, halves rounded up:
      r - 1/2 <= 100k/n < r + 1/2, multiplied through by 2n. */
  lemma RoundPercentIsNearest(k: nat, n: nat)
    requires n > 0
    ensures 2 * n * RoundPercent(k, n) - n <= 200 * k < 2 * n * RoundPercent(k, n) + n
  {
    var q := (200 * k + n) / (2 * n);
    var m := (200 * k + n) % (2 * n);
    assert 200 * k + n == 2 * n * q + m;
  }

  /** Only one integer is within half a unit of 100k/n in that sense, so
      `RoundPercent` is the rounding `Math.round` performs. */
  lemma {:induction false} NearestIsUnique(k: nat, n: nat, r: int)
    requires n > 0
    requires 2 * n * r - n <= 200 * k < 2 * n * r + n
    ensures r == RoundPercent(k, n)
  {
    var q: int := RoundPercent(k, n);
    RoundPercentIsNearest(k, n);
    assert 2 * n * (r - q) < 2 * n;
    assert 2 * n * (q - r) < 2 * n;
    BelowUnit(2 * n, r - q);
    BelowUnit(2 * n, q - r);
  }

  /** A multiple of a positive number that stays below it has a factor
      below one. */
  lemma BelowUnit(c: int, d: int)
    requires c > 0 && c * d < c
    ensures d < 1
  {
  }

  /** A share of at most the whole rounds to at most 100; nothing done is 0 %. */
  lemma {:induction false} RoundPercentInRange(k: nat, n: nat)
    requires n > 0 && k <= n
    ensures 0 <= RoundPercent(k, n) <= 100
    ensures k == 0 ==> RoundPercent(k, n) == 0
    ensures k == n ==> RoundPercent(k, n) == 100
  {
    RoundPercentIsNearest(k, n);
    var r: int := RoundPercent(k, n);
    assert 2 * n * (r - 100) < 2 * n;
    BelowUnit(2 * n, r - 100);
    if k == 0 {
      NearestIsUnique(k, n, 0);
    }
    if k == n {
      NearestIsUnique(k, n, 100);
    }
  }

  /** 100 % is reached exactly when what is left undone is at most half a
      percent of the whole: 200 (n - k) <= n. */
  lemma {:induction false} HundredIff(k: nat, n: nat)
    requires n > 0 && k <= n
    ensures RoundPercent(k, n) == 100 <==> 200 * (n - k) <= n
  {
    RoundPercentIsNearest(k, n);
    if 200 * (n - k) <= n {
      NearestIsUnique(k, n, 100);
    }
  }

  /** Below 200 items, 100 % means every item is done. */
  lemma {:induction false} HundredMeansAllDone(k: nat, n: nat)
    requires 0 < n < 200 && k <= n
    ensures RoundPercent(k, n) == 100 <==> k == n
  {
    HundredIff(k, n);
  }

  /** From 200 items up, one item undone still rounds to 100 %:
      199 of 200 is 99.5 %, which rounds up. */
  lemma OneShortRoundsToHundred(n: nat)
    requires n >= 200
    ensures RoundPercent(n - 1, n) == 100
  {
    HundredIff(n - 1, n);
  }
}
