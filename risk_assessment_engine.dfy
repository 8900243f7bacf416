/** The overall risk of an assessment: a priority rule over the highest score, the
    truncated mean score and the number of hazards at each of the top levels. */
module RiskAssessment {
  import opened KotlinInt
  import opened RiskLevels
  import opened Hazards
  import opened Assessments
  import opened Lists

  /** Sum of `f` over a hazard list. `count { … }` is the sum of an indicator, and
      `map { riskScore }.average()` divides the sum of the scores. */
  function SumOf(f: Hazard -> int, hs: seq<Hazard>): (r: int)
    ensures (forall h :: f(h) >= 0) ==> r >= 0
  {
    if hs == [] then 0 else SumOf(f, hs[..|hs| - 1]) + f(hs[|hs| - 1])
  }

  function Score(h: Hazard): int {
    h.RiskScore() as int
  }

  function IsAt(l: RiskLevel): Hazard -> int {
    (h: Hazard) => if h.Level() == l then 1 else 0
  }

  /** `count { it.riskLevel == l }`. */
  function CountAt(hs: seq<Hazard>, l: RiskLevel): (r: int)
    ensures 0 <= r <= |hs|
  {
    CountBound(hs, l);
    SumOf(IsAt(l), hs)
  }

  lemma {:induction false} CountBound(hs: seq<Hazard>, l: RiskLevel)
    ensures 0 <= SumOf(IsAt(l), hs) <= |hs|
  {
    if hs != [] {
      CountBound(hs[..|hs| - 1], l);
    }
  }

  /** `toInt()` of a quotient: division rounding toward zero, whatever the sign. */
  function TruncDiv(a: int, n: int): (r: int)
    requires n > 0
    ensures a >= 0 ==> 0 <= r && r * n <= a < (r + 1) * n
    ensures a < 0 ==> r <= 0 && (r - 1) * n < a <= r * n
  {
    if a >= 0 then
      DivBounds(a, n);
      a / n
    else
      DivBounds(-a, n);
      -((-a) / n)
  }

  /** Euclidean division of a non-negative number: the quotient brackets it. */
  lemma DivBounds(a: int, n: int)
    requires a >= 0 && n > 0
    ensures 0 <= a / n && (a / n) * n <= a < (a / n + 1) * n
  {
    var q, m := a / n, a % n;
    assert a == q * n + m && 0 <= m < n;
    assert (q + 1) * n == q * n + n;
  }

  /** The mean of the scores, truncated toward zero. */
  function MeanScore(hs: seq<Hazard>): (r: int)
    requires hs != []
    ensures SumOf(Score, hs) >= 0 ==> 0 <= r && r * |hs| <= SumOf(Score, hs) < (r + 1) * |hs|
  {
    TruncDiv(SumOf(Score, hs), |hs|)
  }

  /** `calculateOverallRisk`. */
  function OverallRisk(hs: seq<Hazard>): (r: RiskLevel)
    ensures hs == [] ==> r == Low
  {
    if hs == [] then Low
    else
      Rule(MaxRiskScore(hs) as int, MeanScore(hs),
        CountAt(hs, Extreme), CountAt(hs, VeryHigh), CountAt(hs, High))
  }

  /** The priority rule of `calculateOverallRisk`, on its five aggregates; the first
      condition that holds decides. */
  function Rule(maxScore: int, mean: int, extreme: int, veryHigh: int, high: int): (r: RiskLevel)
    ensures r == Extreme <==> extreme > 0 || maxScore >= 20
    ensures maxScore >= 16 || veryHigh >= 2 ==> r.Score() >= VeryHigh.Score()
    ensures maxScore >= 10 || veryHigh >= 1 || high >= 2 ==> r.Score() >= High.Score()
    ensures high >= 1 || mean >= 6 ==> r != Low
  {
    if extreme > 0 || maxScore >= 20 then Extreme
    else if veryHigh >= 2 || maxScore >= 16 then VeryHigh
    else if veryHigh >= 1 || high >= 2 || maxScore >= 10 then High
    else if high >= 1 || mean >= 6 then Medium
    else Low
  }

  /** A count is positive exactly when some hazard is at that level. */
  lemma {:induction false} CountPositive(hs: seq<Hazard>, l: RiskLevel)
    ensures CountAt(hs, l) > 0 <==> exists i :: 0 <= i < |hs| && hs[i].Level() == l
  {
    if hs != [] {
      var n := |hs| - 1;
      CountPositive(hs[..n], l);
      CountBound(hs[..n], l);
      if exists i :: 0 <= i < n && hs[..n][i].Level() == l {
        var i :| 0 <= i < n && hs[..n][i].Level() == l;
        assert hs[i].Level() == l;
      }
      if exists i :: 0 <= i < |hs| && hs[i].Level() == l {
        var i :| 0 <= i < |hs| && hs[i].Level() == l;
        if i < n {
          assert hs[..n][i].Level() == l;
        }
      }
    }
  }

  /** Two hazards at a level make its count at least two. */
  lemma CountTwo(hs: seq<Hazard>, l: RiskLevel, i: int, j: int)
    requires 0 <= i < j < |hs| && hs[i].Level() == l && hs[j].Level() == l
    ensures CountAt(hs, l) >= 2
  {
    var rest := hs[..j] + hs[j + 1..];
    SumOfRemove(IsAt(l), hs, j);
    assert rest[i] == hs[i];
    CountPositive(rest, l);
  }

  lemma {:induction false} SumOfAppend(f: Hazard -> int, a: seq<Hazard>, b: seq<Hazard>)
    ensures SumOf(f, a + b) == SumOf(f, a) + SumOf(f, b)
  {
    if b == [] {
      assert a + b == a;
    } else {
      var n := |b| - 1;
      SumOfAppend(f, a, b[..n]);
      assert (a + b)[..|a + b| - 1] == a + b[..n];
    }
  }

  /** Taking out one hazard takes its term out of the sum. */
  lemma SumOfRemove(f: Hazard -> int, s: seq<Hazard>, k: int)
    requires 0 <= k < |s|
    ensures SumOf(f, s) == SumOf(f, s[..k] + s[k + 1..]) + f(s[k])
  {
    var a, x, b := s[..k], s[k], s[k + 1..];
    SplitAt(s, k);
    SumOfAppend(f, a + [x], b);
    SumOfAppend(f, a, [x]);
    SumOfAppend(f, a, b);
    SumOfSingle(f, x);
  }

  lemma SumOfSingle(f: Hazard -> int, x: Hazard)
    ensures SumOf(f, [x]) == f(x)
  {
    assert [x][..0] == [];
  }

  /** Sums do not depend on the order of the list. */
  lemma {:induction false} SumOfPermutation(f: Hazard -> int, s: seq<Hazard>, t: seq<Hazard>)
    requires multiset(s) == multiset(t)
    ensures SumOf(f, s) == SumOf(f, t)
    decreases |s|
  {
    if s != [] {
      var n := |s| - 1;
      var x := s[n];
      assert s == s[..n] + [x];
      assert x in multiset(t);
      var k :| 0 <= k < |t| && t[k] == x;
      var rest := t[..k] + t[k + 1..];
      assert t == t[..k] + [x] + t[k + 1..];
      assert multiset(t) == multiset(t[..k]) + multiset([x]) + multiset(t[k + 1..]);
      assert multiset(s) == multiset(s[..n]) + multiset([x]);
      assert multiset(rest) == multiset(t[..k]) + multiset(t[k + 1..]);
      assert multiset(s[..n]) == multiset(s) - multiset([x]);
      assert multiset(rest) == multiset(t) - multiset([x]);
      SumOfPermutation(f, s[..n], rest);
      SumOfRemove(f, t, k);
    } else {
      assert |t| == |multiset(t)| == 0;
    }
  }

  /** The highest score depends only on which scores occur. */
  lemma MaxPermutation(s: seq<Hazard>, t: seq<Hazard>)
    requires multiset(s) == multiset(t)
    ensures MaxRiskScore(s) == MaxRiskScore(t)
  {
    if s != [] {
      assert |t| == |multiset(t)| == |multiset(s)| == |s|;
      var i :| 0 <= i < |s| && s[i].RiskScore() == MaxRiskScore(s);
      var j :| 0 <= j < |t| && t[j].RiskScore() == MaxRiskScore(t);
      assert s[i] in multiset(t);
      assert t[j] in multiset(s);
    } else {
      assert |t| == |multiset(t)| == 0;
    }
  }

  /** The overall level does not depend on the order of the hazards. */
  lemma OverallRiskPermutation(s: seq<Hazard>, t: seq<Hazard>)
    requires multiset(s) == multiset(t)
    ensures OverallRisk(s) == OverallRisk(t)
  {
    assert |s| == |multiset(s)| == |multiset(t)| == |t|;
    MaxPermutation(s, t);
    SumOfPermutation(Score, s, t);
    SumOfPermutation(IsAt(Extreme), s, t);
    SumOfPermutation(IsAt(VeryHigh), s, t);
    SumOfPermutation(IsAt(High), s, t);
  }

  /** The truncated mean reaches 6 exactly when the sum reaches six times the count. */
  lemma MeanThreshold(hs: seq<Hazard>)
    requires hs != []
    ensures MeanScore(hs) >= 6 <==> SumOf(Score, hs) >= 6 * |hs|
  {
    var a, n := SumOf(Score, hs), |hs|;
    var r := TruncDiv(a, n);
    MulMonotone(r + 1, 6, n);
    MulMonotone(6, r, n);
  }

  lemma MulMonotone(x: int, y: int, n: int)
    requires n > 0
    ensures x <= y ==> x * n <= y * n
  {
  }

  /** The result is EXTREME exactly when some hazard is EXTREME or some score reaches
      20, so a lone 4 x 5 hazard, VERY_HIGH on its own, makes the assessment EXTREME. */
  lemma ExtremeRule(hs: seq<Hazard>)
    ensures OverallRisk(hs) == Extreme <==>
      exists i :: 0 <= i < |hs| && (hs[i].Level() == Extreme || hs[i].RiskScore() >= 20)
  {
    CountPositive(hs, Extreme);
    if hs != [] && MaxRiskScore(hs) >= 20 {
      var i :| 0 <= i < |hs| && hs[i].RiskScore() == MaxRiskScore(hs);
    }
  }

  /** Two VERY_HIGH hazards or a score of at least 16 give at least VERY_HIGH. */
  lemma AtLeastVeryHigh(hs: seq<Hazard>, i: int, j: int)
    requires 0 <= i < |hs| && 0 <= j < |hs|
    requires (i < j && hs[i].Level() == VeryHigh && hs[j].Level() == VeryHigh)
      || hs[i].RiskScore() >= 16
    ensures OverallRisk(hs).Score() >= VeryHigh.Score()
  {
    if i < j && hs[i].Level() == VeryHigh && hs[j].Level() == VeryHigh {
      CountTwo(hs, VeryHigh, i, j);
    }
  }

  /** One VERY_HIGH hazard, two HIGH hazards or a score of at least 10 give at least
      HIGH. */
  lemma AtLeastHigh(hs: seq<Hazard>, i: int, j: int)
    requires 0 <= i < |hs| && 0 <= j < |hs|
    requires hs[i].Level() == VeryHigh
      || (i < j && hs[i].Level() == High && hs[j].Level() == High)
      || hs[i].RiskScore() >= 10
    ensures OverallRisk(hs).Score() >= High.Score()
  {
    CountPositive(hs, VeryHigh);
    if i < j && hs[i].Level() == High && hs[j].Level() == High {
      CountTwo(hs, High, i, j);
    }
  }

  /** One HIGH hazard, or a truncated mean of at least 6, give at least MEDIUM. */
  lemma AtLeastMedium(hs: seq<Hazard>, i: int)
    requires 0 <= i < |hs|
    requires hs[i].Level() == High || SumOf(Score, hs) >= 6 * |hs|
    ensures OverallRisk(hs).Score() >= Medium.Score()
  {
    CountPositive(hs, High);
    MeanThreshold(hs);
  }

  /** A hazard at HIGH or above caps the overall level from below. */
  lemma AtLeastEachSevereHazard(hs: seq<Hazard>, i: int)
    requires 0 <= i < |hs| && hs[i].Level().Score() >= High.Score()
    ensures OverallRisk(hs).Score() >= hs[i].Level().Score()
  {
    CountPositive(hs, Extreme);
    LevelIsBandOfScore(hs[i]);
    FromScoreBands(hs[i].RiskScore() as int);
  }

  /** With no level at HIGH or above and no score reaching 10, the mean decides
      between MEDIUM and LOW; so a lone MEDIUM hazard scoring 5 gives LOW. */
  lemma LoneScoreFive(h: Hazard)
    requires h.RiskScore() == 5
    ensures OverallRisk([h]) == Low
  {
    var hs := [h];
    assert hs[..0] == [];
    LevelIsBandOfScore(h);
    assert h.Level() == Medium;
    assert MaxRiskScore(hs) == 5;
    assert IsAt(Extreme)(h) == 0 && IsAt(VeryHigh)(h) == 0 && IsAt(High)(h) == 0;
    assert SumOf(IsAt(Extreme), hs) == 0 && SumOf(IsAt(VeryHigh), hs) == 0;
    assert SumOf(IsAt(High), hs) == 0;
    assert SumOf(Score, hs) == 5;
    assert MeanScore(hs) == 5;
  }
}
