/** The outcome of one assessment and the queries the results screen makes on it. */
module Assessments {
  import opened KotlinInt
  import opened RiskLevels
  import opened HazardTypes
  import opened Hazards
  import opened Lists

  /** `timestamp` (a `java.util.Date`) is milliseconds since the epoch; `id` and
      `timestamp` are the caller's, since their defaults draw on a random UUID and the
      clock. */
  datatype AssessmentResult = AssessmentResult(
    id: string,
    timestamp: int,
    imagePath: string,
    hazards: seq<Hazard>,
    overallRiskLevel: RiskLevel,
    analysisTimeMs: int)
  {
    function HasHazards(): (r: bool)
      ensures r <==> |hazards| > 0
    {
      hazards != []
    }

    /** `maxOfOrNull { riskScore } ?: 0`. */
    function HighestRiskScore(): (r: int32)
      ensures hazards == [] ==> r == 0
      ensures forall h :: h in hazards ==> h.RiskScore() <= r
      ensures hazards != [] ==> exists h :: h in hazards && h.RiskScore() == r
    {
      MaxRiskScore(hazards)
    }

    /** `flatMap { getRecommendations() }.distinct()`. */
    function AllRecommendations(): (r: seq<string>)
      ensures |r| <= 5 * |hazards|
    {
      Distinct(FlatRecommendations(hazards))
    }

    function Summary(): (r: string)
      ensures !HasHazards() ==> r == NoHazardsSummary
      ensures HasHazards() ==> r == LevelSummary(overallRiskLevel)
    {
      if !HasHazards() then NoHazardsSummary
      else LevelSummary(overallRiskLevel)
    }

    /** `groupBy { riskLevel }`: one group per level that occurs, each holding exactly
        the hazards of that level. */
    function HazardsByRiskLevel(): (m: map<RiskLevel, seq<Hazard>>)
      ensures forall l :: l in m <==> exists h :: h in hazards && h.Level() == l
      ensures forall l :: l in m ==> m[l] != []
      ensures forall l, h :: l in m ==> (h in m[l] <==> h in hazards && h.Level() == l)
    {
      AllGroupMembers(hazards);
      map l | l in LevelsOf(hazards) :: WithLevel(hazards, l)
    }
  }

  /** The largest risk score of a non-empty list, 0 for an empty one. */
  function MaxRiskScore(hs: seq<Hazard>): (r: int32)
    ensures hs == [] ==> r == 0
    ensures forall i :: 0 <= i < |hs| ==> hs[i].RiskScore() <= r
    ensures hs != [] ==> exists i :: 0 <= i < |hs| && hs[i].RiskScore() == r
  {
    if |hs| == 0 then 0
    else if |hs| == 1 then hs[0].RiskScore()
    else
      var best := MaxRiskScore(hs[..|hs| - 1]);
      var last := hs[|hs| - 1].RiskScore();
      if last > best then last else best
  }

  /** The recommendations of every hazard, in list order, duplicates kept. */
  function FlatRecommendations(hs: seq<Hazard>): (r: seq<string>)
    ensures |r| == 5 * |hs|
  {
    if hs == [] then []
    else FlatRecommendations(hs[..|hs| - 1]) + hs[|hs| - 1].Recommendations()
  }

  /** The types of the hazards, in list order. */
  function TypesOf(hs: seq<Hazard>): (r: seq<HazardType>)
    ensures |r| == |hs|
    ensures forall i :: 0 <= i < |hs| ==> r[i] == hs[i].hazardType
  {
    if hs == [] then []
    else TypesOf(hs[..|hs| - 1]) + [hs[|hs| - 1].hazardType]
  }

  /** The recommendation blocks of a list of types, one after the other. */
  function TypeRecommendations(ts: seq<HazardType>): (r: seq<string>)
    ensures |r| == 5 * |ts|
  {
    if ts == [] then []
    else TypeRecommendations(ts[..|ts| - 1]) + RecommendationsFor(ts[|ts| - 1])
  }

  /** The recommendations of a type present in the list all occur in the flat list. */
  lemma {:induction false} PresentTypeRecommendations(hs: seq<Hazard>, t: HazardType, i: int)
    requires t in TypesOf(hs) && 0 <= i < 5
    ensures RecommendationsFor(t)[i] in FlatRecommendations(hs)
  {
    var n := |hs| - 1;
    var prefix := FlatRecommendations(hs[..n]);
    assert TypesOf(hs) == TypesOf(hs[..n]) + [hs[n].hazardType];
    if t in TypesOf(hs[..n]) {
      PresentTypeRecommendations(hs[..n], t, i);
      var k := FirstIndex(prefix, RecommendationsFor(t)[i]);
      assert FlatRecommendations(hs)[k] == prefix[k];
    } else {
      assert FlatRecommendations(hs)[|prefix| + i] == RecommendationsFor(t)[i];
    }
  }

  /** The recommendations of a type absent from the list occur nowhere in the flat list:
      no text is shared between two types. */
  lemma {:induction false} AbsentTypeRecommendations(hs: seq<Hazard>, t: HazardType, i: int)
    requires t !in TypesOf(hs) && 0 <= i < 5
    ensures RecommendationsFor(t)[i] !in FlatRecommendations(hs)
  {
    if hs != [] {
      var n := |hs| - 1;
      var u := hs[n].hazardType;
      assert TypesOf(hs) == TypesOf(hs[..n]) + [u];
      AbsentTypeRecommendations(hs[..n], t, i);
      forall j | 0 <= j < 5
        ensures RecommendationsFor(u)[j] != RecommendationsFor(t)[i]
      {
        RecommendationsDistinct(t, u, i, j);
      }
    }
  }

  /** `getAllRecommendations` is the five recommendations of each hazard type present,
      block by block, in the order the types first occur in the list. */
  lemma {:induction false} AllRecommendationsByType(hs: seq<Hazard>)
    ensures Distinct(FlatRecommendations(hs)) == TypeRecommendations(Distinct(TypesOf(hs)))
  {
    if hs != [] {
      var n := |hs| - 1;
      var p, t := hs[..n], hs[n].hazardType;
      AllRecommendationsByType(p);
      assert TypesOf(hs) == TypesOf(p) + [t];
      assert FlatRecommendations(hs) == FlatRecommendations(p) + RecommendationsFor(t);
      DistinctSnoc(TypesOf(p), t);
      DistinctMembers(TypesOf(p), t);
      if t in TypesOf(p) {
        PresentBlockVanishes(p, t);
      } else {
        AbsentBlockKept(p, t);
        TypeRecommendationsSnoc(Distinct(TypesOf(p)), t);
      }
    }
  }

  /** The block of a type already present adds nothing new to `distinct()`. */
  lemma PresentBlockVanishes(p: seq<Hazard>, t: HazardType)
    requires t in TypesOf(p)
    ensures Distinct(FlatRecommendations(p) + RecommendationsFor(t)) == Distinct(FlatRecommendations(p))
  {
    var flat, block := FlatRecommendations(p), RecommendationsFor(t);
    forall i | 0 <= i < |block|
      ensures block[i] in flat
    {
      PresentTypeRecommendations(p, t, i);
    }
    DistinctAppendPresent(flat, block);
  }

  /** The block of a new type survives `distinct()` whole. */
  lemma AbsentBlockKept(p: seq<Hazard>, t: HazardType)
    requires t !in TypesOf(p)
    ensures Distinct(FlatRecommendations(p) + RecommendationsFor(t)) ==
      Distinct(FlatRecommendations(p)) + RecommendationsFor(t)
  {
    var flat, block := FlatRecommendations(p), RecommendationsFor(t);
    forall i | 0 <= i < |block|
      ensures block[i] !in flat
    {
      AbsentTypeRecommendations(p, t, i);
    }
    FreshBlock(flat, block);
    DistinctAppendFresh(flat, block);
  }

  lemma TypeRecommendationsSnoc(ts: seq<HazardType>, t: HazardType)
    ensures TypeRecommendations(ts + [t]) == TypeRecommendations(ts) + RecommendationsFor(t)
  {
    assert (ts + [t])[..|ts + [t]| - 1] == ts;
  }

  /** `getAllRecommendations` has five entries per hazard type present. */
  lemma AllRecommendationsCount(a: AssessmentResult)
    ensures |a.AllRecommendations()| == 5 * |set h | h in a.hazards :: h.hazardType|
  {
    AllRecommendationsByType(a.hazards);
    DistinctCardinality(TypesOf(a.hazards));
    TypeSet(a.hazards);
  }

  /** The elements of `TypesOf` are the types of the hazards. */
  lemma TypeSet(hs: seq<Hazard>)
    ensures (set x | x in TypesOf(hs)) == (set h | h in hs :: h.hazardType)
  {
    var ts := TypesOf(hs);
    forall x | x in ts
      ensures x in (set h | h in hs :: h.hazardType)
    {
      var k := FirstIndex(ts, x);
      assert hs[k] in hs;
    }
    forall h | h in hs
      ensures h.hazardType in ts
    {
      var k := FirstIndex(hs, h);
      assert ts[k] == h.hazardType;
    }
  }

  /** `getAllRecommendations` holds exactly the recommendations of the hazards present,
      each once, ordered by first occurrence. */
  lemma AllRecommendationsContents(a: AssessmentResult, x: string)
    ensures x in a.AllRecommendations() <==>
      exists h :: h in a.hazards && x in h.Recommendations()
    ensures NoDuplicates(a.AllRecommendations())
  {
    DistinctMembers(FlatRecommendations(a.hazards), x);
    DistinctNoDuplicates(FlatRecommendations(a.hazards));
    FlatRecommendationsMembers(a.hazards, x);
  }

  lemma {:induction false} FlatRecommendationsMembers(hs: seq<Hazard>, x: string)
    ensures x in FlatRecommendations(hs) <==> exists h :: h in hs && x in h.Recommendations()
  {
    if hs != [] {
      var n := |hs| - 1;
      var p, last := hs[..n], hs[n];
      FlatRecommendationsMembers(p, x);
      MembersOfInit(hs);
      if x in FlatRecommendations(p) {
        var h :| h in p && x in h.Recommendations();
        assert h in hs;
      } else if x in last.Recommendations() {
        assert last in hs;
      } else {
        forall h | h in hs
          ensures x !in h.Recommendations()
        {
          assert h in p || h == last;
        }
      }
    }
  }

  const NoHazardsSummary: string :=
    "No significant hazards detected. Continue regular safety monitoring."
  const LowSummary: string :=
    "Low risk environment detected. Maintain current safety standards."
  const MediumSummary: string :=
    "Medium risk hazards identified. Review and implement recommended controls."
  const HighSummary: string :=
    "High risk hazards present. Immediate action required to implement controls."
  const VeryHighSummary: string :=
    "Very high risk environment. Urgent intervention required. Consider stopping work until controls are in place."
  const ExtremeSummary: string :=
    "Extreme risk detected. Stop work immediately and evacuate if necessary. Consult safety professionals before resuming operations."

  /** The summary line for an assessment with hazards, chosen by its overall level. */
  function LevelSummary(level: RiskLevel): (r: string)
    ensures r != NoHazardsSummary
  {
    match level
    case Low => LowSummary
    case Medium => MediumSummary
    case High => HighSummary
    case VeryHigh => VeryHighSummary
    case Extreme => ExtremeSummary
  }

  /** The six summary texts differ, so the summary tells whether hazards were found and,
      if they were, the overall level. */
  lemma SummaryDetermines(a: AssessmentResult, b: AssessmentResult)
    requires a.Summary() == b.Summary()
    ensures a.HasHazards() == b.HasHazards()
    ensures a.HasHazards() ==> a.overallRiskLevel == b.overallRiskLevel
  {
    if a.HasHazards() && b.HasHazards() {
      assert |LevelSummary(a.overallRiskLevel)| == |LevelSummary(b.overallRiskLevel)|;
    }
  }

  /** The levels that occur in a hazard list. */
  function LevelsOf(hs: seq<Hazard>): (r: set<RiskLevel>)
    ensures forall l :: l in r <==> exists h :: h in hs && h.Level() == l
  {
    set h | h in hs :: h.Level()
  }

  /** The hazards of one level, in list order. */
  function WithLevel(hs: seq<Hazard>, l: RiskLevel): (r: seq<Hazard>)
    ensures |r| <= |hs|
  {
    if hs == [] then []
    else
      var n := |hs| - 1;
      WithLevel(hs[..n], l) + (if hs[n].Level() == l then [hs[n]] else [])
  }

  /** A group holds exactly the hazards of its level. */
  lemma {:induction false} WithLevelMembers(hs: seq<Hazard>, l: RiskLevel, h: Hazard)
    ensures h in WithLevel(hs, l) <==> h in hs && h.Level() == l
  {
    if hs != [] {
      var n := |hs| - 1;
      WithLevelMembers(hs[..n], l, h);
      assert hs == hs[..n] + [hs[n]];
    }
  }

  lemma AllGroupMembers(hs: seq<Hazard>)
    ensures forall l, h :: h in WithLevel(hs, l) <==> h in hs && h.Level() == l
  {
    forall l, h {
      WithLevelMembers(hs, l, h);
    }
  }

  /** Grouping keeps the original order: the group of a concatenation is the group of
      the first part followed by the group of the second. */
  lemma {:induction false} WithLevelAppend(a: seq<Hazard>, b: seq<Hazard>, l: RiskLevel)
    ensures WithLevel(a + b, l) == WithLevel(a, l) + WithLevel(b, l)
  {
    if b == [] {
      assert a + b == a;
    } else {
      var n := |b| - 1;
      WithLevelAppend(a, b[..n], l);
      AppendInit(a, b);
    }
  }

  /** The groups split the list: their sizes add up to its length. */
  lemma {:induction false} GroupsPartition(hs: seq<Hazard>)
    ensures |WithLevel(hs, Low)| + |WithLevel(hs, Medium)| + |WithLevel(hs, High)|
      + |WithLevel(hs, VeryHigh)| + |WithLevel(hs, Extreme)| == |hs|
  {
    if hs != [] {
      GroupsPartition(hs[..|hs| - 1]);
    }
  }
}
