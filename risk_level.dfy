/** The five risk levels of the 5x5 likelihood x severity matrix. */
module RiskLevels {
  import opened KotlinInt

  /** Declared in this order; `Score` is the level's rank 1..5. */
  datatype RiskLevel = Low | Medium | High | VeryHigh | Extreme {

    /** The enum constant's `name`. */
    function Name(): string {
      match this
      case Low => "LOW"
      case Medium => "MEDIUM"
      case High => "HIGH"
      case VeryHigh => "VERY_HIGH"
      case Extreme => "EXTREME"
    }

    function DisplayName(): string {
      match this
      case Low => "Low Risk"
      case Medium => "Medium Risk"
      case High => "High Risk"
      case VeryHigh => "Very High Risk"
      case Extreme => "Extreme Risk"
    }

    function Score(): (r: int)
      ensures 1 <= r <= 5
    {
      match this
      case Low => 1
      case Medium => 2
      case High => 3
      case VeryHigh => 4
      case Extreme => 5
    }
  }

  /** The enum's `values()`, in declaration order. */
  const Values: seq<RiskLevel> := [Low, Medium, High, VeryHigh, Extreme]

  /** Band of a likelihood x severity score; everything outside 1..20, zero and
      negative scores included, falls into the last branch. */
  function FromScore(score: int): (r: RiskLevel)
    ensures r == Extreme <==> score < 1 || score > 20
  {
    if 1 <= score <= 4 then Low
    else if 5 <= score <= 9 then Medium
    else if 10 <= score <= 15 then High
    else if 16 <= score <= 20 then VeryHigh
    else Extreme
  }

  /** Level of a likelihood and a severity: the band of their (32-bit) product. */
  function Calculate(likelihood: int32, severity: int32): (r: RiskLevel)
    ensures MIN_VALUE <= likelihood as int * severity as int <= MAX_VALUE ==>
      r == FromScore(likelihood as int * severity as int)
  {
    FromScore(Times(likelihood, severity) as int)
  }

  /** The four bands, each in both directions. */
  lemma FromScoreBands(score: int)
    ensures FromScore(score) == Low <==> 1 <= score <= 4
    ensures FromScore(score) == Medium <==> 5 <= score <= 9
    ensures FromScore(score) == High <==> 10 <= score <= 15
    ensures FromScore(score) == VeryHigh <==> 16 <= score <= 20
  {
  }

  /** Exactly the scores outside 1..20 are extreme. */
  lemma FromScoreExtreme(score: int)
    ensures FromScore(score) == Extreme <==> score < 1 || score > 20
  {
  }

  /** On positive scores the band never goes down as the score goes up. */
  lemma FromScoreMonotone(a: int, b: int)
    requires 1 <= a <= b
    ensures FromScore(a).Score() <= FromScore(b).Score()
  {
  }

  /** Likelihood and severity play symmetric roles. */
  lemma CalculateCommutes(likelihood: int32, severity: int32)
    ensures Calculate(likelihood, severity) == Calculate(severity, likelihood)
  {
    TimesCommutes(likelihood, severity);
  }

  /** The level of an in-range product is the band of the product itself. */
  lemma CalculateInRange(likelihood: int32, severity: int32)
    requires MIN_VALUE <= likelihood as int * severity as int <= MAX_VALUE
    ensures Calculate(likelihood, severity) == FromScore(likelihood as int * severity as int)
  {
  }

  /** `Score` ranks the levels 1..5 in declaration order; the display names
      and the names are pairwise distinct. */
  lemma DeclarationOrder()
    ensures forall i :: 0 <= i < |Values| ==> Values[i].Score() == i + 1
    ensures forall i, j :: 0 <= i < j < |Values| ==>
      Values[i].DisplayName() != Values[j].DisplayName() && Values[i].Name() != Values[j].Name()
    ensures forall r: RiskLevel :: r in Values
  {
    forall r: RiskLevel ensures r in Values {
      assert Values[r.Score() - 1] == r;
    }
  }

  /** The worked examples of the unit tests. */
  lemma TestedExamples()
    ensures FromScore(1) == Low && FromScore(4) == Low
    ensures FromScore(5) == Medium && FromScore(9) == Medium
    ensures FromScore(10) == High && FromScore(15) == High
    ensures FromScore(16) == VeryHigh && FromScore(20) == VeryHigh
    ensures FromScore(21) == Extreme && FromScore(25) == Extreme
    ensures Calculate(1, 1) == Low && Calculate(2, 3) == Medium && Calculate(3, 4) == High
    ensures Calculate(4, 4) == VeryHigh && Calculate(5, 5) == Extreme
    ensures Low.DisplayName() == "Low Risk" && Low.Score() == 1
    ensures Medium.DisplayName() == "Medium Risk" && Medium.Score() == 2
    ensures High.DisplayName() == "High Risk" && High.Score() == 3
  {
  }
}
