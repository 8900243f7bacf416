/** The Room type converter that stores a risk level as the name of its enum constant. */
module Converters {
  import opened Wrappers
  import opened RiskLevels
  import opened Text

  /** `RiskLevel.valueOf(name)`: the constant with exactly this name. Any other string
      makes `valueOf` throw; the error carries the rejected string. */
  function ValueOf(name: string): (r: Result<RiskLevel, string>)
    ensures r.Ok? ==> r.value.Name() == name
    ensures r.Err? ==> r.error == name && forall l: RiskLevel :: l.Name() != name
  {
    SearchByName(Values, name)
  }

  /** The first level of `levels` named `name`. */
  function SearchByName(levels: seq<RiskLevel>, name: string): (r: Result<RiskLevel, string>)
    requires forall l: RiskLevel :: l.Name() == name ==> l in levels
    ensures r.Ok? ==> r.value.Name() == name
    ensures r.Err? ==> r.error == name && forall l: RiskLevel :: l.Name() != name
  {
    if levels == [] then Err(name)
    else if levels[0].Name() == name then Ok(levels[0])
    else SearchByName(levels[1..], name)
  }

  /** `fromRiskLevel`: null stays null, a level becomes its name. */
  function FromRiskLevel(level: Option<RiskLevel>): (r: Option<string>)
    ensures r.None? <==> level.None?
    ensures r.Some? ==> ValueOf(r.value) == Ok(level.value)
  {
    match level
    case None => None
    case Some(l) =>
      NamesIdentifyLevels(l);
      Some(l.Name())
  }

  /** `toRiskLevel`: null stays null, a name becomes its level, and any other string is
      the error `valueOf` throws. */
  function ToRiskLevel(value: Option<string>): (r: Result<Option<RiskLevel>, string>)
    ensures value.None? ==> r == Ok(None)
    ensures value.Some? && r.Ok? ==> r.value.Some? && r.value.value.Name() == value.value
    ensures value.Some? && r.Err? ==> forall l: RiskLevel :: l.Name() != value.value
  {
    match value
    case None => Ok(None)
    case Some(s) =>
      match ValueOf(s)
      case Ok(l) => Ok(Some(l))
      case Err(e) => Err(e)
  }

  /** No two levels share a name: the names have five different lengths. */
  lemma NamesIdentifyLevels(l: RiskLevel)
    ensures forall m: RiskLevel :: m.Name() == l.Name() ==> m == l
  {
    forall m: RiskLevel | m.Name() == l.Name()
      ensures m == l
    {
      assert |m.Name()| == |l.Name()|;
    }
  }

  /** Storing a level and reading it back gives the same level, null included. */
  lemma RoundTrip(level: Option<RiskLevel>)
    ensures ToRiskLevel(FromRiskLevel(level)) == Ok(level)
  {
  }

  /** Reading a stored string back and storing it again gives the same string. */
  lemma RoundTripFromStored(value: Option<string>)
    requires ToRiskLevel(value).Ok?
    ensures FromRiskLevel(ToRiskLevel(value).value) == value
  {
  }

  /** Different levels are stored as different strings. */
  lemma FromRiskLevelInjective(a: Option<RiskLevel>, b: Option<RiskLevel>)
    requires FromRiskLevel(a) == FromRiskLevel(b)
    ensures a == b
  {
    RoundTrip(a);
    RoundTrip(b);
  }

  /** The lookup is case-sensitive, and the display names are not accepted either. */
  lemma OnlyExactNamesAccepted(l: RiskLevel)
    ensures ToRiskLevel(Some(l.DisplayName())).Err?
    ensures ToRiskLevel(Some(Lowercase(l.Name()))).Err?
  {
    var d := l.DisplayName();
    forall m: RiskLevel
      ensures m.Name() != d
    {
      if |m.Name()| == |d| {
        assert m.Name()[0] != d[0];
      }
    }
    var n := l.Name();
    assert IsUpperAscii(n[0]);
    var s := Lowercase(n);
    assert !IsUpperAscii(s[0]);
    forall m: RiskLevel
      ensures m.Name() != s
    {
      assert IsUpperAscii(m.Name()[0]);
    }
  }
}
