/** The fixed taxonomy of workplace hazards and its case-insensitive lookup. */
module HazardTypes {
  import opened Text
  import opened Wrappers

  datatype HazardType =
    | SlipTripFall | Electrical | Chemical | Fire | Machinery | Height
    | Ergonomic | PpeMissing | StruckBy | ConfinedSpace | Other
  {
    /** The enum constant's `name`. */
    function Name(): string {
      match this
      case SlipTripFall => "SLIP_TRIP_FALL"
      case Electrical => "ELECTRICAL"
      case Chemical => "CHEMICAL"
      case Fire => "FIRE"
      case Machinery => "MACHINERY"
      case Height => "HEIGHT"
      case Ergonomic => "ERGONOMIC"
      case PpeMissing => "PPE_MISSING"
      case StruckBy => "STRUCK_BY"
      case ConfinedSpace => "CONFINED_SPACE"
      case Other => "OTHER"
    }

    function DisplayName(): string {
      match this
      case SlipTripFall => "Slip, Trip & Fall"
      case Electrical => "Electrical Hazard"
      case Chemical => "Chemical Exposure"
      case Fire => "Fire Hazard"
      case Machinery => "Machinery Risk"
      case Height => "Working at Height"
      case Ergonomic => "Ergonomic Issue"
      case PpeMissing => "PPE Missing"
      case StruckBy => "Struck By Object"
      case ConfinedSpace => "Confined Space"
      case Other => "Other Hazard"
    }

    function Description(): string {
      match this
      case SlipTripFall => "Potential for slipping, tripping, or falling hazards"
      case Electrical => "Exposed wiring, electrical equipment, or shock risks"
      case Chemical => "Presence of hazardous chemicals or substances"
      case Fire => "Flammable materials or ignition sources"
      case Machinery => "Moving machinery or equipment without proper guarding"
      case Height => "Elevated work areas or fall protection concerns"
      case Ergonomic => "Poor posture, repetitive strain, or manual handling risks"
      case PpeMissing => "Required personal protective equipment not in use"
      case StruckBy => "Risk of being hit by moving or falling objects"
      case ConfinedSpace => "Limited entry/exit or atmospheric hazards"
      case Other => "General workplace safety concern"
    }

    /** Position in declaration order. */
    function Ordinal(): (r: nat)
      ensures r < |Values| && Values[r] == this
    {
      match this
      case SlipTripFall => 0
      case Electrical => 1
      case Chemical => 2
      case Fire => 3
      case Machinery => 4
      case Height => 5
      case Ergonomic => 6
      case PpeMissing => 7
      case StruckBy => 8
      case ConfinedSpace => 9
      case Other => 10
    }

    /** The test inside `fromString`'s `find`. */
    predicate Matches(value: string) {
      EqualsIgnoreCase(Name(), value) || EqualsIgnoreCase(DisplayName(), value)
    }
  }

  /** The enum's `values()`, in declaration order. */
  const Values: seq<HazardType> :=
    [SlipTripFall, Electrical, Chemical, Fire, Machinery, Height,
     Ergonomic, PpeMissing, StruckBy, ConfinedSpace, Other]

  /** `types.find { it.Matches(value) }`. */
  function Find(types: seq<HazardType>, value: string): (r: Option<HazardType>)
    ensures r.Some? ==> r.value in types && r.value.Matches(value)
    ensures r.None? ==> forall t :: t in types ==> !t.Matches(value)
  {
    if types == [] then None
    else if types[0].Matches(value) then Some(types[0])
    else Find(types[1..], value)
  }

  /** `fromString`: the first type in declaration order whose name or display name
      equals `value` ignoring case, and `OTHER` when there is none. */
  function FromString(value: string): (r: HazardType)
    ensures r != Other ==> r.Matches(value)
  {
    Find(Values, value).GetOr(Other)
  }

  /** `Find` returns the first matching element, and none exactly when nothing matches. */
  lemma {:induction false} FindIsFirst(types: seq<HazardType>, value: string, k: nat)
    requires k < |types| && types[k].Matches(value)
    requires forall j :: 0 <= j < k ==> !types[j].Matches(value)
    ensures Find(types, value) == Some(types[k])
  {
    if k > 0 {
      FindIsFirst(types[1..], value, k - 1);
    }
  }

  /** The values are listed without repetition, each at its ordinal. */
  lemma ValuesAtOrdinal(j: int)
    requires 0 <= j < |Values|
    ensures Values[j].Ordinal() == j
  {
  }

  /** `fromString` yields the first matching type in declaration order. */
  lemma FromStringFirstMatch(value: string, t: HazardType)
    requires t.Matches(value)
    requires forall j :: 0 <= j < t.Ordinal() ==> !Values[j].Matches(value)
    ensures FromString(value) == t
  {
    FindIsFirst(Values, value, t.Ordinal());
  }

  /** A string that matches no name and no display name yields `OTHER`; a result other
      than `OTHER` always matches the input. */
  lemma FromStringFallback(value: string)
    ensures (forall t: HazardType :: !t.Matches(value)) ==> FromString(value) == Other
    ensures FromString(value) != Other ==> FromString(value).Matches(value)
  {
  }

  /** Names and display names of distinct types differ even ignoring case. */
  lemma NamesDistinguishTypes(t: HazardType, u: HazardType, value: string)
    requires t.Matches(value) && u.Matches(value)
    ensures t == u
  {
    var a := if EqualsIgnoreCase(t.Name(), value) then t.Name() else t.DisplayName();
    var b := if EqualsIgnoreCase(u.Name(), value) then u.Name() else u.DisplayName();
    EqualsIgnoreCaseSymmetric(b, value);
    EqualsIgnoreCaseTransitive(a, value, b);
    NameKeysIdentifyType(t);
    NameKeysIdentifyType(u);
    assert NameKey(a) == NameKey(b);
  }

  /** Length and upper-cased first character, which already tell all the names and
      display names apart. */
  function NameKey(s: string): (int, char)
    requires |s| > 0
  {
    (|s|, ToUpperChar(s[0]))
  }

  /** The type whose name or display name has the given key; `OTHER` for other keys. */
  function KeyOwner(k: (int, char)): HazardType {
    match k.0
    case 4 => if k.1 == 'F' then Fire else Other
    case 5 => if k.1 == 'O' then Other else Other
    case 6 => if k.1 == 'H' then Height else Other
    case 8 => if k.1 == 'C' then Chemical else Other
    case 9 => if k.1 == 'M' then Machinery else if k.1 == 'E' then Ergonomic else if k.1 == 'S' then StruckBy else Other
    case 10 => if k.1 == 'E' then Electrical else Other
    case 11 => if k.1 == 'F' then Fire else if k.1 == 'P' then PpeMissing else Other
    case 12 => if k.1 == 'O' then Other else Other
    case 14 => if k.1 == 'S' then SlipTripFall else if k.1 == 'M' then Machinery else if k.1 == 'C' then ConfinedSpace else Other
    case 15 => if k.1 == 'E' then Ergonomic else Other
    case 16 => if k.1 == 'S' then StruckBy else Other
    case 17 => if k.1 == 'S' then SlipTripFall else if k.1 == 'E' then Electrical else if k.1 == 'C' then Chemical else if k.1 == 'W' then Height else Other
    case _ => Other
  }

  lemma NameKeysIdentifyType(t: HazardType)
    ensures |t.Name()| > 0 && KeyOwner(NameKey(t.Name())) == t
    ensures |t.DisplayName()| > 0 && KeyOwner(NameKey(t.DisplayName())) == t
  {
  }

  /** Every type's own name looks up that type. */
  lemma FromStringName(t: HazardType)
    ensures FromString(t.Name()) == t
  {
    var v := t.Name();
    assert t.Matches(v);
    forall j | 0 <= j < t.Ordinal() ensures !Values[j].Matches(v) {
      ValuesAtOrdinal(j);
      if Values[j].Matches(v) { NamesDistinguishTypes(t, Values[j], v); }
    }
    FromStringFirstMatch(v, t);
  }

  /** Every type's display name looks up that type. */
  lemma FromStringDisplayName(t: HazardType)
    ensures FromString(t.DisplayName()) == t
  {
    var v := t.DisplayName();
    assert t.Matches(v);
    forall j | 0 <= j < t.Ordinal() ensures !Values[j].Matches(v) {
      ValuesAtOrdinal(j);
      if Values[j].Matches(v) { NamesDistinguishTypes(t, Values[j], v); }
    }
    FromStringFirstMatch(v, t);
  }

  /** Changing the case of the argument does not change the result. */
  lemma FromStringIgnoresCase(v: string, w: string)
    requires EqualsIgnoreCase(v, w)
    ensures FromString(v) == FromString(w)
  {
    forall t: HazardType ensures t.Matches(v) <==> t.Matches(w) {
      EqualsIgnoreCaseSymmetric(v, w);
      if EqualsIgnoreCase(t.Name(), v) { EqualsIgnoreCaseTransitive(t.Name(), v, w); }
      if EqualsIgnoreCase(t.Name(), w) { EqualsIgnoreCaseTransitive(t.Name(), w, v); }
      if EqualsIgnoreCase(t.DisplayName(), v) { EqualsIgnoreCaseTransitive(t.DisplayName(), v, w); }
      if EqualsIgnoreCase(t.DisplayName(), w) { EqualsIgnoreCaseTransitive(t.DisplayName(), w, v); }
    }
    FindAgrees(Values, v, w);
  }

  lemma {:induction false} FindAgrees(types: seq<HazardType>, v: string, w: string)
    requires forall t :: t in types ==> (t.Matches(v) <==> t.Matches(w))
    ensures Find(types, v) == Find(types, w)
  {
    if types != [] {
      FindAgrees(types[1..], v, w);
    }
  }
}
