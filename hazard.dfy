/** A detected hazard, its score on the risk matrix and its control measures. */
module Hazards {
  import opened Wrappers
  import opened KotlinInt
  import opened RiskLevels
  import opened HazardTypes

  /** `confidence` is the detector's score, a Kotlin `Float`, modelled as a real. */
  datatype Hazard = Hazard(
    hazardType: HazardType,
    likelihood: int32,
    severity: int32,
    confidence: real,
    location: Option<string>,
    details: Option<string>)
  {
    /** `likelihood * severity` on Kotlin `Int`. */
    function RiskScore(): (r: int32)
      ensures MIN_VALUE <= likelihood as int * severity as int <= MAX_VALUE ==>
        r as int == likelihood as int * severity as int
    {
      Times(likelihood, severity)
    }

    /** `RiskLevel.calculate(likelihood, severity)`. */
    function Level(): (r: RiskLevel)
      ensures r == FromScore(RiskScore() as int)
    {
      Calculate(likelihood, severity)
    }

    /** The five control measures for this hazard's type. */
    function Recommendations(): (r: seq<string>)
      ensures Distinct5(r)
    {
      RecommendationsFor(hazardType)
    }
  }

  /** The level of a hazard is the band of its score. */
  lemma LevelIsBandOfScore(h: Hazard)
    ensures h.Level() == FromScore(h.RiskScore() as int)
  {
  }

  /** A hazard on the 5x5 matrix scores the plain product, so its level is the band of
      that product. */
  lemma ScoreOnMatrix(h: Hazard)
    requires 1 <= h.likelihood <= 5 && 1 <= h.severity <= 5
    ensures 1 <= h.RiskScore() <= 25
    ensures h.RiskScore() as int == h.likelihood as int * h.severity as int
    ensures h.Level() == FromScore(h.likelihood as int * h.severity as int)
  {
    MulBounds(h.likelihood as int, h.severity as int);
  }

  /** Two factors on the 1..5 scale multiply to 1..25. */
  lemma MulBounds(a: int, b: int)
    requires 1 <= a <= 5 && 1 <= b <= 5
    ensures 1 <= a * b <= 25
  {
    assert a * b <= 5 * b;
  }

  /** Five texts, pairwise distinct. */
  predicate Distinct5(r: seq<string>) {
    |r| == 5 && forall i, j :: 0 <= i < j < 5 ==> r[i] != r[j]
  }

  /** The fixed recommendation table: five control measures per hazard type, in the
      order the app lists them. Each type's entry is its own function so that the
      texts are compared one type at a time. */
  function RecommendationsFor(t: HazardType): (r: seq<string>)
    ensures Distinct5(r)
  {
    match t
    case SlipTripFall => SlipTripFallAdvice()
    case Electrical => ElectricalAdvice()
    case Chemical => ChemicalAdvice()
    case Fire => FireAdvice()
    case Machinery => MachineryAdvice()
    case Height => HeightAdvice()
    case Ergonomic => ErgonomicAdvice()
    case PpeMissing => PpeMissingAdvice()
    case StruckBy => StruckByAdvice()
    case ConfinedSpace => ConfinedSpaceAdvice()
    case Other => OtherAdvice()
  }

  const SlipTripFall0: string := "Clear walkways of obstacles and debris"
  const SlipTripFall1: string := "Ensure proper lighting in all areas"
  const SlipTripFall2: string := "Install non-slip surfaces or mats"
  const SlipTripFall3: string := "Mark wet or slippery areas with warning signs"
  const SlipTripFall4: string := "Implement regular housekeeping inspections"
  function SlipTripFallAdvice(): (r: seq<string>)
    ensures Distinct5(r)
  {
    [SlipTripFall0, SlipTripFall1, SlipTripFall2, SlipTripFall3, SlipTripFall4]
  }

  const Electrical0: string := "Isolate and lockout exposed electrical equipment"
  const Electrical1: string := "Ensure all electrical work is performed by qualified personnel"
  const Electrical2: string := "Implement regular electrical safety inspections"
  const Electrical3: string := "Provide appropriate PPE (insulated gloves, tools)"
  const Electrical4: string := "Install warning signs near electrical hazards"
  function ElectricalAdvice(): (r: seq<string>)
    ensures Distinct5(r)
  {
    [Electrical0, Electrical1, Electrical2, Electrical3, Electrical4]
  }

  const Chemical0: string := "Ensure proper storage and labeling of chemicals"
  const Chemical1: string := "Provide appropriate PPE (gloves, goggles, respirators)"
  const Chemical2: string := "Maintain Safety Data Sheets (SDS) accessibility"
  const Chemical3: string := "Implement proper ventilation systems"
  const Chemical4: string := "Train workers on chemical handling procedures"
  function ChemicalAdvice(): (r: seq<string>)
    ensures Distinct5(r)
  {
    [Chemical0, Chemical1, Chemical2, Chemical3, Chemical4]
  }

  const Fire0: string := "Remove or properly store flammable materials"
  const Fire1: string := "Ensure fire extinguishers are accessible and maintained"
  const Fire2: string := "Install and test smoke detectors regularly"
  const Fire3: string := "Create and practice emergency evacuation plans"
  const Fire4: string := "Eliminate ignition sources in hazardous areas"
  function FireAdvice(): (r: seq<string>)
    ensures Distinct5(r)
  {
    [Fire0, Fire1, Fire2, Fire3, Fire4]
  }

  const Machinery0: string := "Install proper machine guarding"
  const Machinery1: string := "Implement lockout/tagout procedures"
  const Machinery2: string := "Provide comprehensive operator training"
  const Machinery3: string := "Conduct regular machinery maintenance"
  const Machinery4: string := "Install emergency stop buttons"
  function MachineryAdvice(): (r: seq<string>)
    ensures Distinct5(r)
  {
    [Machinery0, Machinery1, Machinery2, Machinery3, Machinery4]
  }

  const Height0: string := "Install guardrails and fall protection systems"
  const Height1: string := "Ensure workers use appropriate fall arrest equipment"
  const Height2: string := "Provide training on working at height procedures"
  const Height3: string := "Inspect all fall protection equipment regularly"
  const Height4: string := "Use scaffolding or elevated work platforms properly"
  function HeightAdvice(): (r: seq<string>)
    ensures Distinct5(r)
  {
    [Height0, Height1, Height2, Height3, Height4]
  }

  const Ergonomic0: string := "Adjust workstations to proper ergonomic height"
  const Ergonomic1: string := "Provide mechanical aids for lifting and handling"
  const Ergonomic2: string := "Implement job rotation to reduce repetitive strain"
  const Ergonomic3: string := "Train workers on proper lifting techniques"
  const Ergonomic4: string := "Conduct ergonomic assessments regularly"
  function ErgonomicAdvice(): (r: seq<string>)
    ensures Distinct5(r)
  {
    [Ergonomic0, Ergonomic1, Ergonomic2, Ergonomic3, Ergonomic4]
  }

  const PpeMissing0: string := "Ensure appropriate PPE is provided and available"
  const PpeMissing1: string := "Conduct PPE training and fit testing"
  const PpeMissing2: string := "Implement PPE inspection and maintenance programs"
  const PpeMissing3: string := "Enforce PPE usage policies consistently"
  const PpeMissing4: string := "Assess workplace to determine required PPE"
  function PpeMissingAdvice(): (r: seq<string>)
    ensures Distinct5(r)
  {
    [PpeMissing0, PpeMissing1, PpeMissing2, PpeMissing3, PpeMissing4]
  }

  const StruckBy0: string := "Establish exclusion zones around moving equipment"
  const StruckBy1: string := "Install protective barriers or screens"
  const StruckBy2: string := "Implement traffic management plans"
  const StruckBy3: string := "Use high-visibility clothing in active areas"
  const StruckBy4: string := "Secure materials to prevent falling objects"
  function StruckByAdvice(): (r: seq<string>)
    ensures Distinct5(r)
  {
    [StruckBy0, StruckBy1, StruckBy2, StruckBy3, StruckBy4]
  }

  const ConfinedSpace0: string := "Implement confined space entry procedures"
  const ConfinedSpace1: string := "Test atmosphere before and during entry"
  const ConfinedSpace2: string := "Provide adequate ventilation"
  const ConfinedSpace3: string := "Ensure rescue equipment is readily available"
  const ConfinedSpace4: string := "Assign trained attendants for confined space work"
  function ConfinedSpaceAdvice(): (r: seq<string>)
    ensures Distinct5(r)
  {
    [ConfinedSpace0, ConfinedSpace1, ConfinedSpace2, ConfinedSpace3, ConfinedSpace4]
  }

  const Other0: string := "Conduct detailed risk assessment"
  const Other1: string := "Consult with safety professionals"
  const Other2: string := "Implement appropriate control measures"
  const Other3: string := "Train workers on identified risks"
  const Other4: string := "Monitor and review controls regularly"
  function OtherAdvice(): (r: seq<string>)
    ensures Distinct5(r)
  {
    [Other0, Other1, Other2, Other3, Other4]
  }

  /** A short fingerprint of a text: its length and its second- and third-last
      characters. It tells the 55 recommendation texts apart. */
  function Signature(s: string): (int, char, char)
    requires |s| >= 3
  {
    (|s|, s[|s| - 2], s[|s| - 3])
  }

  /** Decodes a fingerprint back to the (type, position) of the recommendation that has
      it; `(Other, 5)` for fingerprints no recommendation has. */
  function EntryOf(k: (int, char, char)): (HazardType, int) {
    match k.0
    case 28 => if k.1 == 'o' && k.2 == 'i' then (ConfinedSpace, 2) else (Other, 5)
    case 30 => if k.1 == 'n' && k.2 == 'o' then (Machinery, 4) else (Other, 5)
    case 31 => if k.1 == 'n' && k.2 == 'i' then (Machinery, 0) else (Other, 5)
    case 32 => if k.1 == 'n' && k.2 == 'e' then (Other, 0) else (Other, 5)
    case 33 => if k.1 == 't' && k.2 == 'a' then (SlipTripFall, 2) else if k.1 == 'l' && k.2 == 'a' then (Other, 1) else if k.1 == 'k' && k.2 == 's' then (Other, 3) else (Other, 5)
    case 34 => if k.1 == 'n' && k.2 == 'a' then (StruckBy, 2) else (Other, 5)
    case 35 => if k.1 == 'a' && k.2 == 'e' then (SlipTripFall, 1) else if k.1 == 'e' && k.2 == 'r' then (Machinery, 1) else (Other, 5)
    case 36 => if k.1 == 'm' && k.2 == 'e' then (Chemical, 3) else if k.1 == 'n' && k.2 == 'i' then (PpeMissing, 1) else (Other, 5)
    case 37 => if k.1 == 'c' && k.2 == 'n' then (Machinery, 3) else if k.1 == 'l' && k.2 == 'r' then (Other, 4) else (Other, 5)
    case 38 => if k.1 == 'i' && k.2 == 'r' then (SlipTripFall, 0) else if k.1 == 'n' && k.2 == 'e' then (StruckBy, 1) else if k.1 == 'e' && k.2 == 'r' then (Other, 2) else (Other, 5)
    case 39 => if k.1 == 'n' && k.2 == 'i' then (Machinery, 2) else if k.1 == 'l' && k.2 == 'r' then (Ergonomic, 4) else if k.1 == 'l' && k.2 == 't' then (PpeMissing, 3) else if k.1 == 'r' && k.2 == 't' then (ConfinedSpace, 1) else (Other, 5)
    case 41 => if k.1 == 'e' && k.2 == 'r' then (ConfinedSpace, 0) else (Other, 5)
    case 42 => if k.1 == 'n' && k.2 == 'o' then (SlipTripFall, 4) else if k.1 == 'l' && k.2 == 'r' then (Fire, 2) else if k.1 == 'e' && k.2 == 'u' then (Ergonomic, 3) else if k.1 == 'P' && k.2 == 'P' then (PpeMissing, 4) else (Other, 5)
    case 43 => if k.1 == 't' && k.2 == 'c' then (StruckBy, 4) else (Other, 5)
    case 44 => if k.1 == 'l' && k.2 == 'a' then (Fire, 0) else if k.1 == 'a' && k.2 == 'e' then (StruckBy, 3) else if k.1 == 'l' && k.2 == 'b' then (ConfinedSpace, 3) else (Other, 5)
    case 45 => if k.1 == 'n' && k.2 == 'g' then (SlipTripFall, 3) else if k.1 == 'd' && k.2 == 'r' then (Electrical, 4) else if k.1 == 'e' && k.2 == 'r' then (Chemical, 4) else if k.1 == 'a' && k.2 == 'e' then (Fire, 4) else (Other, 5)
    case 46 => if k.1 == 'n' && k.2 == 'a' then (Fire, 3) else if k.1 == 'm' && k.2 == 'e' then (Height, 0) else if k.1 == 'h' && k.2 == 'g' then (Ergonomic, 0) else (Other, 5)
    case 47 => if k.1 == 'n' && k.2 == 'o' then (Electrical, 2) else if k.1 == 'l' && k.2 == 'a' then (Chemical, 0) else if k.1 == 't' && k.2 == 'i' then (Chemical, 2) else if k.1 == 'l' && k.2 == 'r' then (Height, 3) else (Other, 5)
    case 48 => if k.1 == 'n' && k.2 == 'e' then (Electrical, 0) else if k.1 == 'e' && k.2 == 'r' then (Height, 2) else if k.1 == 'n' && k.2 == 'i' then (Ergonomic, 1) else if k.1 == 'l' && k.2 == 'b' then (PpeMissing, 0) else (Other, 5)
    case 49 => if k.1 == 's' && k.2 == 'l' then (Electrical, 3) else if k.1 == 'm' && k.2 == 'a' then (PpeMissing, 2) else if k.1 == 'n' && k.2 == 'e' then (StruckBy, 0) else if k.1 == 'r' && k.2 == 'o' then (ConfinedSpace, 4) else (Other, 5)
    case 50 => if k.1 == 'i' && k.2 == 'a' then (Ergonomic, 2) else (Other, 5)
    case 51 => if k.1 == 'l' && k.2 == 'r' then (Height, 4) else (Other, 5)
    case 52 => if k.1 == 'n' && k.2 == 'e' then (Height, 1) else (Other, 5)
    case 54 => if k.1 == 's' && k.2 == 'r' then (Chemical, 1) else (Other, 5)
    case 55 => if k.1 == 'e' && k.2 == 'n' then (Fire, 1) else (Other, 5)
    case 62 => if k.1 == 'e' && k.2 == 'n' then (Electrical, 1) else (Other, 5)
    case _ => (Other, 5)
  }

  lemma SlipTripFallSignatures()
    ensures |SlipTripFall0| >= 3 && EntryOf(Signature(SlipTripFall0)) == (SlipTripFall, 0)
    ensures |SlipTripFall1| >= 3 && EntryOf(Signature(SlipTripFall1)) == (SlipTripFall, 1)
    ensures |SlipTripFall2| >= 3 && EntryOf(Signature(SlipTripFall2)) == (SlipTripFall, 2)
    ensures |SlipTripFall3| >= 3 && EntryOf(Signature(SlipTripFall3)) == (SlipTripFall, 3)
    ensures |SlipTripFall4| >= 3 && EntryOf(Signature(SlipTripFall4)) == (SlipTripFall, 4)
  {
  }

  lemma ElectricalSignatures()
    ensures |Electrical0| >= 3 && EntryOf(Signature(Electrical0)) == (Electrical, 0)
    ensures |Electrical1| >= 3 && EntryOf(Signature(Electrical1)) == (Electrical, 1)
    ensures |Electrical2| >= 3 && EntryOf(Signature(Electrical2)) == (Electrical, 2)
    ensures |Electrical3| >= 3 && EntryOf(Signature(Electrical3)) == (Electrical, 3)
    ensures |Electrical4| >= 3 && EntryOf(Signature(Electrical4)) == (Electrical, 4)
  {
  }

  lemma ChemicalSignatures()
    ensures |Chemical0| >= 3 && EntryOf(Signature(Chemical0)) == (Chemical, 0)
    ensures |Chemical1| >= 3 && EntryOf(Signature(Chemical1)) == (Chemical, 1)
    ensures |Chemical2| >= 3 && EntryOf(Signature(Chemical2)) == (Chemical, 2)
    ensures |Chemical3| >= 3 && EntryOf(Signature(Chemical3)) == (Chemical, 3)
    ensures |Chemical4| >= 3 && EntryOf(Signature(Chemical4)) == (Chemical, 4)
  {
  }

  lemma FireSignatures()
    ensures |Fire0| >= 3 && EntryOf(Signature(Fire0)) == (Fire, 0)
    ensures |Fire1| >= 3 && EntryOf(Signature(Fire1)) == (Fire, 1)
    ensures |Fire2| >= 3 && EntryOf(Signature(Fire2)) == (Fire, 2)
    ensures |Fire3| >= 3 && EntryOf(Signature(Fire3)) == (Fire, 3)
    ensures |Fire4| >= 3 && EntryOf(Signature(Fire4)) == (Fire, 4)
  {
  }

  lemma MachinerySignatures()
    ensures |Machinery0| >= 3 && EntryOf(Signature(Machinery0)) == (Machinery, 0)
    ensures |Machinery1| >= 3 && EntryOf(Signature(Machinery1)) == (Machinery, 1)
    ensures |Machinery2| >= 3 && EntryOf(Signature(Machinery2)) == (Machinery, 2)
    ensures |Machinery3| >= 3 && EntryOf(Signature(Machinery3)) == (Machinery, 3)
    ensures |Machinery4| >= 3 && EntryOf(Signature(Machinery4)) == (Machinery, 4)
  {
  }

  lemma HeightSignatures()
    ensures |Height0| >= 3 && EntryOf(Signature(Height0)) == (Height, 0)
    ensures |Height1| >= 3 && EntryOf(Signature(Height1)) == (Height, 1)
    ensures |Height2| >= 3 && EntryOf(Signature(Height2)) == (Height, 2)
    ensures |Height3| >= 3 && EntryOf(Signature(Height3)) == (Height, 3)
    ensures |Height4| >= 3 && EntryOf(Signature(Height4)) == (Height, 4)
  {
  }

  lemma ErgonomicSignatures()
    ensures |Ergonomic0| >= 3 && EntryOf(Signature(Ergonomic0)) == (Ergonomic, 0)
    ensures |Ergonomic1| >= 3 && EntryOf(Signature(Ergonomic1)) == (Ergonomic, 1)
    ensures |Ergonomic2| >= 3 && EntryOf(Signature(Ergonomic2)) == (Ergonomic, 2)
    ensures |Ergonomic3| >= 3 && EntryOf(Signature(Ergonomic3)) == (Ergonomic, 3)
    ensures |Ergonomic4| >= 3 && EntryOf(Signature(Ergonomic4)) == (Ergonomic, 4)
  {
  }

  lemma PpeMissingSignatures()
    ensures |PpeMissing0| >= 3 && EntryOf(Signature(PpeMissing0)) == (PpeMissing, 0)
    ensures |PpeMissing1| >= 3 && EntryOf(Signature(PpeMissing1)) == (PpeMissing, 1)
    ensures |PpeMissing2| >= 3 && EntryOf(Signature(PpeMissing2)) == (PpeMissing, 2)
    ensures |PpeMissing3| >= 3 && EntryOf(Signature(PpeMissing3)) == (PpeMissing, 3)
    ensures |PpeMissing4| >= 3 && EntryOf(Signature(PpeMissing4)) == (PpeMissing, 4)
  {
  }

  lemma StruckBySignatures()
    ensures |StruckBy0| >= 3 && EntryOf(Signature(StruckBy0)) == (StruckBy, 0)
    ensures |StruckBy1| >= 3 && EntryOf(Signature(StruckBy1)) == (StruckBy, 1)
    ensures |StruckBy2| >= 3 && EntryOf(Signature(StruckBy2)) == (StruckBy, 2)
    ensures |StruckBy3| >= 3 && EntryOf(Signature(StruckBy3)) == (StruckBy, 3)
    ensures |StruckBy4| >= 3 && EntryOf(Signature(StruckBy4)) == (StruckBy, 4)
  {
  }

  lemma ConfinedSpaceSignatures()
    ensures |ConfinedSpace0| >= 3 && EntryOf(Signature(ConfinedSpace0)) == (ConfinedSpace, 0)
    ensures |ConfinedSpace1| >= 3 && EntryOf(Signature(ConfinedSpace1)) == (ConfinedSpace, 1)
    ensures |ConfinedSpace2| >= 3 && EntryOf(Signature(ConfinedSpace2)) == (ConfinedSpace, 2)
    ensures |ConfinedSpace3| >= 3 && EntryOf(Signature(ConfinedSpace3)) == (ConfinedSpace, 3)
    ensures |ConfinedSpace4| >= 3 && EntryOf(Signature(ConfinedSpace4)) == (ConfinedSpace, 4)
  {
  }

  lemma OtherSignatures()
    ensures |Other0| >= 3 && EntryOf(Signature(Other0)) == (Other, 0)
    ensures |Other1| >= 3 && EntryOf(Signature(Other1)) == (Other, 1)
    ensures |Other2| >= 3 && EntryOf(Signature(Other2)) == (Other, 2)
    ensures |Other3| >= 3 && EntryOf(Signature(Other3)) == (Other, 3)
    ensures |Other4| >= 3 && EntryOf(Signature(Other4)) == (Other, 4)
  {
  }

  lemma SlipTripFallEntries(i: int)
    requires 0 <= i < 5
    ensures |SlipTripFallAdvice()[i]| >= 3 && EntryOf(Signature(SlipTripFallAdvice()[i])) == (SlipTripFall, i)
  {
    SlipTripFallSignatures();
    if i == 0 {} else if i == 1 {} else if i == 2 {} else if i == 3 {} else {}
  }

  lemma ElectricalEntries(i: int)
    requires 0 <= i < 5
    ensures |ElectricalAdvice()[i]| >= 3 && EntryOf(Signature(ElectricalAdvice()[i])) == (Electrical, i)
  {
    ElectricalSignatures();
    if i == 0 {} else if i == 1 {} else if i == 2 {} else if i == 3 {} else {}
  }

  lemma ChemicalEntries(i: int)
    requires 0 <= i < 5
    ensures |ChemicalAdvice()[i]| >= 3 && EntryOf(Signature(ChemicalAdvice()[i])) == (Chemical, i)
  {
    ChemicalSignatures();
    if i == 0 {} else if i == 1 {} else if i == 2 {} else if i == 3 {} else {}
  }

  lemma FireEntries(i: int)
    requires 0 <= i < 5
    ensures |FireAdvice()[i]| >= 3 && EntryOf(Signature(FireAdvice()[i])) == (Fire, i)
  {
    FireSignatures();
    if i == 0 {} else if i == 1 {} else if i == 2 {} else if i == 3 {} else {}
  }

  lemma MachineryEntries(i: int)
    requires 0 <= i < 5
    ensures |MachineryAdvice()[i]| >= 3 && EntryOf(Signature(MachineryAdvice()[i])) == (Machinery, i)
  {
    MachinerySignatures();
    if i == 0 {} else if i == 1 {} else if i == 2 {} else if i == 3 {} else {}
  }

  lemma HeightEntries(i: int)
    requires 0 <= i < 5
    ensures |HeightAdvice()[i]| >= 3 && EntryOf(Signature(HeightAdvice()[i])) == (Height, i)
  {
    HeightSignatures();
    if i == 0 {} else if i == 1 {} else if i == 2 {} else if i == 3 {} else {}
  }

  lemma ErgonomicEntries(i: int)
    requires 0 <= i < 5
    ensures |ErgonomicAdvice()[i]| >= 3 && EntryOf(Signature(ErgonomicAdvice()[i])) == (Ergonomic, i)
  {
    ErgonomicSignatures();
    if i == 0 {} else if i == 1 {} else if i == 2 {} else if i == 3 {} else {}
  }

  lemma PpeMissingEntries(i: int)
    requires 0 <= i < 5
    ensures |PpeMissingAdvice()[i]| >= 3 && EntryOf(Signature(PpeMissingAdvice()[i])) == (PpeMissing, i)
  {
    PpeMissingSignatures();
    if i == 0 {} else if i == 1 {} else if i == 2 {} else if i == 3 {} else {}
  }

  lemma StruckByEntries(i: int)
    requires 0 <= i < 5
    ensures |StruckByAdvice()[i]| >= 3 && EntryOf(Signature(StruckByAdvice()[i])) == (StruckBy, i)
  {
    StruckBySignatures();
    if i == 0 {} else if i == 1 {} else if i == 2 {} else if i == 3 {} else {}
  }

  lemma ConfinedSpaceEntries(i: int)
    requires 0 <= i < 5
    ensures |ConfinedSpaceAdvice()[i]| >= 3 && EntryOf(Signature(ConfinedSpaceAdvice()[i])) == (ConfinedSpace, i)
  {
    ConfinedSpaceSignatures();
    if i == 0 {} else if i == 1 {} else if i == 2 {} else if i == 3 {} else {}
  }

  lemma OtherEntries(i: int)
    requires 0 <= i < 5
    ensures |OtherAdvice()[i]| >= 3 && EntryOf(Signature(OtherAdvice()[i])) == (Other, i)
  {
    OtherSignatures();
    if i == 0 {} else if i == 1 {} else if i == 2 {} else if i == 3 {} else {}
  }

  /** Each recommendation's fingerprint decodes to its own type and position. */
  lemma EntryOfRecommendation(t: HazardType, i: int)
    requires 0 <= i < 5
    ensures |RecommendationsFor(t)[i]| >= 3
    ensures EntryOf(Signature(RecommendationsFor(t)[i])) == (t, i)
  {
    match t
    case SlipTripFall => SlipTripFallEntries(i);
    case Electrical => ElectricalEntries(i);
    case Chemical => ChemicalEntries(i);
    case Fire => FireEntries(i);
    case Machinery => MachineryEntries(i);
    case Height => HeightEntries(i);
    case Ergonomic => ErgonomicEntries(i);
    case PpeMissing => PpeMissingEntries(i);
    case StruckBy => StruckByEntries(i);
    case ConfinedSpace => ConfinedSpaceEntries(i);
    case Other => OtherEntries(i);
  }

  /** The 55 texts are pairwise distinct: two entries at different (type, position)
      pairs never hold the same text. */
  lemma RecommendationsDistinct(t: HazardType, u: HazardType, i: int, j: int)
    requires 0 <= i < 5 && 0 <= j < 5 && (t, i) != (u, j)
    ensures RecommendationsFor(t)[i] != RecommendationsFor(u)[j]
  {
    EntryOfRecommendation(t, i);
    EntryOfRecommendation(u, j);
  }
}
