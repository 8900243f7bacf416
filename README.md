# VisualRiskAssessor core in Dafny

VisualRiskAssessor is an Android app for health-and-safety inspections. It runs ML Kit's image labeller and object detector over a photo and turns the labels into hazards. Each hazard has a type, a likelihood and a severity from 1 to 5. A hazard's risk score is likelihood times severity, and the score falls into one of five risk levels, LOW to EXTREME. The app rates the photo as a whole, keeps assessments in a Room table and draws hazards on a 5x5 risk matrix. Its camera screen cycles the flash mode and switches between lenses.

This project models that core, one Dafny module per source file:

| module | file | models |
|---|---|---|
| `KotlinInt` | `kotlin_int.dfy` | Kotlin's 32-bit `Int`, with wrap-around on `*` and `-` |
| `Text` | `text.dfy` | ASCII `lowercase()`, `equals(ignoreCase = true)` and `contains` |
| `RiskLevels` | `risk_level.dfy` | `RiskLevel`: the score bands, `fromScore` and `calculate` |
| `HazardTypes` | `hazard_type.dfy` | `HazardType` and `fromString` |
| `Hazards` | `hazard.dfy` | `Hazard`: `riskScore`, `riskLevel` and the recommendation lists |
| `Lists` | `lists.dfy` | `distinct()` and first occurrence, generic over element type |
| `Assessments` | `assessment_result.dfy` | `AssessmentResult` and its derived values |
| `RiskAssessment` | `risk_assessment_engine.dfy` | `calculateOverallRisk` |
| `Detection` | `hazard_detector.dfy` | label mapping, risk estimates and merging in `HazardDetector`; `HazardDetectionResult` |
| `Converters` | `risk_level_converter.dfy` | `RiskLevelConverter` |
| `Storage` | `assessment_dao.dfy` | `AssessmentEntity`; `AssessmentDao` as a class over a map from primary key to row |
| `MatrixView` | `risk_matrix_view.dfy` | `RiskMatrixView`: the score table (a real `array2`), the hazard markers and `onMeasure` |
| `Camera` | `camera_activity.dfy` | `CameraActivity`: `toggleFlash`, `switchCamera` and the rebinding they trigger |

The two ML Kit tasks are inputs to the model. Each is given as an `Outcome`: either its list of labels or objects, or the failure its `await()` threw. `AnalyzeImage` is a method with the source's two loops. It is proved equal to `Classify`, a function, and the properties are proved about `Classify`.

## Model

| member | source | states |
|---|---|---|
| KotlinInt.Wrap | app/src/main/java/com/hse/visualriskassessor/model/Hazard.kt:14-15 | a 32-bit result is congruent to the exact value modulo 2^32, and equal to it when that value fits |
| KotlinInt.Times | app/src/main/java/com/hse/visualriskassessor/model/Hazard.kt:14-15 | `Int` multiplication is exact whenever the product fits in 32 bits |
| KotlinInt.Minus | app/src/main/java/com/hse/visualriskassessor/ui/widget/RiskMatrixView.kt:98-102 | `Int` subtraction is exact whenever the difference fits in 32 bits |
| KotlinInt.TimesCommutes | app/src/main/java/com/hse/visualriskassessor/model/Hazard.kt:14-15 | wrapped multiplication commutes, so `likelihood * severity` does not depend on operand order |
| KotlinInt.MinusWrapsAtMinValue | app/src/main/java/com/hse/visualriskassessor/ui/widget/RiskMatrixView.kt:98-102 | `Int.MIN_VALUE - 1` wraps to `Int.MAX_VALUE`, which the marker's range test then rejects |
| Text.ToLowerChar | app/src/main/java/com/hse/visualriskassessor/analysis/HazardDetector.kt:102 | an ASCII capital becomes its small letter, 32 code points higher; every other character is kept; no capital remains |
| Text.Lowercase | app/src/main/java/com/hse/visualriskassessor/analysis/HazardDetector.kt:102 | `lowercase()` keeps the length and lower-cases each character in place (lemmas `LowercaseEqualsIgnoreCase`, `LowercaseAgrees`) |
| Text.EqualsIgnoreCase | app/src/main/java/com/hse/visualriskassessor/model/HazardType.kt:52-53 | `equals(ignoreCase = true)` holds of every string and itself (symmetry, transitivity and agreement of lower-case forms are the lemmas below) |
| Text.EqualsIgnoreCaseSymmetric | app/src/main/java/com/hse/visualriskassessor/model/HazardType.kt:52-53 | comparing ignoring case is symmetric |
| Text.EqualsIgnoreCaseTransitive | app/src/main/java/com/hse/visualriskassessor/model/HazardType.kt:52-53 | comparing ignoring case is transitive |
| Text.LowercaseEqualsIgnoreCase | app/src/main/java/com/hse/visualriskassessor/analysis/HazardDetector.kt:102 | a string equals its `lowercase()` ignoring case |
| Text.LowercaseAgrees | app/src/main/java/com/hse/visualriskassessor/analysis/HazardDetector.kt:102 | strings equal ignoring case have the same `lowercase()` |
| Text.Contains | app/src/main/java/com/hse/visualriskassessor/analysis/HazardDetector.kt:103-124 | `contains` holds of the empty word and never of a word longer than the string (its meaning is `ContainsAt`) |
| Text.ContainsAt | app/src/main/java/com/hse/visualriskassessor/analysis/HazardDetector.kt:103-124 | `contains` holds exactly when the word occurs at some index |
| Text.OccursContains | app/src/main/java/com/hse/visualriskassessor/analysis/HazardDetector.kt:103-124 | an occurrence at a known index makes `contains` hold |
| Text.MissingCharNotContained | app/src/main/java/com/hse/visualriskassessor/analysis/HazardDetector.kt:103-124 | a word using a character the string lacks is not contained |
| RiskLevels.RiskLevel.Score | app/src/main/java/com/hse/visualriskassessor/model/RiskLevel.kt:3-8 | every level's score lies in 1..5 |
| RiskLevels.FromScore | app/src/main/java/com/hse/visualriskassessor/model/RiskLevel.kt:11-19 | EXTREME exactly outside 1..20, zero and negative scores included; the other four bands are `FromScoreBands` |
| RiskLevels.Calculate | app/src/main/java/com/hse/visualriskassessor/model/RiskLevel.kt:21-24 | when the product fits in an `Int`, the band of the exact product (also `CalculateInRange`, `CalculateCommutes`) |
| RiskLevels.FromScoreBands | app/src/main/java/com/hse/visualriskassessor/model/RiskLevel.kt:11-19 | `fromScore` is LOW iff 1..4, MEDIUM iff 5..9, HIGH iff 10..15 and VERY_HIGH iff 16..20 |
| RiskLevels.FromScoreExtreme | app/src/main/java/com/hse/visualriskassessor/model/RiskLevel.kt:11-19 | the `else` branch: EXTREME iff the score is below 1 or above 20 |
| RiskLevels.FromScoreMonotone | app/src/main/java/com/hse/visualriskassessor/model/RiskLevel.kt:11-19 | on positive scores, a higher score never gives a lower level |
| RiskLevels.CalculateCommutes | app/src/main/java/com/hse/visualriskassessor/model/RiskLevel.kt:21-24 | `calculate(l, s) == calculate(s, l)`, wrap-around included |
| RiskLevels.CalculateInRange | app/src/main/java/com/hse/visualriskassessor/model/RiskLevel.kt:21-24 | when the product fits in an `Int`, `calculate` is the band of the exact product |
| RiskLevels.DeclarationOrder | app/src/main/java/com/hse/visualriskassessor/model/RiskLevel.kt:3-8 | `values()` lists the levels with scores 1..5 in order; names and display names are pairwise distinct |
| RiskLevels.TestedExamples | app/src/test/java/com/hse/visualriskassessor/model/RiskLevelTest.kt:9-57 | every assertion of the unit test: the band edges, five `calculate` cases and three display names with their scores |
| HazardTypes.HazardType.Ordinal | app/src/main/java/com/hse/visualriskassessor/model/HazardType.kt:3-47 | each type sits at its ordinal in `values()` |
| HazardTypes.Find | app/src/main/java/com/hse/visualriskassessor/model/HazardType.kt:50-56 | the found type matches the string by name or display name, ignoring case; None means no listed type matches |
| HazardTypes.FromString | app/src/main/java/com/hse/visualriskassessor/model/HazardType.kt:50-56 | a result other than OTHER matches the string by name or display name, ignoring case (first match: `FromStringFirstMatch`; fallback: `FromStringFallback`) |
| HazardTypes.FindIsFirst | app/src/main/java/com/hse/visualriskassessor/model/HazardType.kt:50-56 | `find` returns the first matching type in list order |
| HazardTypes.ValuesAtOrdinal | app/src/main/java/com/hse/visualriskassessor/model/HazardType.kt:3-47 | `values()[j].ordinal == j` |
| HazardTypes.FromStringFirstMatch | app/src/main/java/com/hse/visualriskassessor/model/HazardType.kt:50-56 | `fromString` returns the first type in declaration order that matches |
| HazardTypes.FromStringFallback | app/src/main/java/com/hse/visualriskassessor/model/HazardType.kt:50-56 | with no match the result is OTHER; any other result matches the string |
| HazardTypes.NamesDistinguishTypes | app/src/main/java/com/hse/visualriskassessor/model/HazardType.kt:3-47 | no string matches two different types, so the order of the search never matters |
| HazardTypes.NameKeysIdentifyType | app/src/main/java/com/hse/visualriskassessor/model/HazardType.kt:3-47 | each name and each display name determines its type |
| HazardTypes.FromStringName | app/src/main/java/com/hse/visualriskassessor/model/HazardType.kt:50-56 | `fromString(t.name) == t` for every type |
| HazardTypes.FromStringDisplayName | app/src/main/java/com/hse/visualriskassessor/model/HazardType.kt:50-56 | `fromString(t.displayName) == t` for every type |
| HazardTypes.FromStringIgnoresCase | app/src/main/java/com/hse/visualriskassessor/model/HazardType.kt:50-56 | strings equal up to case give the same type |
| HazardTypes.FindAgrees | app/src/main/java/com/hse/visualriskassessor/model/HazardType.kt:50-56 | `find` depends only on which types match the string |
| Hazards.Hazard.RiskScore | app/src/main/java/com/hse/visualriskassessor/model/Hazard.kt:14-15 | `riskScore` is `likelihood * severity`, exact when the product fits in an `Int` |
| Hazards.Hazard.Level | app/src/main/java/com/hse/visualriskassessor/model/Hazard.kt:11-12 | `riskLevel` is the band of the hazard's own `riskScore` |
| Hazards.Hazard.Recommendations | app/src/main/java/com/hse/visualriskassessor/model/Hazard.kt:17-96 | every hazard has exactly five pairwise distinct recommendations |
| Hazards.LevelIsBandOfScore | app/src/main/java/com/hse/visualriskassessor/model/Hazard.kt:11-12 | `riskLevel` is the band of `riskScore` |
| Hazards.ScoreOnMatrix | app/src/main/java/com/hse/visualriskassessor/model/Hazard.kt:11-15 | when both factors lie in 1..5, the score is the exact product, lies in 1..25 and gives the level |
| Hazards.RecommendationsFor | app/src/main/java/com/hse/visualriskassessor/model/Hazard.kt:17-96 | each of the eleven branches gives five distinct strings |
| Hazards.EntryOfRecommendation | app/src/main/java/com/hse/visualriskassessor/model/Hazard.kt:17-96 | each recommendation text identifies its hazard type and position |
| Hazards.RecommendationsDistinct | app/src/main/java/com/hse/visualriskassessor/model/Hazard.kt:17-96 | no text appears twice anywhere in the table, within a type or across types |
| Lists.DistinctMembers | app/src/main/java/com/hse/visualriskassessor/model/AssessmentResult.kt:19-21 | `distinct()` keeps exactly the elements of its input |
| Lists.Distinct | app/src/main/java/com/hse/visualriskassessor/model/AssessmentResult.kt:19-21 | `distinct()` never lengthens its input (contents, order and uniqueness are the `Distinct*` lemmas) |
| Lists.DistinctNoDuplicates | app/src/main/java/com/hse/visualriskassessor/model/AssessmentResult.kt:19-21 | `distinct()` lists no element twice |
| Lists.DistinctKeepsFirstOccurrenceOrder | app/src/main/java/com/hse/visualriskassessor/model/AssessmentResult.kt:19-21 | `distinct()` keeps first occurrences in their original order |
| Lists.DistinctOfDistinct | app/src/main/java/com/hse/visualriskassessor/model/AssessmentResult.kt:19-21 | a list without duplicates is its own `distinct()` |
| Lists.DistinctCardinality | app/src/main/java/com/hse/visualriskassessor/model/AssessmentResult.kt:19-21 | `distinct()` has one entry per different element |
| Assessments.AssessmentResult.HasHazards | app/src/main/java/com/hse/visualriskassessor/model/AssessmentResult.kt:13-14 | true iff the hazard list is non-empty |
| Assessments.AssessmentResult.HighestRiskScore | app/src/main/java/com/hse/visualriskassessor/model/AssessmentResult.kt:16-17 | 0 for no hazards; otherwise the score of some hazard and at least every hazard's score |
| Assessments.AssessmentResult.AllRecommendations | app/src/main/java/com/hse/visualriskassessor/model/AssessmentResult.kt:19-21 | at most five recommendations per hazard |
| Assessments.AssessmentResult.Summary | app/src/main/java/com/hse/visualriskassessor/model/AssessmentResult.kt:23-32 | the no-hazards text exactly when there are no hazards, else the overall level's text |
| Assessments.AssessmentResult.HazardsByRiskLevel | app/src/main/java/com/hse/visualriskassessor/model/AssessmentResult.kt:34-36 | the keys are exactly the levels present; each group is non-empty and holds exactly the hazards of its level |
| Assessments.MaxRiskScore | app/src/main/java/com/hse/visualriskassessor/model/AssessmentResult.kt:16-17 | the maximum of the scores, or 0 for an empty list |
| Assessments.FlatRecommendations | app/src/main/java/com/hse/visualriskassessor/model/AssessmentResult.kt:19-21 | `flatMap` gives five entries per hazard |
| Assessments.TypesOf | app/src/main/java/com/hse/visualriskassessor/model/AssessmentResult.kt:19-21 | the hazard types, position by position |
| Assessments.PresentTypeRecommendations | app/src/main/java/com/hse/visualriskassessor/model/AssessmentResult.kt:19-21 | every recommendation of a type present is in the flat list |
| Assessments.AbsentTypeRecommendations | app/src/main/java/com/hse/visualriskassessor/model/AssessmentResult.kt:19-21 | no recommendation of an absent type is in it |
| Assessments.AllRecommendationsByType | app/src/main/java/com/hse/visualriskassessor/model/AssessmentResult.kt:19-21 | `distinct()` of the flat list is the five-item blocks of the distinct hazard types, in first-occurrence order |
| Assessments.PresentBlockVanishes | app/src/main/java/com/hse/visualriskassessor/model/AssessmentResult.kt:19-21 | the recommendations of a type already listed add nothing to `distinct()` |
| Assessments.AbsentBlockKept | app/src/main/java/com/hse/visualriskassessor/model/AssessmentResult.kt:19-21 | the recommendations of a new type survive `distinct()` whole, at the end |
| Assessments.AllRecommendationsCount | app/src/main/java/com/hse/visualriskassessor/model/AssessmentResult.kt:19-21 | `getAllRecommendations` has five entries per distinct hazard type |
| Assessments.TypeSet | app/src/main/java/com/hse/visualriskassessor/model/AssessmentResult.kt:19-21 | the types listed are exactly the types of the hazards |
| Assessments.AllRecommendationsContents | app/src/main/java/com/hse/visualriskassessor/model/AssessmentResult.kt:19-21 | a string is recommended iff some hazard recommends it, and no string is listed twice |
| Assessments.FlatRecommendationsMembers | app/src/main/java/com/hse/visualriskassessor/model/AssessmentResult.kt:19-21 | the flat list holds exactly the hazards' recommendations |
| Assessments.LevelSummary | app/src/main/java/com/hse/visualriskassessor/model/AssessmentResult.kt:23-32 | no level's summary equals the no-hazards text |
| Assessments.SummaryDetermines | app/src/main/java/com/hse/visualriskassessor/model/AssessmentResult.kt:23-32 | equal summaries mean the same hazard presence and, with hazards, the same overall level |
| Assessments.LevelsOf | app/src/main/java/com/hse/visualriskassessor/model/AssessmentResult.kt:34-36 | exactly the levels some hazard has |
| Assessments.WithLevelMembers | app/src/main/java/com/hse/visualriskassessor/model/AssessmentResult.kt:34-36 | a hazard is in a level's group iff it is listed and has that level |
| Assessments.WithLevel | app/src/main/java/com/hse/visualriskassessor/model/AssessmentResult.kt:34-36 | a level's group is no longer than the hazard list (its members are `WithLevelMembers`, its order `WithLevelAppend`) |
| Assessments.AllGroupMembers | app/src/main/java/com/hse/visualriskassessor/model/AssessmentResult.kt:34-36 | the same, for all levels and hazards at once |
| Assessments.WithLevelAppend | app/src/main/java/com/hse/visualriskassessor/model/AssessmentResult.kt:34-36 | `groupBy` keeps list order: the group of a concatenation is the groups of the parts in turn |
| Assessments.GroupsPartition | app/src/main/java/com/hse/visualriskassessor/model/AssessmentResult.kt:34-36 | the five group sizes add up to the number of hazards |
| RiskAssessment.SumOf | app/src/main/java/com/hse/visualriskassessor/analysis/RiskAssessmentEngine.kt:109 | a sum of non-negative terms is non-negative |
| RiskAssessment.CountAt | app/src/main/java/com/hse/visualriskassessor/analysis/RiskAssessmentEngine.kt:111-113 | a count lies between 0 and the list length |
| RiskAssessment.CountBound | app/src/main/java/com/hse/visualriskassessor/analysis/RiskAssessmentEngine.kt:111-113 | the sum of 0/1 indicators lies between 0 and the list length |
| RiskAssessment.TruncDiv | app/src/main/java/com/hse/visualriskassessor/analysis/RiskAssessmentEngine.kt:109 | `toInt()` of the quotient truncates toward zero for either sign |
| RiskAssessment.MeanScore | app/src/main/java/com/hse/visualriskassessor/analysis/RiskAssessmentEngine.kt:109 | on a non-negative sum, the mean is the largest `m` with `m * n <= sum`, i.e. `average().toInt()` (threshold form: `MeanThreshold`) |
| RiskAssessment.OverallRisk | app/src/main/java/com/hse/visualriskassessor/analysis/RiskAssessmentEngine.kt:103-106 | no hazards give LOW |
| RiskAssessment.Rule | app/src/main/java/com/hse/visualriskassessor/analysis/RiskAssessmentEngine.kt:115-121 | EXTREME iff an EXTREME hazard or a score of 20; at least VERY_HIGH from two VERY_HIGH hazards or a score of 16; at least HIGH from one VERY_HIGH, two HIGH or a score of 10; not LOW with a HIGH hazard or a mean of 6 |
| RiskAssessment.CountPositive | app/src/main/java/com/hse/visualriskassessor/analysis/RiskAssessmentEngine.kt:111-113 | a count is positive iff some hazard has that level |
| RiskAssessment.CountTwo | app/src/main/java/com/hse/visualriskassessor/analysis/RiskAssessmentEngine.kt:111-113 | two hazards of a level make its count at least 2 |
| RiskAssessment.SumOfAppend | app/src/main/java/com/hse/visualriskassessor/analysis/RiskAssessmentEngine.kt:109 | the sum over a concatenation is the sum of the sums |
| RiskAssessment.SumOfRemove | app/src/main/java/com/hse/visualriskassessor/analysis/RiskAssessmentEngine.kt:109 | removing one element takes its term out of the sum |
| RiskAssessment.SumOfPermutation | app/src/main/java/com/hse/visualriskassessor/analysis/RiskAssessmentEngine.kt:109-113 | sums and counts do not depend on list order |
| RiskAssessment.MaxPermutation | app/src/main/java/com/hse/visualriskassessor/analysis/RiskAssessmentEngine.kt:108 | `maxOf` does not depend on list order |
| RiskAssessment.OverallRiskPermutation | app/src/main/java/com/hse/visualriskassessor/analysis/RiskAssessmentEngine.kt:103-122 | the overall level does not depend on the order of the hazards |
| RiskAssessment.MeanThreshold | app/src/main/java/com/hse/visualriskassessor/analysis/RiskAssessmentEngine.kt:109-120 | the truncated mean is at least 6 iff the sum is at least 6 per hazard |
| RiskAssessment.ExtremeRule | app/src/main/java/com/hse/visualriskassessor/analysis/RiskAssessmentEngine.kt:115-117 | EXTREME iff some hazard is EXTREME or scores at least 20 |
| RiskAssessment.AtLeastVeryHigh | app/src/main/java/com/hse/visualriskassessor/analysis/RiskAssessmentEngine.kt:115-118 | two VERY_HIGH hazards, or a score of at least 16, give at least VERY_HIGH |
| RiskAssessment.AtLeastHigh | app/src/main/java/com/hse/visualriskassessor/analysis/RiskAssessmentEngine.kt:115-119 | one VERY_HIGH hazard, two HIGH hazards or a score of at least 10 give at least HIGH |
| RiskAssessment.AtLeastMedium | app/src/main/java/com/hse/visualriskassessor/analysis/RiskAssessmentEngine.kt:115-120 | one HIGH hazard, or a mean of at least 6, gives at least MEDIUM |
| RiskAssessment.AtLeastEachSevereHazard | app/src/main/java/com/hse/visualriskassessor/analysis/RiskAssessmentEngine.kt:103-122 | the overall level is never below the level of any hazard at HIGH or above |
| RiskAssessment.LoneScoreFive | app/src/main/java/com/hse/visualriskassessor/analysis/RiskAssessmentEngine.kt:115-121 | a lone MEDIUM hazard scoring 5 gives LOW overall: the mean rule decides, not the hazard's band |
| Detection.MapLabelToHazard | app/src/main/java/com/hse/visualriskassessor/analysis/HazardDetector.kt:101-128 | only a confidence below 0.7 can give PPE_MISSING; every result is one of the seven mapped types |
| Detection.MapObjectToHazard | app/src/main/java/com/hse/visualriskassessor/analysis/HazardDetector.kt:130-132 | the label mapping at the object's confidence, or at 0 when it has none |
| Detection.FirstGroupWins | app/src/main/java/com/hse/visualriskassessor/analysis/HazardDetector.kt:101-128 | the first keyword group that occurs in the lower-cased label decides the type |
| Detection.NoKeywordNoHazard | app/src/main/java/com/hse/visualriskassessor/analysis/HazardDetector.kt:101-128 | a label containing no keyword maps to no hazard |
| Detection.MapLabelIgnoresCase | app/src/main/java/com/hse/visualriskassessor/analysis/HazardDetector.kt:101-128 | labels equal up to case map alike |
| Detection.Likelihood | app/src/main/java/com/hse/visualriskassessor/analysis/HazardDetector.kt:135-139 | 2..4: 4 iff confidence above 0.8, 2 iff at most 0.6 |
| Detection.Severity | app/src/main/java/com/hse/visualriskassessor/analysis/HazardDetector.kt:141-145 | 2..4: 4 iff the lower-cased label is a severe one, 3 iff a serious one |
| Detection.SeverityIgnoresCase | app/src/main/java/com/hse/visualriskassessor/analysis/HazardDetector.kt:141-145 | labels equal up to case get the same severity |
| Detection.LabelHazard | app/src/main/java/com/hse/visualriskassessor/analysis/HazardDetector.kt:43-52 | the hazard has the given type and the label's confidence, with both factors in 2..4 |
| Detection.ObjectHazard | app/src/main/java/com/hse/visualriskassessor/analysis/HazardDetector.kt:65-75 | the same for an object label, whose missing confidence counts as 0 |
| Detection.LabelerHazards | app/src/main/java/com/hse/visualriskassessor/analysis/HazardDetector.kt:38-57 | at most one hazard per label |
| Detection.AddIfNewType | app/src/main/java/com/hse/visualriskassessor/analysis/HazardDetector.kt:64-76 | the list is kept as a prefix, grows by at most one, and afterwards lists the hazard's type (freshness: `AddIfNewTypeFresh`) |
| Detection.AddObjectLabel | app/src/main/java/com/hse/visualriskassessor/analysis/HazardDetector.kt:62-77 | one object label keeps the list as a prefix and adds at most one hazard (`AddObjectLabelFresh`) |
| Detection.AddObjectLabels | app/src/main/java/com/hse/visualriskassessor/analysis/HazardDetector.kt:62-77 | one object's labels keep the list as a prefix and add at most one hazard per label (`AddObjectLabelsFresh`) |
| Detection.AddLabelsOf | app/src/main/java/com/hse/visualriskassessor/analysis/HazardDetector.kt:62-77 | the inner `forEach` loop computes exactly `AddObjectLabels` |
| Detection.AddObjects | app/src/main/java/com/hse/visualriskassessor/analysis/HazardDetector.kt:59-78 | the object loop keeps the labeller's hazards as a prefix (`AddObjectsFresh`, `LabelerHazardsFirst`) |
| Detection.Detected | app/src/main/java/com/hse/visualriskassessor/analysis/HazardDetector.kt:38-83 | the merged list holds no two hazards of one type (order and origin: `LabelerHazardsFirst`) |
| Detection.FailureMessage | app/src/main/java/com/hse/visualriskassessor/analysis/HazardDetector.kt:89 | the message is "ML analysis failed: " followed by the exception's message, or "null" when it has none |
| Detection.DistinctByType | app/src/main/java/com/hse/visualriskassessor/analysis/HazardDetector.kt:83 | `distinctBy { it.type }` never lengthens the list |
| Detection.Classify | app/src/main/java/com/hse/visualriskassessor/analysis/HazardDetector.kt:85-98 | Error iff both detectors failed, carrying the labeller's exception; Partial iff exactly one failed and hazards were found; Success iff neither failed and hazards were found; NoHazardsDetected otherwise; the hazards reported are the merged list |
| Detection.AnalyzeImage | app/src/main/java/com/hse/visualriskassessor/analysis/HazardDetector.kt:32-99 | the two loops, the merge and the outcome produce exactly `Classify` |
| Detection.DistinctByTypeTypes | app/src/main/java/com/hse/visualriskassessor/analysis/HazardDetector.kt:83 | the types kept are the distinct types, in first-occurrence order |
| Detection.DistinctByTypeUnique | app/src/main/java/com/hse/visualriskassessor/analysis/HazardDetector.kt:83 | no type is kept twice |
| Detection.DistinctByTypeKeepsFirst | app/src/main/java/com/hse/visualriskassessor/analysis/HazardDetector.kt:83 | each kept hazard is the first of its type in the input |
| Detection.AddObjectLabelFresh | app/src/main/java/com/hse/visualriskassessor/analysis/HazardDetector.kt:62-77 | one object label adds at most one hazard, whose type is not yet listed, after the existing ones |
| Detection.AddIfNewTypeFresh | app/src/main/java/com/hse/visualriskassessor/analysis/HazardDetector.kt:64 | the `!hazards.any { it.type == … }` test adds only a hazard of a new type |
| Detection.AddObjectLabelsFresh | app/src/main/java/com/hse/visualriskassessor/analysis/HazardDetector.kt:62-77 | the labels of one object only append hazards of new types |
| Detection.AddObjectsFresh | app/src/main/java/com/hse/visualriskassessor/analysis/HazardDetector.kt:59-81 | the object loop keeps the labeller's hazards as a prefix and appends only new types |
| Detection.FreshTypesSnoc | app/src/main/java/com/hse/visualriskassessor/analysis/HazardDetector.kt:64 | appending a hazard of an unlisted type keeps the appended part fresh |
| Detection.DistinctByTypeAppendFresh | app/src/main/java/com/hse/visualriskassessor/analysis/HazardDetector.kt:59-83 | `distinctBy` leaves a block of fresh types untouched after the deduplicated prefix |
| Detection.DistinctByTypeSnocNew | app/src/main/java/com/hse/visualriskassessor/analysis/HazardDetector.kt:83 | a hazard of a new type survives `distinctBy` at the end |
| Detection.LabelerHazardsFirst | app/src/main/java/com/hse/visualriskassessor/analysis/HazardDetector.kt:38-83 | the result is the labeller's hazards, one per type and the first of each, then the object detector's, each of a new type |
| Detection.LabelerHazardsPlausible | app/src/main/java/com/hse/visualriskassessor/analysis/HazardDetector.kt:38-57 | every labeller hazard has a mapped type and factors in 2..4 |
| Detection.AddObjectLabelsPlausible | app/src/main/java/com/hse/visualriskassessor/analysis/HazardDetector.kt:62-77 | the object labels add only such hazards |
| Detection.AddObjectsPlausible | app/src/main/java/com/hse/visualriskassessor/analysis/HazardDetector.kt:59-81 | the object loop adds only such hazards |
| Detection.DistinctByTypePlausible | app/src/main/java/com/hse/visualriskassessor/analysis/HazardDetector.kt:83 | deduplication keeps only such hazards |
| Detection.DetectedPlausible | app/src/main/java/com/hse/visualriskassessor/analysis/HazardDetector.kt:32-99 | every reported hazard has a mapped type and factors in 2..4, whichever detectors failed |
| Detection.PlausibleScore | app/src/main/java/com/hse/visualriskassessor/analysis/HazardDetector.kt:134-148 | factors in 2..4 give a score in 4..16, never EXTREME |
| Detection.DetectedHazardBounds | app/src/main/java/com/hse/visualriskassessor/analysis/HazardDetector.kt:32-99 | each reported hazard has a mapped type, factors in 2..4 and a score in 4..16 |
| Detection.DetectedNeverExtreme | app/src/main/java/com/hse/visualriskassessor/analysis/RiskAssessmentEngine.kt:103-122 | the detector's hazards never rate an image EXTREME overall |
| Converters.ValueOf | app/src/main/java/com/hse/visualriskassessor/data/converter/RiskLevelConverter.kt:14-16 | `valueOf` finds the level with exactly that name, or fails with that string when no level has it |
| Converters.SearchByName | app/src/main/java/com/hse/visualriskassessor/data/converter/RiskLevelConverter.kt:14-16 | the search over `values()` finds a level of that name when one exists |
| Converters.FromRiskLevel | app/src/main/java/com/hse/visualriskassessor/data/converter/RiskLevelConverter.kt:9-11 | null iff null; a stored name is read back by `valueOf` as the same level |
| Converters.ToRiskLevel | app/src/main/java/com/hse/visualriskassessor/data/converter/RiskLevelConverter.kt:14-16 | null stays null; a result carries the level of that name; failure means no level has it |
| Converters.NamesIdentifyLevels | app/src/main/java/com/hse/visualriskassessor/model/RiskLevel.kt:3-8 | no two levels share a name |
| Converters.RoundTrip | app/src/main/java/com/hse/visualriskassessor/data/converter/RiskLevelConverter.kt:9-16 | `toRiskLevel(fromRiskLevel(x)) == x`, null included |
| Converters.RoundTripFromStored | app/src/main/java/com/hse/visualriskassessor/data/converter/RiskLevelConverter.kt:9-16 | a string read back successfully is stored again unchanged |
| Converters.FromRiskLevelInjective | app/src/main/java/com/hse/visualriskassessor/data/converter/RiskLevelConverter.kt:9-11 | different levels are stored as different strings |
| Converters.OnlyExactNamesAccepted | app/src/main/java/com/hse/visualriskassessor/data/converter/RiskLevelConverter.kt:14-16 | display names and the `lowercase()` of every name are rejected |
| Storage.Position | app/src/main/java/com/hse/visualriskassessor/data/dao/AssessmentDao.kt:14-15 | rows before the position are strictly newer than the new row; in a sorted list the rest are not |
| Storage.InsertByTimestamp | app/src/main/java/com/hse/visualriskassessor/data/dao/AssessmentDao.kt:14-15 | the list stays newest first and is the old list with the row put in at one position |
| Storage.AssessmentDao.constructor | app/src/main/java/com/hse/visualriskassessor/data/dao/AssessmentDao.kt:10-28 | a new table is empty |
| Storage.AssessmentDao.GetAssessmentById | app/src/main/java/com/hse/visualriskassessor/data/dao/AssessmentDao.kt:17-18 | the row with that id, or null iff there is none |
| Storage.AssessmentDao.InsertAssessment | app/src/main/java/com/hse/visualriskassessor/data/dao/AssessmentDao.kt:20-21 | REPLACE on conflict: the row is stored under its id and no other row changes; the count grows only for a new id |
| Storage.AssessmentDao.DeleteAssessment | app/src/main/java/com/hse/visualriskassessor/data/dao/AssessmentDao.kt:23-24 | the row with that primary key is removed and no other; deleting a missing row changes nothing |
| Storage.AssessmentDao.DeleteAllAssessments | app/src/main/java/com/hse/visualriskassessor/data/dao/AssessmentDao.kt:26-27 | the table is empty |
| Storage.AssessmentDao.GetAllAssessments | app/src/main/java/com/hse/visualriskassessor/data/dao/AssessmentDao.kt:14-15 | every row exactly once, as stored, ordered by timestamp descending |
| Storage.InsertedRows | app/src/main/java/com/hse/visualriskassessor/data/dao/AssessmentDao.kt:14-15 | inserting a row with a new id keeps the ids distinct and holds exactly the old rows plus the new one |
| MatrixView.CellScore | app/src/main/java/com/hse/visualriskassessor/ui/widget/RiskMatrixView.kt:50-57 | every cell scores between 1 and 25 |
| MatrixView.Measure | app/src/main/java/com/hse/visualriskassessor/ui/widget/RiskMatrixView.kt:157-178 | EXACTLY gives the given size; AT_MOST gives the smaller of 600 and the bound; UNSPECIFIED gives 600 |
| MatrixView.MarkerCell | app/src/main/java/com/hse/visualriskassessor/ui/widget/RiskMatrixView.kt:98-102 | a marker is drawn iff likelihood and severity both lie in 1..5, at row likelihood-1 and column severity-1 |
| MatrixView.Markers | app/src/main/java/com/hse/visualriskassessor/ui/widget/RiskMatrixView.kt:98-115 | at most one marker per hazard |
| MatrixView.RiskMatrixView.constructor | app/src/main/java/com/hse/visualriskassessor/ui/widget/RiskMatrixView.kt:39-48 | the new view holds the product table and no hazards |
| MatrixView.RiskMatrixView.InitializeMatrix | app/src/main/java/com/hse/visualriskassessor/ui/widget/RiskMatrixView.kt:50-57 | after the two loops, every cell (l, s) holds (l+1)*(s+1) |
| MatrixView.RiskMatrixView.CellLevel | app/src/main/java/com/hse/visualriskassessor/ui/widget/RiskMatrixView.kt:81-82 | a cell is drawn at the band of its product score |
| MatrixView.RiskMatrixView.SetHazards | app/src/main/java/com/hse/visualriskassessor/ui/widget/RiskMatrixView.kt:59-62 | the hazard list is replaced and the matrix is unchanged |
| MatrixView.CellScoreSymmetric | app/src/main/java/com/hse/visualriskassessor/ui/widget/RiskMatrixView.kt:50-57 | the matrix is symmetric |
| MatrixView.CornerLevels | app/src/main/java/com/hse/visualriskassessor/ui/widget/RiskMatrixView.kt:50-57 | cell (0,0) is LOW and cell (4,4) is EXTREME |
| MatrixView.OnlyCornerExtreme | app/src/main/java/com/hse/visualriskassessor/ui/widget/RiskMatrixView.kt:81-82 | a cell is EXTREME iff it is the (4,4) corner |
| MatrixView.MarkerOnOwnLevel | app/src/main/java/com/hse/visualriskassessor/ui/widget/RiskMatrixView.kt:98-102 | a marker sits on the cell whose score and level are the hazard's own |
| MatrixView.MarkersOfAppend | app/src/main/java/com/hse/visualriskassessor/ui/widget/RiskMatrixView.kt:98-115 | markers follow list order: a concatenation's markers are each part's in turn |
| MatrixView.AllInRangeMarked | app/src/main/java/com/hse/visualriskassessor/ui/widget/RiskMatrixView.kt:98-115 | with all factors in 1..5, every hazard gets a marker |
| Camera.NextFlashMode | app/src/main/java/com/hse/visualriskassessor/ui/camera/CameraActivity.kt:135-139 | the cycle OFF → ON → AUTO → OFF, step by step; an unknown mode goes to OFF |
| Camera.FlashMessage | app/src/main/java/com/hse/visualriskassessor/ui/camera/CameraActivity.kt:143-147 | "Flash: On" iff ON, "Flash: Auto" iff AUTO, "Flash: Off" otherwise |
| Camera.NextLens | app/src/main/java/com/hse/visualriskassessor/ui/camera/CameraActivity.kt:151-158 | the other lens, or BACK from an unknown one |
| Camera.ThreeTogglesRestore | app/src/main/java/com/hse/visualriskassessor/ui/camera/CameraActivity.kt:134-149 | three toggles restore any valid flash mode |
| Camera.TogglesVisitAllModes | app/src/main/java/com/hse/visualriskassessor/ui/camera/CameraActivity.kt:134-149 | three successive toggles pass through three different modes |
| Camera.TwoSwitchesRestore | app/src/main/java/com/hse/visualriskassessor/ui/camera/CameraActivity.kt:151-158 | two switches restore any valid lens |
| Camera.ImageCapture.constructor | app/src/main/java/com/hse/visualriskassessor/ui/camera/CameraActivity.kt:79-82 | the capture use case is built with the given flash mode |
| Camera.CameraActivity.constructor | app/src/main/java/com/hse/visualriskassessor/ui/camera/CameraActivity.kt:26-30 | back lens, flash off, nothing bound |
| Camera.CameraActivity.BindCameraUseCases | app/src/main/java/com/hse/visualriskassessor/ui/camera/CameraActivity.kt:70-101 | without a provider nothing changes; otherwise a fresh capture use case gets the current flash mode and the current lens is bound |
| Camera.CameraActivity.OnProviderReady | app/src/main/java/com/hse/visualriskassessor/ui/camera/CameraActivity.kt:61-68 | once the provider arrives, the camera is bound with the current lens and flash mode |
| Camera.CameraActivity.ToggleFlash | app/src/main/java/com/hse/visualriskassessor/ui/camera/CameraActivity.kt:134-149 | the flash mode advances one step of the OFF → ON → AUTO → OFF cycle; the bound capture use case, if any, gets it; the toast names it; nothing else changes |
| Camera.CameraActivity.SwitchCamera | app/src/main/java/com/hse/visualriskassessor/ui/camera/CameraActivity.kt:151-158 | the lens flips and the camera is rebound with it, keeping the flash mode |

## Left out

- ML Kit inference is not modelled. The labeller's and object detector's outputs, or the exceptions their `await()` throws, are inputs. An exception is modelled as thrown before any result of that detector is used.
- Kotlin `Float` confidences are exact reals, and only the comparisons with 0.6, 0.7 and 0.8 matter. Float rounding at those boundaries and NaN are not modelled.
- Detection.LabelHazard: the `details` text is not stated. The model does not state the "(NN% confidence)" suffix, because that needs a float-to-integer-to-string conversion.
- Detection.FirstGroupWins: the rule is stated for every label. No concrete label such as "Background" is worked through.
- Assessments.AssessmentResult.HazardsByRiskLevel: `groupBy` returns a `LinkedHashMap` whose keys come in first-occurrence order. The model returns a Dafny `map`, which has no key order, so that order is not stated. The order within each group is stated, by `WithLevelAppend`.
- `lowercase()` and `equals(ignoreCase = true)` fold ASCII letters only. Unicode case folding is not modelled.
- RiskAssessment.OverallRisk: `average()` is computed in `Double`. The model uses the exact integer sum truncated toward zero, which agrees whenever the double sum is exact.
- `assessImage`, `loadBitmap`, `preprocessImage` and `saveImage` in RiskAssessmentEngine.kt are not modelled: they are bitmap, file and clock I/O. `release` is not modelled either.
- `AssessmentResult`'s random UUID, its `Date` default and `RiskLevel.colorRes` are not modelled. The timestamp and the `Long` fields of `AssessmentEntity` are unbounded integers.
- HazardListConverter.kt and AnalysisModeConverter.kt are not part of this model, and neither is the Gson JSON encoding. `hazardsJson` is an opaque string.
- Room is not modelled: SQL execution, `Flow` observation and the suspend/coroutine machinery. AppDatabase.kt and AssessmentRepository.kt are not part of this model.
- Storage.AssessmentDao.GetAllAssessments: rows with equal timestamps may come in any order, as in SQL, so no order among them is stated.
- MatrixView: the packing of a `MeasureSpec` into one `Int` is not modelled. Neither is `onDraw`'s geometry, paint, colours or text; only the choice of cells and markers is.
- Camera: `takePhoto`, the permission flow and navigation are not modelled. A `bindToLifecycle` failure (the catch that logs and finishes) is not modelled either. The toast is returned as a value rather than displayed.
- The other activities, adapters and the view model are not part of this model, and neither are PermissionManager.kt, ImageUtils.kt and OperationResult.kt.
