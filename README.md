# Nutrition alerts and food classifier: a Dafny model

This project models the decision logic of a backend that advises older adults on their diet.

- **Daily totals.** The nutrients of a user's food records for the day are summed. A missing field counts as zero.
- **Baseline bounds.** Standard daily bounds are derived from gender and body weight.
- **Energy needs.** The basal metabolic rate follows the Mifflin–St Jeor formula. It is multiplied by an activity factor and rounded to give the total daily energy expenditure (TDEE).
- **Disease rules.** The bounds are tightened with a fixed table of disease rules. These cover diabetes, hypertension, obesity (a 10 % deficit below the TDEE) and dislipidemia.
- **Alerts.** Five threshold checks produce the alert messages. A default message is produced when no check fires.
- **Photo classifier.** A stand-in for an image model classifies an uploaded photo by its file name into a traffic-light tier. The tiers are VERDE (green), ROJO (red) and AMARILLO (amber).
- **Details text.** A reply text is built from the user's profile fields.

Modules:

- `Wrappers`: `Option` and `Result`.
- `Numeric`: Python's `round` (half to even) and `int()` on a real (truncation toward zero).
- `Text`: the string operations used, with ASCII case mapping. These are `lower`, `capitalize`, substring search, `rsplit(".", 1)[0]`, `join` and `str` of an integer.
- `Nutrition`: the records and the daily summation loop (`DailyConsumption`). Also the baseline bounds, the basal metabolic rate, the activity factor and the TDEE.
- `DiseaseRules`: the rule table. Each rule keeps its entries in the dict's insertion order.
- `Adjustment`: the disease adjustment.
  - It is specified as a left fold (`Adjust`), and `AdjustForDiseases` is the nested loop, proved equal to it.
  - The lemmas cover order independence, the single failure case, the keys that change and those that stay, and unknown diseases.
- `Alerts`: the five checks, specified by `AlertsOf` and run by `CheckIntake` through successive appends, and the full evaluation (`GenerateAlerts`).
  - An alert is a value of the enumeration `Alert`. `Message` gives the exact text the source appends, and `Render` turns a list of alerts into the list of strings the source returns.
  - `MessageInjective` shows no two alerts share a text, so everything proved about the alert list carries over to the strings (`RenderedAlerts`).
- `Classifier`: `Classify`, the classification by file name.
- `Details`: the base sentence, the detail sentences, the method that appends and joins them (`BuildDetails`), and the reply (`Recommend`).

The Python dict `rec` can lack the `"tdee"` key, hold `None` there, or hold a number. It is modelled by `TdeeSlot = NoTdeeKey | NullTdee | TdeeValue(kcal)`. Two Python exceptions are modelled as `Err` values:

- the baseline with no weight: `MissingWeight`;
- obesity when the TDEE is `None`, where `int(None * 0.9)` raises: `MissingTdee`.

Numbers are exact reals. Python floats are not modelled, so the decimal constants (`6.25`, `1.375`, `0.90`, …) are exact.

An all-zero day does not produce the default message. The calorie floor is at least 1600, so the below-calories alert fires instead (`Alerts.ZeroConsumptionScenario`). The code also has no guard that keeps `calorias_min <= calorias_max` after the obesity deficit. `Alerts.BothCalorieAlertsScenario` exhibits a user for whom both calorie alerts fire at once.

## Model

| member | source | states |
|---|---|---|
| Nutrition.DailyConsumption | backend/services/nutrition_service.py:25-42 | the loop's six running sums equal the fold `Total` of the records, each missing field counting 0 |
| Nutrition.TotalAppend | backend/services/nutrition_service.py:34-40 | the totals of two record lists laid end to end are the sum of their totals |
| Nutrition.TotalPermutation | backend/services/nutrition_service.py:34-40 | any reordering of the records gives the same totals |
| Nutrition.TotalNonNegative | backend/services/nutrition_service.py:25-40 | records with no negative field give totals with no negative field |
| Nutrition.TotalCaloriesOnly | backend/services/nutrition_service.py:34-40 | two records with only calories give those calories summed and 0 in the five other fields |
| Nutrition.StandardRecommendations | backend/services/nutrition_service.py:45-67 | fails with `MissingWeight` exactly when the weight is missing; otherwise yields exactly the nine baseline keys |
| Nutrition.StandardCalorieRange | backend/services/nutrition_service.py:48-51 | the calorie range is 2000–2600 exactly when the lower-cased gender is "masculino", and 1600–2000 otherwise |
| Nutrition.StandardFixedBounds | backend/services/nutrition_service.py:58-66 | carbohydrates 130–300, fat ≤ 70, sugar ≤ 25, salt ≤ 5, whatever the user |
| Nutrition.StandardProteinBounds | backend/services/nutrition_service.py:61-62 | the protein bounds are 0.8 and 1.2 times the weight, each within half a gram, and ordered |
| Nutrition.StandardBoundsPositiveAndOrdered | backend/services/nutrition_service.py:53-67 | for a weight of at least 1 kg every bound is positive and each min is at most its max |
| Nutrition.BasalMetabolicRate | backend/services/nutrition_service.py:73-83 | no value exactly when weight, height or age is missing or zero |
| Nutrition.BasalMetabolicRateGenderGap | backend/services/nutrition_service.py:78-81 | every gender that lower-cases to "masculino" gets the +5 formula and every other gender the −161 one, so users with equal body data differ by exactly 166 kcal |
| Nutrition.BasalMetabolicRateSlopes | backend/services/nutrition_service.py:79-81 | changing the body data moves the rate by 10 kcal per kg, 6.25 per cm and −5 per year |
| Nutrition.BasalMetabolicRateExample | backend/services/nutrition_service.py:79-81 | 70 kg, 175 cm, 30 years gives 1648.75 for a male in any letter case and 1482.75 for a female |
| Nutrition.ActivityFactor | backend/services/nutrition_service.py:86-98 | the table factor of the lower-cased level, 1.55 for an unknown or missing level, always between 1.2 and 1.9 |
| Nutrition.TotalDailyEnergyExpenditure | backend/services/nutrition_service.py:101-107 | no value exactly when the metabolic rate is missing or 0; otherwise within half a kcal of rate × factor, ties rounded to even |
| Nutrition.TotalDailyEnergyExpenditureExample | backend/services/nutrition_service.py:101-107 | a moderately active 70 kg, 175 cm, 30-year-old male: round(2555.5625) = 2556 |
| Numeric.RoundHalfEven | backend/services/nutrition_service.py:61-62 | the result is within 0.5 of the argument, and even on a tie |
| Numeric.RoundHalfEvenUnique | backend/services/nutrition_service.py:107 | any integer within 0.5 that is even on a tie is the rounding |
| Numeric.RoundHalfEvenMonotone | backend/services/nutrition_service.py:61-62 | rounding preserves order |
| Numeric.TruncToZero | backend/services/nutrition_service.py:129 | `int()` of a real: the integer part toward zero, for either sign |
| DiseaseRules.RulesTableNames | backend/services/recomendaciones.py:1-16 | the table has exactly the four lower-case disease names; "hipertensión" with an accent never matches |
| DiseaseRules.OverrideKeysAreBaselineKeys | backend/services/recomendaciones.py:1-16 | every override key except `calorias_deficit` is a baseline key |
| DiseaseRules.OverridesTightenBaseline | backend/services/recomendaciones.py:2-15 | each fixed override is below the baseline bound it replaces |
| DiseaseRules.DeficitBelowTdee | backend/services/recomendaciones.py:9-12 | the obesity rule is the single 0.90 deficit, and for a positive TDEE the integer ceiling it gives is below the TDEE |
| DiseaseRules.RuleKeysDisjoint | backend/services/recomendaciones.py:1-16 | no two diseases override the same key, and no rule names a key twice |
| DiseaseRules.RuleKeys | backend/services/recomendaciones.py:2-15 | the exact key set of each rule |
| Adjustment.AdjustForDiseases | backend/services/nutrition_service.py:111-135 | the nested loop with its early exit computes the fold `Adjust` of the disease list over the input |
| Adjustment.ApplyDiseaseOverlay | backend/services/nutrition_service.py:115-133 | applying a disease equals writing its own fixed entries over the current bounds |
| Adjustment.DiseaseWrites | backend/services/nutrition_service.py:117-133 | the exact entries each disease writes, per TDEE state; an unknown name writes nothing; obesity with a null TDEE fails |
| Adjustment.ApplyDiseasesPermutation | backend/services/nutrition_service.py:117-133 | any reordering of the disease list gives the same result |
| Adjustment.AdjustOrderIndependent | backend/services/nutrition_service.py:111-135 | the adjustment is the same for any ordering of the user's diseases |
| Adjustment.AdjustDiabetesHypertensionEitherOrder | backend/services/nutrition_service.py:111-135 | ["diabetes", "hipertension"] and the reverse list give the same bounds |
| Adjustment.AdjustKeepsKeys | backend/services/nutrition_service.py:115 | the adjusted bounds keep every input key, and the `"tdee"` entry is unchanged |
| Adjustment.AdjustFails | backend/services/nutrition_service.py:128-129 | fails exactly when an entry lower-cases to "obesidad" and `"tdee"` is None, and the error is `MissingTdee` |
| Adjustment.ApplyDiseasesLeavesOtherKeys | backend/services/nutrition_service.py:115-133 | a key no listed disease targets keeps its input value |
| Adjustment.LaterDiseaseWins | backend/services/nutrition_service.py:117-133 | after a known disease, its rule's targets hold that rule's values; obesity sets the ceiling to int(tdee × 0.9) when a TDEE is stored, and stores 0.9 under `calorias_deficit` when the dict has no `"tdee"` key |
| Adjustment.UnknownDiseasesIgnored | backend/services/nutrition_service.py:117-121 | a list of unknown diseases returns the input unchanged |
| Adjustment.ObesityDeficitExample | backend/services/nutrition_service.py:128-133 | a TDEE of 2500 gives a ceiling of 2250; with no `"tdee"` key the factor 0.9 is copied under `calorias_deficit` |
| Alerts.AlertsOf | backend/services/nutrition_service.py:145-166 | 1 to 5 alerts; each check's alert is present exactly when its check fires; the default appears exactly when none fires, and then alone; alerts are in check order without repeats |
| Alerts.CheckedProps | backend/services/nutrition_service.py:147-163 | after n checks the list holds exactly the fired alerts among the first n, in check order |
| Alerts.Message | backend/services/nutrition_service.py:149-166 | each alert has one fixed text, a sentence closed by a full stop |
| Alerts.Render | backend/services/nutrition_service.py:145-172 | the returned list of strings has one text per alert, at the same position, each that alert's `Message` |
| Alerts.MessageInjective | backend/services/nutrition_service.py:149-166 | the six alert texts are pairwise different |
| Alerts.RenderedAlerts | backend/services/nutrition_service.py:145-166 | in the returned strings each check's text appears exactly when its check fires, the default text exactly when none fires, and no text twice |
| Alerts.BaselineWithTdee | backend/services/nutrition_service.py:137-140 | fails with `MissingWeight` exactly when the weight is missing; otherwise the nine standard bounds with the `"tdee"` key always present, holding the TDEE when it has a value and `None` otherwise |
| Alerts.CheckedEmpty | backend/services/nutrition_service.py:145-166 | the five checks append nothing exactly when none of them fires |
| Alerts.CheckIntake | backend/services/nutrition_service.py:145-166 | the five checks with their appends, and the default when none fired, produce `AlertsFor` the consumption and bounds |
| Alerts.GenerateAlerts | backend/services/nutrition_service.py:137-172 | fails exactly when the weight is missing, or the TDEE is None and obesity is listed; otherwise reports the consumption and the TDEE, the bounds are the adjusted baseline-with-TDEE, and the alert list is `AlertsFor` those bounds |
| Alerts.ProteinAndFatIgnored | backend/services/nutrition_service.py:147-163 | protein and fat intake never change the alerts |
| Alerts.ExcessScenario | backend/services/nutrition_service.py:137-166 | an 80 kg male with no conditions, 2800 kcal, 350 g carbohydrate, 10 g sugar and 2 g salt: exactly [calorie excess, carbohydrate excess] |
| Alerts.ZeroConsumptionScenario | backend/services/nutrition_service.py:147-166 | with no conditions an all-zero day gives the below-calories alert alone |
| Alerts.WithinRangesScenario | backend/services/nutrition_service.py:147-166 | a female user within every checked bound gets the default message alone |
| Alerts.ObeseSedentaryWomanTdee | backend/services/nutrition_service.py:73-107 | a sedentary 70-year-old woman of 50 kg and 150 cm has TDEE round(926.5 × 1.2) = 1112 |
| Alerts.ObeseSedentaryWomanBounds | backend/services/nutrition_service.py:128-133 | with obesity her calorie ceiling becomes 1000 against an unchanged floor of 1600; carbohydrate, sugar and salt bounds stay 300, 25 and 5 |
| Alerts.BothCalorieAlertsScenario | backend/services/nutrition_service.py:137-166 | a sedentary 70-year-old female with obesity gets TDEE 1112 and ceiling 1000 against floor 1600, so 1200 kcal fires both calorie alerts |
| Classifier.FirstMatch | backend/app.py:21-27 | none exactly when no keyword occurs; otherwise the first keyword in list order that occurs |
| Classifier.Classify | backend/app.py:11-30 | empty name → ("Desconocido", AMARILLO); on the first green keyword hit → (that keyword capitalised, VERDE); else on the first red hit → (capitalised, ROJO); else (name minus its last extension, capitalised, AMARILLO) |
| Classifier.GreenBeatsRed | backend/app.py:21-27 | any green keyword in the lower-cased name makes the tier VERDE, whatever red keywords it holds |
| Classifier.HitNameIsKeyword | backend/app.py:21-27 | on a VERDE or ROJO result the food name is one of the six capitalised keywords |
| Classifier.GreenAndRedExample | backend/app.py:16-27 | "Pizza_Manzana.jpg" gives ("Manzana", VERDE) |
| Text.Contains | backend/app.py:22 | `kw in s` holds exactly when `kw` occurs at some position of `s` |
| Text.StripExtension | backend/app.py:30 | a name without a dot is unchanged; otherwise the result is the prefix before the last dot |
| Text.Lower | backend/app.py:16 | same length, each character lower-cased |
| Text.Capitalize | backend/app.py:23 | first character upper-cased, the rest lower-cased |
| Details.BaseMessage | backend/app.py:97-102 | the sentence starts "El alimento " followed by the food name, and ends with the fixed closing words |
| Details.BaseMessageDistinguishesTiers | backend/app.py:97-102 | different tiers give different sentences for the same food |
| Details.DetailParts | backend/app.py:78-95 | one sentence per field present: age, gender, blood type, weight, diseases, allergies |
| Details.ComposeDetails | backend/app.py:104-107 | starts with the base sentence; equals it exactly when there are no parts; otherwise a space and the parts joined by spaces follow |
| Details.BuildDetails | backend/app.py:78-107 | the appended detail list and the joined text equal `ComposeDetails` of the base sentence and `DetailParts` |
| Details.Recommend | backend/app.py:74-113 | the reply carries the classifier's food name, the tier's name and the details composed for that tier |
| Details.NoPartsExactlyWhenNoFields | backend/app.py:78-95 | no detail sentence exactly when no field is present; an Rh factor alone adds nothing |
| Details.EmptyProfileGivesBaseMessage | backend/app.py:104-107 | with no field present the details are exactly the base sentence |
| Details.RhNeedsBloodType | backend/app.py:84-87 | without a blood type, the Rh field changes nothing |
| Details.RhNeedsToBeGiven | backend/app.py:84-87 | an empty or missing Rh factor gives the same text |
| Details.AgeZeroReported | backend/app.py:80-81 | an age of 0 is reported, as the first sentence |
| Details.AllergiesLast | backend/app.py:94-95 | the allergy sentence, when present, is the last one |
| Text.Join | backend/app.py:93-95 | `sep.join(parts)` is empty for no parts; otherwise it starts with the first part, ends with the last and holds every part's characters plus one separator between neighbours |
| Text.JoinAppend | backend/app.py:93 | joining one more part adds exactly one separator before it |
| Text.NatToString | backend/app.py:81 | `str` of a natural number: decimal digits whose value is the number, with no leading zero, a single digit exactly below 10 |
| Text.IntToString | backend/app.py:81 | `str` of an integer: the digits of its absolute value, after a minus sign when negative, with no leading zero |

## Left out

- The database query in `obtener_consumo_diario` and the UTC clock are left out. The model starts from the list of records the query returns. The query only filters `timestamp >= today 00:00`; there is no upper bound on the day.
- IEEE floating point is left out: numbers are exact reals, so float rounding in sums and products is not modelled.
- Case mapping covers only the ASCII letters. Python's `lower()` and `capitalize()` also map accented capitals; the model leaves them as they are.
- A `None` gender makes `user.gender.lower()` raise in the source. The model takes the gender as a string and does not model that crash. `None` for the disease list is modelled as the empty list, since the source treats both alike.
- `getattr(user, "activity_level", "moderado")` is modelled as "moderado" when the level is missing. The user profile class is not part of this model.
- Nutrition.TotalDailyEnergyExpenditure: monotonicity in weight is not proved; the contract bounds the result around rate × factor instead.
- The Flask route's request validation, Pillow image decoding and JSON parsing (backend/app.py:36-62) are I/O and are left out, as is `jsonify`.
- In `Details.Profile` the weight is taken as the text Python prints for it. Python's float formatting is not modelled, and the age is an integer rather than any JSON value.
- `AlertReport` holds the alerts as `Alert` values; the source's list of strings is `Render` of that list.
- Classifier.Classify: the tier is the datatype `Tier`, and `TierName` gives its reply string. That the reply is one of VERDE/ROJO/AMARILLO therefore holds by construction.
- The chat and WhatsApp utilities, the database layer and the frontend are not part of this model.
