# ApneaInSight risk scoring and chat responder, modelled in Dafny

This project models the two computational cores of the ApneaInSight web
application:

- **The risk-scoring engine of `app.py`.** `predict_ahi` turns BMI, oxygen
  saturation, snore score, age and pulse into an apnea–hypopnea index (AHI).
  It does this with step factors, a weighted sum, a damping curve, a clamp to
  [0, 100] and `round(…, 1)`. The module also covers:
  - the severity ladder `get_severity_level`;
  - the BMI ladder `get_weight_category`;
  - the sleep-quality score `calculate_sleep_quality` and the
    `sleep_quality_map` percentage lookup;
  - the doctor's-recommendation ladder;
  - the BMI formula of the `predict` route;
  - the category codes handed to the advice model.
- **The keyword chat responder of `chatbot.py`.** `get_chatbot_response`
  lower-cases and strips the message. It then checks greetings first and
  farewells second. After that it scores every topic by how many of its
  keyword phrases occur in the message, keeps the first topic with the
  highest score, and answers from the knowledge base plus that topic's
  follow-up question. When no topic matched, it falls back to a contextual
  reply.

Modules:

| file | module | contents |
|---|---|---|
| `wrappers.dfy` | `Wrappers` | `Option` (the error path of a Python exception) |
| `rounding.dfy` | `Rounding` | Python `round(x, n)` on exact reals: round half to even |
| `risk_scoring.dfy` | `RiskScoring` | everything in `app.py` listed above, and the assembled `RiskAssessment` |
| `text.dfy` | `Text` | `str.lower`, `str.strip`, `sub in s`, keyword counting |
| `chat_tables.dfy` | `ChatTables` | the keyword, knowledge, follow-up, greeting, farewell and contextual tables, copied verbatim |
| `chatbot.dfy` | `Chatbot` | normalisation, topic scoring and selection, the response |

How the model is represented:

- Python floats are modelled as exact `real` numbers.
- Python exceptions become `None`. On exact reals the only one the modelled
  code can raise is `ZeroDivisionError`, for a zero height. CPython floats
  also underflow and overflow; see "## Left out".
- Each `random.choice(xs)` becomes an index `choice` into `xs`. The caller
  supplies it, within the length of the list that branch draws from
  (`Chatbot.ChoiceCount`).

Topic selection is a loop in the source, so it is a `method` with a `for` loop
and invariants in the model. It is proved against the predicate
`Chatbot.IsSelected`: topic k scores above zero, strictly above every earlier
topic, and at least as high as every topic. The tail of `get_chatbot_response`
that uses the loop's result (`Chatbot.AnswerTopic`) and the response itself
(`Chatbot.GetChatbotResponse`) are methods, because they call that loop.
Every other operation is a pure computation and is modelled as a function.

Behaviour of the code worth knowing:

- **BMI 42, SpO2 85, no snoring, age 65, pulse 95.** The estimate is AHI
  20.9. `get_severity_level` puts 20.9 in the 15–30 band, so the label is
  "Moderate" (`RiskScoring.PredictAhiExample`).
- **"I have loud snoring and morning headaches".** No keyword phrase of the
  topic table occurs in this message, so it gets a contextual reply.
- **"hi" inside other words.** The greeting test is a substring test. Any
  message containing "hi" is a greeting, and that includes "child",
  "children", "machine" and "this" (`Chatbot.ShadowedKeywordsAreGreetings`,
  `Chatbot.ChildrenQuestionIsGreeting`).
- **Ties.** The loop keeps a topic only when its score is strictly higher, so
  the earlier topic wins a tie. "therapy" alone scores one for both
  `treatment` and `cpap`, and `cpap`, the later topic, is not selected
  (`Chatbot.TieGoesToEarlierTopic`).

## Model

| member | source | states |
|---|---|---|
| Rounding.RoundHalfEvenInt | app.py:145 | the integer chosen is within 1/2 of its argument, and a whole number is left as it is |
| Rounding.Round | app.py:145 | `round(x, n)`: the multiple of 1/10^n nearest to x, ties to the even multiple; its properties are `RoundHalfEvenIntTiesToEven`, `RoundIsNearest`, `RoundMonotone`, `RoundTenthOnGrid` and `RoundWithin` |
| Rounding.RoundHalfEvenIntTiesToEven | app.py:145 | a value exactly halfway between two integers goes to the even one |
| Rounding.RoundHalfEvenIntMonotone | app.py:145 | rounding to an integer never reverses the order of two values |
| Rounding.RoundToMultipleExact | app.py:145 | a whole number is unchanged by rounding to any number of decimals |
| Rounding.RoundIsNearest | app.py:145 | `round(x, n)` is within half a unit in the n-th decimal place of x |
| Rounding.RoundMonotone | app.py:145 | `round(x, n)` is monotone in x |
| Rounding.RoundTenthOnGrid | app.py:145 | `round(x, 1)` is a whole number of tenths |
| Rounding.RoundWithin | app.py:142-145 | rounding keeps a value inside any interval with whole-number ends, so the clamped AHI stays in [0, 100] after rounding |
| RiskScoring.BmiFactor | app.py:83-93 | the BMI base is one of 3, 8, 15, 25, 35 |
| RiskScoring.BmiFactorBreakpoints | app.py:84-93 | the base reaches 8, 15, 25 and 35 exactly at BMI 25, 30, 35 and 40 (both directions) |
| RiskScoring.OxygenFactor | app.py:95-104 | the oxygen factor is one of 0, 4, 8, 12 |
| RiskScoring.OxygenFactorBreakpoints | app.py:97-104 | the factor reaches 4, 8 and 12 exactly below saturation 95, 93 and 90 (both directions) |
| RiskScoring.SnoringFactor | app.py:107 | the snoring factor has the sign of the snore score and is zero exactly for a zero score; it grows with the score (`FactorsMonotone`) |
| RiskScoring.AgeFactor | app.py:109-118 | the age factor is one of 0, 1, 2, 4 |
| RiskScoring.AgeFactorBreakpoints | app.py:111-118 | the factor reaches 1, 2 and 4 exactly at ages 40, 50 and 60 (both directions) |
| RiskScoring.PulseFactor | app.py:120-127 | the pulse factor is one of 0, 1, 2 |
| RiskScoring.PulseFactorBreakpoints | app.py:122-127 | the factor reaches 1 and 2 exactly at pulse 80 and 90 (both directions) |
| RiskScoring.FactorsMonotone | app.py:83-127 | BMI, snoring, age and pulse factors never fall as their input rises; the oxygen factor never rises |
| RiskScoring.WeightedSum | app.py:130-136 | without its snoring term 0.15 · snore score, the weighted sum lies in [1.5, 21.4], the values of every ladder at its lowest and at its highest step |
| RiskScoring.Damp | app.py:139 | the damping `x · (1 − 0.1 · x / 100)`; its properties are `DampShrinks` and `DampMonotone` |
| RiskScoring.Clamp | app.py:142 | `max(0, min(100, x))` lies in [0, 100] and is the identity inside it |
| RiskScoring.DampShrinks | app.py:139 | the damping never raises a non-negative sum, and keeps it non-negative up to 1000 |
| RiskScoring.DampMonotone | app.py:139 | the damping curve is monotone up to 500, the range the weighted sum reaches for snore scores up to 3000 |
| RiskScoring.AhiBeforeRounding | app.py:129-142 | the damped, clamped estimate lies in [0, 100] |
| RiskScoring.PredictAhi | app.py:78-145 | the AHI lies in [0, 100] and has at most one decimal place |
| RiskScoring.PredictAhiNearest | app.py:142-145 | the AHI is within 0.05 of the clamped, unrounded estimate |
| RiskScoring.PredictAhiMonotone | app.py:78-145 | the AHI never falls when BMI, snoring, age or pulse rise or when saturation falls |
| RiskScoring.PredictAhiFallsPastPeak | app.py:129-145 | past the damping's peak the estimate falls: snore score 0 gives AHI 1.5, snore score 10000 with the same other inputs gives 0 |
| RiskScoring.PredictAhiExample | app.py:78-156 | BMI 42, SpO2 85, no snoring, age 65, pulse 95: weighted sum 21.4, damped 20.94204, AHI 20.9, severity "Moderate" |
| RiskScoring.SeverityLevel | app.py:147-156 | the severity is one of the four labels |
| RiskScoring.SeverityBands | app.py:147-156 | each label holds exactly on its AHI band (both directions) |
| RiskScoring.SeverityMonotone | app.py:147-156 | a higher AHI never gives a milder severity |
| RiskScoring.WeightCategory | app.py:158-169 | the category is one of the five labels |
| RiskScoring.WeightCategoryBands | app.py:158-169 | each category holds exactly on its BMI band (both directions) |
| RiskScoring.WeightCategoryPosition | app.py:158-169 | the category's position, lightest first, is the number of breakpoints 25, 30, 35, 40 at or below the BMI |
| RiskScoring.WeightCategoryMonotone | app.py:158-169 | a higher BMI never gives a lighter category |
| RiskScoring.AhiScore | app.py:46 | the AHI component is non-negative, and at most 100 for a non-negative AHI |
| RiskScoring.SnoringScore | app.py:47 | the snoring component is non-negative, and at most 100 for a non-negative snore score |
| RiskScoring.OxygenScore | app.py:48 | the oxygen component is negative exactly below saturation 80 and lies in [-400, 100] for a saturation in [0, 100] |
| RiskScoring.PulseScore | app.py:49 | the pulse component lies in [0, 100] and is 100 exactly at pulse 60 |
| RiskScoring.SleepQualityTotal | app.py:52-58 | the weighted total is at most 100 for a non-negative AHI and snore score and a saturation up to 100, and at least −80 for a non-negative saturation |
| RiskScoring.QualityLabel | app.py:60-76 | the label is one of the eight quality labels |
| RiskScoring.CalculateSleepQuality | app.py:43-76 | the sleep quality is one of the eight quality labels |
| RiskScoring.QualityLabelBands | app.py:61-76 | each label holds exactly on its band of the weighted total (both directions) |
| RiskScoring.SleepQualityPercentage | app.py:228-238 | `sleep_quality_map.get(label, 50)` is one of 20, 40, 50, …, 100, and 50 for a label not in the table |
| RiskScoring.SleepQualityPercentageTotal | app.py:225-238 | every quality label is a key of `sleep_quality_map`, so the default 50 is never used, and the percentage is one of 20, 40, 50, …, 100 |
| RiskScoring.PercentageMonotone | app.py:228-238 | a higher weighted total never gives a lower percentage |
| RiskScoring.SleepQualityNonIncreasingInAhi | app.py:43-76 | a higher AHI never gives a higher sleep-quality percentage |
| RiskScoring.DoctorRecommendation | app.py:241-254 | the recommendation is one of the seven messages |
| RiskScoring.RecommendationsDistinct | app.py:241-254 | the seven messages are pairwise different |
| RiskScoring.RecommendationBands | app.py:241-254 | each message is chosen exactly on its AHI band (both directions) |
| RiskScoring.RecommendationPosition | app.py:241-254 | the message's position, least urgent first, is the number of breakpoints 3, 5, 10, 15, 20, 30 at or below the AHI |
| RiskScoring.RecommendationMonotone | app.py:241-254 | a higher AHI never gives a less urgent message |
| RiskScoring.ExactBmi | app.py:199 | the BMI times the squared height is the weight |
| RiskScoring.Bmi | app.py:192-199 | a zero height, and only a zero height, raises; otherwise the BMI is within 0.005 of weight / height² |
| RiskScoring.SingletonLabelCode | app.py:260-261 | the code is the label's position among the classes of an encoder fitted on that one label |
| RiskScoring.SingletonCodesCollide | app.py:260-261 | different severities, and different weight categories, receive the same code |
| RiskScoring.CodesDistinguishLabels | model_two.py:15-17 | with the encoder fitted on every label, codes lie in range and different labels get different codes |
| RiskScoring.Assess | app.py:188-261 | None exactly when the height is zero (Python raises); otherwise the BMI is the formula's; severity, weight category, sleep quality and recommendation are the ladders' labels for the reported AHI and BMI; the percentage is the table's value for the sleep quality; the codes are those of `SeverityCode` and `WeightCategoryCode`; every field is in its range |
| RiskScoring.AssessReportsEstimate | app.py:218 | the reported AHI is the estimate for the assessment's own BMI, within 0.05 of the unrounded formula |
| Text.LowerChar | chatbot.py:129 | the result is not an upper-case letter; other characters are kept, letters move by 32 |
| Text.Lower | chatbot.py:129 | same length, no upper-case letter left, each upper-case letter replaced by its lower-case letter, every other character kept in place |
| Text.LowerFixesLowerCase | chatbot.py:129 | text without upper-case letters is its own lower case |
| Text.TrimStart | chatbot.py:129 | a suffix of the input, only whitespace dropped, none left at its start |
| Text.TrimEnd | chatbot.py:129 | a prefix of the input, only whitespace dropped, none left at its end |
| Text.Strip | chatbot.py:129 | a slice of the input with only whitespace around it and none at either end |
| Text.StripKeepsLowerCase | chatbot.py:129 | stripping cannot introduce an upper-case letter |
| Text.StripIdempotent | chatbot.py:129 | stripping twice is stripping once |
| Text.Contains | chatbot.py:132 | `sub in s`; `ContainsIsSubstring` states what it means |
| Text.ContainsAny | chatbot.py:132-136 | `any(w in s for w in words)`; `Matches` is empty exactly when it fails |
| Text.ContainsIsSubstring | chatbot.py:132 | `sub in s` holds exactly when `sub` occurs as a contiguous slice of `s` |
| Text.ContainsInExtension | chatbot.py:132 | a phrase found in a text is found in every extension of it |
| Text.ContainsTransitive | chatbot.py:132 | whatever occurs in a phrase occurs in every text the phrase occurs in |
| Text.Matches | chatbot.py:144 | the matching phrases: their number is the number of list positions whose phrase occurs, and the list is empty exactly when no phrase occurs |
| Chatbot.TableKeysAgree | chatbot.py:6-87 | `sleep_apnea_knowledge` and `follow_ups` have the same topics |
| Chatbot.TopicNamesInTables | chatbot.py:90-107 | all 16 topics of `topic_keywords` are non-empty names present in the knowledge base and the follow-ups |
| Chatbot.AnswerCounts | chatbot.py:6-87 | every knowledge-base entry holds three answers |
| Chatbot.TopicNamesDistinct | chatbot.py:90-107 | each topic is listed once |
| Chatbot.TopicTablesAgree | chatbot.py:149-171 | the shipped tables satisfy `TablesAgree`: every topic the loop can pick has a non-empty name, passes the knowledge-base test, has a follow-up and has three answers |
| Chatbot.Normalize | chatbot.py:129 | the slice of the lower-cased input left once the whitespace at both ends is cut off; no upper-case letter and no whitespace at either end remain |
| Chatbot.NormalizeFixesNormalText | chatbot.py:129 | lower-case text without edge whitespace is its own normal form |
| Chatbot.NormalizeIdempotent | chatbot.py:129 | normalising twice is normalising once |
| Chatbot.TopicScore | chatbot.py:144 | the score is the number of the topic's keyword positions whose phrase occurs; it is zero exactly when none occurs |
| Chatbot.SelectionUnique | chatbot.py:140-147 | at most one topic is selected for a message |
| Chatbot.SelectTopic | chatbot.py:140-147 | no topic exactly when every score is zero; otherwise the selected topic, with its score |
| Chatbot.TieGoesToEarlierTopic | chatbot.py:94-147 | "therapy" scores one for both `treatment` and `cpap`, and `cpap`, the later topic, is not selected |
| Chatbot.TopicReply | chatbot.py:151-173 | the reply is the chosen answer, a space, and the topic's follow-up question (or the default question) |
| Chatbot.ChoiceCount | chatbot.py:133-184 | every branch's `random.choice` draws from three to five candidates, so choices 0, 1 and 2 are always valid |
| Chatbot.HiIsGreeting | chatbot.py:132-133 | a message in which "hi" occurs is a greeting |
| Chatbot.ShadowedKeywordsAreGreetings | chatbot.py:99-100 | a message naming "child", "children" or "machine" is always a greeting |
| Chatbot.HiThereIsGreeting | chatbot.py:129-133 | "hi there" is a greeting |
| Chatbot.ChildrenQuestionIsGreeting | chatbot.py:129-133 | "Is sleep apnea common in Children?" is a greeting |
| Chatbot.AnswerTopic | chatbot.py:149-184 | the selected topic's answer and follow-up when a topic matched, otherwise the contextual reply |
| Chatbot.GetChatbotResponse | chatbot.py:127-184 | greeting first, then farewell, then the reply of the selected topic, otherwise the contextual reply; each is the `choice`-th entry of its list |

## Left out

- The Flask routes, templates, form parsing, file upload and JSON handling are
  not modelled. `Assess` takes the parsed numbers directly.
- The required-field check (app.py:183-186) and float parsing are not modelled.
- Only the `ZeroDivisionError` path is modelled. Every raised exception is
  caught and rendered by the route, and that is not modelled either.
- Audio feature extraction and the snoring, sleep and advice models (librosa,
  joblib, scikit-learn) are not modelled. The snore score is an input.
  `preprocessor.transform` and `model_advice.predict` are not modelled.
- Gender is read (app.py:190) and never used. Blood pressure is only
  displayed. Neither is modelled. The display rounding `round(bmi, 1)` and `round(snore_score, 1)`
  is also left out.
- Floats are exact reals. Binary rounding error is not captured, so the
  model can differ from CPython where a decimal literal is not exact in
  binary. NaN and infinities are not captured, and neither is the
  `OverflowError` that `height ** 2` (app.py:199) raises for a height above
  about 1.3e154 m.
- RiskScoring.Bmi: does not capture the `ZeroDivisionError` CPython raises
  when a non-zero height below about 1.5e-162 m squares to 0.0. For such a
  height the model returns `Some`.
- `random.choice` is replaced by a caller-supplied index. Randomness is
  outside the model.
- Text.LowerChar, Text.Lower: only ASCII letters are lowered. Python's `str.lower` also
  lowers non-ASCII letters.
- Chatbot.TableKeysAgree: states that the two key sets are equal. It does not
  state that they equal the set of names in `topic_keywords`; only the
  inclusion `Chatbot.TopicNamesInTables` is proved.
- RiskScoring.PredictAhiMonotone: requires both snore scores to be at most
  3000. Above that the damping curve turns downward.
- RiskScoring.DampMonotone: proved only up to 500, the range the weighted sum
  can reach for snore scores up to 3000.
- RiskScoring.OxygenScore: the range is stated only for a saturation in
  [0, 100].
- RiskScoring.Assess: stores the codes of `SeverityCode` and
  `WeightCategoryCode`, the corrected encoding of the Findings table, and not
  the 0 that app.py:260-261 computes. `SingletonLabelCode` models the route's
  code as written.
- Chatbot.SelectTopic: takes the topic table as a parameter, in table order.
  `GetChatbotResponse` passes `topic_keywords` itself.

## Findings

| source | as written | input that shows it | evidently intended | confidence | as-written member | corrected member |
|---|---|---|---|---|---|---|
| app.py:260-261 | `label_encoder.fit_transform([severity])[0]` fits a fresh encoder on a one-element list, so the code is always 0 | AHI 0 ("Normal") and AHI 30 ("Severe") both give severity code 0; BMI 20 and BMI 45 both give category code 0 | the codes the training script produces by fitting on the whole column (model_two.py:15-17), which tell the labels apart | medium, not executed; the corrected codes assume the training column holds every label, in the alphabetical class order of a LabelEncoder; the comments at model_two.py:100-101 (`severity=2  # Moderate`, `weight_category=2  # Overweight`) suggest a different order, and the proved injectivity does not depend on the order | RiskScoring.SingletonCodesCollide | RiskScoring.CodesDistinguishLabels |

`RiskScoring.Assess` uses the corrected codes, `SeverityCode` and
`WeightCategoryCode`.
