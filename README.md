# Diabetes risk checker: answer encoding and risk tiers

A Dafny model of the logic inside `diabetes_app.py`, a single-page survey
form. The form turns a respondent's answers into a 14-column feature row in
the order the trained XGBoost classifier expects. It feeds that row to the
classifier and maps the returned class-1 probability to a risk level (Low,
Medium or High) with a message kind.

Modules:

- `Wrappers` (`wrappers.dfy`): `Option` and `Result`, standing for Python's
  raised `KeyError`/`ValueError` and for a failing `predict_proba`.
- `Encoding` (`encoding.dfy`): how each answer is coded. This covers Python's
  case-sensitive substring test (`"Male" in label`, `"Yes" in label`), the
  general-health dictionary, the 0 → 88 sentinel for poor-health days, the
  `list.index(label) + 1` catalogue codes, `bmi_real * 100` and the fixed
  year 2023.
- `Features` (`features.dfy`): the raw answers, their codes, `input_dict`,
  `FEATURE_ORDER`, and the `DataFrame` column selection that builds the
  model's row.
- `Risk` (`risk.dfy`): the `>=` threshold chain (0.52, then 0.25) and the
  message kind of each tier.
- `Pipeline` (`pipeline.dfy`): one press of the button, with the classifier as
  a parameter. It also holds the form's default answers, with the
  poor-health slider moved from 5 to 0; their row is
  `[2, 3, 88, 2, 1, 1, 2, 1, 8, 2550, 3, 4, 2023, 5]`.

All codes are exact `real`s. The widget ranges (the slider's 0..30 days and
the number input's 10.0..60.0 BMI) are preconditions. Labels that a select
box cannot produce are still accepted as input: a general-health label that
is not a dictionary key, or a catalogue label that is not in its list, gives
`None`/`Err(UnknownAnswer)`, where Python would raise.

Two details of the code shape the codes:

- The BMI code is the plain product `bmi_real * 100` (line 138). It is not
  rounded.
- The sex and Yes/No codes come from a substring test `in` on the label
  (lines 65, 91, 99, 107 and 115), not from an exact label comparison. So
  "Female" gets 2.0 only because the test is case-sensitive.

## Model

| member | source | states |
|---|---|---|
| `Encoding.ContainsAt` | diabetes_app.py:65 | The left-to-right substring search holds exactly when some offset of the label holds the keyword, matched character by character (Python's `in` on `str`). |
| `Encoding.KeywordCode` | diabetes_app.py:65 | The code of a sex or Yes/No answer is 1.0 or 2.0. It is 1.0 exactly when the keyword ("Male" or "Yes") occurs at some offset of the label, and so for every label that begins with the keyword. |
| `Encoding.SexCodes` | diabetes_app.py:60-65 | "Male" is coded 1.0 and "Female" 2.0; the case-sensitive test does not find "Male" inside "Female". |
| `Encoding.YesNoQuestions` | diabetes_app.py:86-115 | The stroke, fruit/vegetable, activity and heart-disease questions each offer a Yes label ("Yes" or "Yes ") first and a No label ("No" or "No ") second. |
| `Encoding.YesNoCodes` | diabetes_app.py:86-115 | On any such question Yes is coded 1.0 and No 2.0, so the code is the chosen label's 1-based position and recovers the label. |
| `Encoding.EncodeGenHlth` | diabetes_app.py:73-74 | The general-health lookup succeeds exactly for the dictionary's keys, and then gives a rank in 1..5. |
| `Encoding.GenHlthRanks` | diabetes_app.py:68-74 | The dictionary ranks the select box's options in display order (Excellent 1 … Poor 5), and it accepts exactly those five labels. |
| `Encoding.EncodePhysHlth` | diabetes_app.py:77-82 | For a slider value in 0..30 the code is never 0: it is 88 or a whole number in 1..30. |
| `Encoding.PhysHlthRoundTrip` | diabetes_app.py:79-82 | Reading 88 as "no days" and any other code as its day count gives back the slider value. |
| `Encoding.PhysHlthInjective` | diabetes_app.py:81-82 | Two slider values with the same code are equal. |
| `Encoding.IndexOf` | diabetes_app.py:126 | `list.index`: the result is None exactly when the label is absent; otherwise it is the position of the label's first occurrence. |
| `Encoding.EncodeCatalogue` | diabetes_app.py:126 | A catalogue code exists exactly when the label is in the list, and then it lies in 1..length. |
| `Encoding.CatalogueRoundTrip` | diabetes_app.py:125-126 | The code of a listed label is a whole number in 1..length, and the option at that code's 1-based position is the label itself. |
| `Encoding.CataloguePosition` | diabetes_app.py:119-126 | In a list without repeats, the option at position i is coded i + 1. |
| `Encoding.CataloguesDistinct` | diabetes_app.py:119-158 | The race (8), age (13), education (4), smoking (4) and income (5) lists have those lengths and no repeated option, so their codes fill 1..8, 1..13, 1..4, 1..4 and 1..5. |
| `Encoding.EncodeBmi` | diabetes_app.py:137-138 | A BMI in 10.0..60.0 is coded within 1000..6000. |
| `Encoding.BmiStrictlyIncreasing` | diabetes_app.py:138 | A larger BMI gets a strictly larger code. |
| `Encoding.BmiRoundTrip` | diabetes_app.py:138 | The code divided by 100 is the entered BMI. |
| `Features.EncodeAnswers` | diabetes_app.py:58-161 | Encoding succeeds exactly when the general-health label is a dictionary key and each catalogue label is in its list. On success every code lies in its column's value set, and the year is 2023. |
| `Features.OptionsAlwaysEncode` | diabetes_app.py:58-158 | Answers whose labels all come from the select boxes always encode. |
| `Features.SelectColumns` | diabetes_app.py:173 | Selecting columns succeeds exactly when every column is in the row. The result then has one value per column: the row's value under that column's name, in the given order. |
| `Features.InputDictColumns` | diabetes_app.py:38-41 | `FEATURE_ORDER` names 14 distinct columns, and `input_dict` has exactly those keys. |
| `Features.FeatureRowOrder` | diabetes_app.py:166-173 | The row given to the model is SEX, GENHLTH, PHYSHLTH, CVDSTRK3, RFHLTH, TOTINDA, _MICHD, RACE, AGEGRP, BMI, EDUCATION, SMOKER, Year, INCOME, each holding its own answer's code. |
| `Features.FeatureVector` | diabetes_app.py:166-173 | A submission yields a row exactly when its answers encode. The row has 14 entries: the codes of sex, general health, poor-health days, stroke, fruit/vegetables, activity, heart disease, race, age group, BMI, education, smoking, the year 2023 and income, in that order. |
| `Features.InputDictInRange` | diabetes_app.py:166-171 | In-range codes put a value from each column's value set under that column's name. |
| `Features.FeatureVectorInRange` | diabetes_app.py:161-173 | Every entry of a submitted row lies in the value set of the column named at its position; PHYSHLTH is never 0 and Year is 2023. |
| `Risk.TierOf` | diabetes_app.py:181-186 | Exactly one tier per probability: High iff p ≥ 0.52, Medium iff 0.25 ≤ p < 0.52, Low iff p < 0.25. A probability at a threshold gets the higher tier. |
| `Risk.TierMonotone` | diabetes_app.py:181-186 | p1 ≤ p2 implies tier(p1) ≤ tier(p2) under Low < Medium < High. |
| `Risk.TierBoundaries` | diabetes_app.py:181-183 | tier(0.52) = High, tier(0.5199) = Medium, tier(0.25) = Medium, tier(0.2499) = Low. |
| `Risk.StatusOfTier` | diabetes_app.py:181-188 | High is shown as "error" with level name "High", Medium as "warning" with "Medium", and Low as "success" with "Low"; the message kind alone identifies the tier. |
| `Pipeline.Assess` | diabetes_app.py:164-189 | An unknown label fails as UnknownAnswer, and a raising classifier fails as PredictionFailed. On success the classifier receives the submission's 14-entry row, and the tier, level name and message kind follow the probability it returns. |
| `Pipeline.ExampleAssessment` | diabetes_app.py:58-186 | The select boxes' default answers and BMI 25.5 (lines 63-157), with the slider at 0 instead of its default 5 (line 79), yield the row [2, 3, 88, 2, 1, 1, 2, 1, 8, 2550, 3, 4, 2023, 5]. A probability of 0.30 for that row gives Medium, shown as "warning". |

## Left out

- Streamlit page layout, widgets, messages and `st.stop()` control flow (lines 7-13, 43-56, 188-189, 238-240): presentation only. The widget ranges appear only as preconditions (`InWidgetRange`, and the `requires` of `EncodePhysHlth` and `EncodeBmi`).
- Reading the Gemini API key and `genai.configure` (lines 15-24): configuration I/O.
- `joblib.load` and the XGBoost model (lines 26-35, 176): an opaque trained artifact. The classifier is the `predictProba` parameter of `Assess`, and `None` stands for an exception. Loading failure is not modelled.
- `Pipeline.Assess`: does not require the returned probability to lie in [0, 1]. The tier mapping is total over all reals, so nothing depends on it.
- Gemini prompt construction and `generate_content` (lines 191-236): a network service with free-text output.
- Floating-point behaviour: `bmi_real * 100`, the mix of Python ints and floats in the row, and the `{prob*100:.1f}` formatting are modelled with exact `real` arithmetic and no rounding.
