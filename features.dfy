/** The answers of one submission, their codes, and the 14-column row the
    classifier is given (diabetes_app.py, lines 38-41 and 58-173). */
module Features {
  import opened Wrappers
  import opened Encoding

  /** What the form's widgets return: the selected labels, the slider's day
      count and the entered BMI. */
  datatype Answers = Answers(
    sexLabel: string,
    genHlthLabel: string,
    physHlthDays: int,
    strokeLabel: string,
    fruitVegLabel: string,
    activityLabel: string,
    heartLabel: string,
    raceLabel: string,
    ageLabel: string,
    bmiReal: real,
    educationLabel: string,
    smokerLabel: string,
    incomeLabel: string)

  /** The ranges the slider (0..30) and the number input (10.0..60.0) enforce. */
  predicate InWidgetRange(a: Answers) {
    0 <= a.physHlthDays <= 30 && 10.0 <= a.bmiReal <= 60.0
  }

  /** Every label is one its select box offers. */
  predicate FromOptions(a: Answers) {
    && a.sexLabel in SexOptions
    && a.genHlthLabel in GenHlthOptions
    && a.strokeLabel in StrokeOptions
    && a.fruitVegLabel in FruitVegOptions
    && a.activityLabel in ActivityOptions
    && a.heartLabel in HeartOptions
    && a.raceLabel in RaceOptions
    && a.ageLabel in AgeOptions
    && a.educationLabel in EducationOptions
    && a.smokerLabel in SmokerOptions
    && a.incomeLabel in IncomeOptions
  }

  /** The encoded answers, one field per model column. */
  datatype Codes = Codes(
    sex: real, genHlth: real, physHlth: real, stroke: real, fruitVeg: real,
    activity: real, heart: real, race: real, age: real, bmi: real,
    education: real, smoker: real, year: real, income: real)

  predicate Binary(x: real) {
    x == 1.0 || x == 2.0
  }

  /** The value set of each column as the survey defines it. */
  predicate CodesInRange(c: Codes) {
    && Binary(c.sex)
    && 1.0 <= c.genHlth <= 5.0
    && (c.physHlth == NoneDays || 1.0 <= c.physHlth <= 30.0)
    && Binary(c.stroke) && Binary(c.fruitVeg) && Binary(c.activity) && Binary(c.heart)
    && 1.0 <= c.race <= 8.0
    && 1.0 <= c.age <= 13.0
    && 1000.0 <= c.bmi <= 6000.0
    && 1.0 <= c.education <= 4.0
    && 1.0 <= c.smoker <= 4.0
    && c.year == Year
    && 1.0 <= c.income <= 5.0
  }

  /** The module-level encoding of every answer. A general-health label that
      is not a dictionary key, or a catalogue label that is not in its list,
      makes Python raise; here the result is None. */
  function EncodeAnswers(a: Answers): (r: Option<Codes>)
    requires InWidgetRange(a)
    ensures r.Some? <==>
      && a.genHlthLabel in GenHlthMap
      && a.raceLabel in RaceOptions
      && a.ageLabel in AgeOptions
      && a.educationLabel in EducationOptions
      && a.smokerLabel in SmokerOptions
      && a.incomeLabel in IncomeOptions
    ensures r.Some? ==> CodesInRange(r.value)
  {
    var genHlth := EncodeGenHlth(a.genHlthLabel);
    var race := EncodeCatalogue(RaceOptions, a.raceLabel);
    var age := EncodeCatalogue(AgeOptions, a.ageLabel);
    var education := EncodeCatalogue(EducationOptions, a.educationLabel);
    var smoker := EncodeCatalogue(SmokerOptions, a.smokerLabel);
    var income := EncodeCatalogue(IncomeOptions, a.incomeLabel);
    if genHlth.None? || race.None? || age.None? || education.None? || smoker.None? || income.None? then
      None
    else
      Some(Codes(
        sex := EncodeSex(a.sexLabel),
        genHlth := genHlth.value,
        physHlth := EncodePhysHlth(a.physHlthDays),
        stroke := EncodeYesNo(a.strokeLabel),
        fruitVeg := EncodeYesNo(a.fruitVegLabel),
        activity := EncodeYesNo(a.activityLabel),
        heart := EncodeYesNo(a.heartLabel),
        race := race.value,
        age := age.value,
        bmi := EncodeBmi(a.bmiReal),
        education := education.value,
        smoker := smoker.value,
        year := Year,
        income := income.value))
  }

  /** Answers taken from the select boxes always encode. */
  lemma OptionsAlwaysEncode(a: Answers)
    requires InWidgetRange(a) && FromOptions(a)
    ensures EncodeAnswers(a).Some?
  {
  }

  // ---------------------------------------------------------------------------
  // The row handed to the classifier
  // ---------------------------------------------------------------------------

  /** The column order the trained model expects. */
  const FeatureOrder: seq<string> := [
    "SEX", "GENHLTH", "PHYSHLTH", "CVDSTRK3", "RFHLTH", "TOTINDA", "_MICHD",
    "RACE", "AGEGRP", "BMI", "EDUCATION", "SMOKER", "Year", "INCOME"
  ]

  /** `input_dict`: column name to code. */
  function InputDict(c: Codes): map<string, real> {
    map[
      "SEX" := c.sex, "GENHLTH" := c.genHlth, "PHYSHLTH" := c.physHlth, "CVDSTRK3" := c.stroke,
      "RFHLTH" := c.fruitVeg, "TOTINDA" := c.activity, "_MICHD" := c.heart, "RACE" := c.race,
      "AGEGRP" := c.age, "BMI" := c.bmi, "EDUCATION" := c.education,
      "SMOKER" := c.smoker, "Year" := c.year, "INCOME" := c.income
    ]
  }

  /** `pd.DataFrame([row])[columns]` for one row: the row's values in the
      order of `columns`; a column the row lacks raises, here None. */
  function SelectColumns(row: map<string, real>, columns: seq<string>): (r: Option<seq<real>>)
    ensures r.Some? <==> forall k :: 0 <= k < |columns| ==> columns[k] in row
    ensures r.Some? ==> |r.value| == |columns|
    ensures r.Some? ==> forall k :: 0 <= k < |columns| ==> r.value[k] == row[columns[k]]
  {
    if |columns| == 0 then Some([])
    else if columns[0] !in row then None
    else match SelectColumns(row, columns[1..])
      case None => None
      case Some(rest) => Some([row[columns[0]]] + rest)
  }

  /** The dictionary has exactly the model's columns, each named once, so the
      selection neither drops nor repeats an answer. */
  lemma InputDictColumns(c: Codes)
    ensures |FeatureOrder| == 14 && Distinct(FeatureOrder)
    ensures forall name :: name in InputDict(c) <==> name in FeatureOrder
  {
  }

  /** The row the model receives holds each answer's code at its column's
      position: SEX first, then GENHLTH, ..., Year (always 2023) thirteenth and
      INCOME last. */
  lemma FeatureRowOrder(c: Codes)
    ensures SelectColumns(InputDict(c), FeatureOrder) == Some([
      c.sex, c.genHlth, c.physHlth, c.stroke, c.fruitVeg, c.activity, c.heart,
      c.race, c.age, c.bmi, c.education, c.smoker, c.year, c.income])
  {
    var row := InputDict(c);
    var v := SelectColumns(row, FeatureOrder);
    assert v.Some?;
    assert v.value == [
      c.sex, c.genHlth, c.physHlth, c.stroke, c.fruitVeg, c.activity, c.heart,
      c.race, c.age, c.bmi, c.education, c.smoker, c.year, c.income];
  }

  /** The feature vector of one submission: each answer's code at the
      position of the column that names it. */
  function FeatureVector(a: Answers): (r: Option<seq<real>>)
    requires InWidgetRange(a)
    ensures r.Some? <==> EncodeAnswers(a).Some?
    ensures r.Some? ==> |r.value| == |FeatureOrder| == 14
    ensures r.Some? ==> r.value == [
      EncodeSex(a.sexLabel), EncodeGenHlth(a.genHlthLabel).value,
      EncodePhysHlth(a.physHlthDays), EncodeYesNo(a.strokeLabel),
      EncodeYesNo(a.fruitVegLabel), EncodeYesNo(a.activityLabel), EncodeYesNo(a.heartLabel),
      EncodeCatalogue(RaceOptions, a.raceLabel).value, EncodeCatalogue(AgeOptions, a.ageLabel).value,
      EncodeBmi(a.bmiReal), EncodeCatalogue(EducationOptions, a.educationLabel).value,
      EncodeCatalogue(SmokerOptions, a.smokerLabel).value, Year,
      EncodeCatalogue(IncomeOptions, a.incomeLabel).value]
  {
    match EncodeAnswers(a)
    case None => None
    case Some(c) =>
      FeatureRowOrder(c);
      SelectColumns(InputDict(c), FeatureOrder)
  }

  /** The value set of a model column, by the column's name. */
  predicate ColumnInRange(column: string, x: real) {
    if column in {"SEX", "CVDSTRK3", "RFHLTH", "TOTINDA", "_MICHD"} then Binary(x)
    else if column == "GENHLTH" then 1.0 <= x <= 5.0
    else if column == "PHYSHLTH" then x == NoneDays || 1.0 <= x <= 30.0
    else if column == "RACE" then 1.0 <= x <= 8.0
    else if column == "AGEGRP" then 1.0 <= x <= 13.0
    else if column == "BMI" then 1000.0 <= x <= 6000.0
    else if column in {"EDUCATION", "SMOKER"} then 1.0 <= x <= 4.0
    else if column == "Year" then x == Year
    else if column == "INCOME" then 1.0 <= x <= 5.0
    else false
  }

  /** In-range codes fill every column of the dictionary with a value from
      that column's value set. */
  lemma InputDictInRange(c: Codes)
    requires CodesInRange(c)
    ensures forall column :: column in InputDict(c) ==> ColumnInRange(column, InputDict(c)[column])
  {
  }

  /** So every feature vector the form submits holds, at each position, a
      value from the value set of the column named there; in particular
      PHYSHLTH is never 0 and Year is 2023. */
  lemma FeatureVectorInRange(a: Answers)
    requires InWidgetRange(a)
    ensures FeatureVector(a).Some? ==>
      forall k :: 0 <= k < |FeatureOrder| ==> ColumnInRange(FeatureOrder[k], FeatureVector(a).value[k])
  {
    if FeatureVector(a).Some? {
      var c := EncodeAnswers(a).value;
      InputDictInRange(c);
      assert FeatureVector(a) == SelectColumns(InputDict(c), FeatureOrder);
    }
  }
}
