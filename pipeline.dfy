/** One press of the "Calculate" button: answers to codes, codes to the
    classifier's row, the class-1 probability to a tier and its message kind
    (diabetes_app.py, lines 164-189). */
module Pipeline {
  import opened Wrappers
  import opened Encoding
  import opened Features
  import opened Risk

  datatype Failure =
    | UnknownAnswer     // a label missing from genhlth_map or from its option list
    | PredictionFailed  // predict_proba raised

  datatype Assessment = Assessment(features: seq<real>, prob: real, tier: Tier, level: string, status: string)

  /** The trained model is a parameter: given the row, it returns the class-1
      probability or None when it raises. */
  function Assess(a: Answers, predictProba: seq<real> -> Option<real>): (r: Result<Assessment, Failure>)
    requires InWidgetRange(a)
    ensures r == Err(UnknownAnswer) <==> EncodeAnswers(a).None?
    ensures r == Err(PredictionFailed) <==>
      FeatureVector(a).Some? && predictProba(FeatureVector(a).value).None?
    ensures r.Ok? ==> FeatureVector(a) == Some(r.value.features) && |r.value.features| == 14
    ensures r.Ok? ==> predictProba(r.value.features) == Some(r.value.prob)
    ensures r.Ok? ==> (r.value.tier == High <==> r.value.prob >= 0.52)
    ensures r.Ok? ==> (r.value.tier == Low <==> r.value.prob < 0.25)
    ensures r.Ok? ==> r.value.level == LevelName(r.value.tier) && r.value.status == Status(r.value.tier)
  {
    match FeatureVector(a)
    case None => Err(UnknownAnswer)
    case Some(v) =>
      match predictProba(v)
      case None => Err(PredictionFailed)
      case Some(prob) =>
        var tier := TierOf(prob);
        Ok(Assessment(v, prob, tier, LevelName(tier), Status(tier)))
  }

  /** The form's default answers (every select box's preselected option and
      the number input's 25.5), with the slider moved from its default 5 to 0:
      a woman in good health with no poor-health days, no stroke, enough fruit
      and vegetables, active, no heart disease, white, aged 55-59, some
      college, never smoked, income $50,000+. */
  const Example: Answers := Answers(
    "Female", "Good ", 0, "No ", "Yes", "Yes ", "No",
    "White only, non-Hispanic ", "55–59 ", 25.5,
    "Attended college/technical school", "Never smoked", "$50,000+ ")

  /** Its row is [2, 3, 88, 2, 1, 1, 2, 1, 8, 2550, 3, 4, 2023, 5], and a
      probability of 0.30 from the model puts it in the Medium tier. */
  lemma ExampleAssessment(predictProba: seq<real> -> Option<real>)
    requires predictProba([2.0, 3.0, 88.0, 2.0, 1.0, 1.0, 2.0, 1.0, 8.0, 2550.0, 3.0, 4.0, 2023.0, 5.0]) == Some(0.30)
    ensures FeatureVector(Example) ==
      Some([2.0, 3.0, 88.0, 2.0, 1.0, 1.0, 2.0, 1.0, 8.0, 2550.0, 3.0, 4.0, 2023.0, 5.0])
    ensures Assess(Example, predictProba).Ok?
    ensures Assess(Example, predictProba).value.tier == Medium
    ensures Assess(Example, predictProba).value.status == "warning"
  {
    SexCodes();
    GenHlthRanks();
    assert Example.genHlthLabel == GenHlthOptions[2];
    YesNoCodes(StrokeOptions, 1);
    YesNoCodes(FruitVegOptions, 0);
    YesNoCodes(ActivityOptions, 0);
    YesNoCodes(HeartOptions, 1);
    CataloguesDistinct();
    CataloguePosition(RaceOptions, 0);
    CataloguePosition(AgeOptions, 7);
    CataloguePosition(EducationOptions, 2);
    CataloguePosition(SmokerOptions, 3);
    CataloguePosition(IncomeOptions, 4);
    var c := EncodeAnswers(Example).value;
    FeatureRowOrder(c);
  }
}
