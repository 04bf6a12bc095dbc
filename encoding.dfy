/** How each survey answer of the diabetes risk form becomes a numeric code
    (diabetes_app.py, lines 58-161). */
module Encoding {
  import opened Wrappers

  // ---------------------------------------------------------------------------
  // Python's substring test `needle in hay` on str
  // ---------------------------------------------------------------------------

  predicate StartsWith(s: string, prefix: string) {
    |prefix| <= |s| && s[..|prefix|] == prefix
  }

  /** `needle in hay`, searched from the left one offset at a time. */
  predicate Contains(hay: string, needle: string)
    decreases |hay|
  {
    StartsWith(hay, needle) || (|hay| > 0 && Contains(hay[1..], needle))
  }

  /** `needle` occurs in `hay` starting at offset `i`. */
  predicate OccursAt(hay: string, needle: string, i: int) {
    0 <= i && i + |needle| <= |hay| && hay[i..i + |needle|] == needle
  }

  /** The left-to-right search agrees with the definition "some offset holds
      an occurrence" (case-sensitive, character by character). */
  lemma {:induction false} ContainsAt(hay: string, needle: string)
    ensures Contains(hay, needle) <==> exists i :: OccursAt(hay, needle, i)
    decreases |hay|
  {
    if StartsWith(hay, needle) {
      assert OccursAt(hay, needle, 0);
    } else if |hay| > 0 {
      ContainsAt(hay[1..], needle);
      if Contains(hay[1..], needle) {
        var i :| OccursAt(hay[1..], needle, i);
        assert hay[i + 1..i + 1 + |needle|] == hay[1..][i..i + |needle|];
        assert OccursAt(hay, needle, i + 1);
      } else {
        forall i | 1 <= i ensures !OccursAt(hay, needle, i) {
          if OccursAt(hay, needle, i) {
            assert OccursAt(hay[1..], needle, i - 1);
          }
        }
      }
    }
  }

  // ---------------------------------------------------------------------------
  // Sex and the Yes/No questions: 1.0 when the label contains a keyword
  // ---------------------------------------------------------------------------

  /** `1.0 if keyword in label else 2.0`: 1.0 exactly when the keyword occurs
      somewhere in the label. */
  function KeywordCode(answer: string, keyword: string): (r: real)
    ensures r == 1.0 || r == 2.0
    ensures r == 1.0 <==> exists i :: OccursAt(answer, keyword, i)
    ensures StartsWith(answer, keyword) ==> r == 1.0
  {
    ContainsAt(answer, keyword);
    if Contains(answer, keyword) then 1.0 else 2.0
  }

  const SexOptions: seq<string> := ["Male", "Female"]

  /** The sex question's keyword is "Male". */
  function EncodeSex(answer: string): real {
    KeywordCode(answer, "Male")
  }

  /** The test is case-sensitive: "Female" holds "male" but not "Male", so the
      two options receive different codes. */
  lemma SexCodes()
    ensures EncodeSex(SexOptions[0]) == 1.0
    ensures EncodeSex(SexOptions[1]) == 2.0
  {
    var f := SexOptions[1];
    assert !StartsWith(f, "Male") by { assert f[0] != 'M'; }
    assert !StartsWith(f[1..], "Male") by { assert f[1..][0] != 'M'; }
    assert !StartsWith(f[1..][1..], "Male") by { assert f[1..][1..][0] != 'M'; }
    assert !Contains(f[1..][1..][1..], "Male") by {
      var g := f[1..][1..][1..];
      assert |g| == 3;
      assert !StartsWith(g, "Male");
      assert !StartsWith(g[1..], "Male");
      assert !StartsWith(g[1..][1..], "Male");
      assert !StartsWith(g[1..][1..][1..], "Male");
    }
  }

  const StrokeOptions: seq<string> := ["Yes ", "No "]
  const FruitVegOptions: seq<string> := ["Yes", "No"]
  const ActivityOptions: seq<string> := ["Yes ", "No "]
  const HeartOptions: seq<string> := ["Yes", "No"]

  /** The keyword of the stroke, fruit and vegetable, physical activity and
      heart disease questions is "Yes". */
  function EncodeYesNo(answer: string): real {
    KeywordCode(answer, "Yes")
  }

  /** The two labels of a Yes/No question: "Yes" or "Yes " first, "No" or
      "No " second. */
  predicate YesNoOptions(options: seq<string>) {
    |options| == 2 && options[0] in {"Yes", "Yes "} && options[1] in {"No", "No "}
  }

  /** Each Yes/No question offers a Yes answer and a No answer. */
  lemma YesNoQuestions()
    ensures YesNoOptions(StrokeOptions) && YesNoOptions(FruitVegOptions)
    ensures YesNoOptions(ActivityOptions) && YesNoOptions(HeartOptions)
  {
  }

  /** On any Yes/No question, Yes is coded 1.0 and No is coded 2.0, so the code
      is the 1-based position of the chosen answer and recovers it. */
  lemma YesNoCodes(options: seq<string>, i: int)
    requires YesNoOptions(options) && 0 <= i < 2
    ensures EncodeYesNo(options[i]) == (i + 1) as real
    ensures options[EncodeYesNo(options[i]).Floor - 1] == options[i]
  {
    if i == 1 {
      var n := options[1];
      assert !Contains(n, "Yes") by {
        assert !StartsWith(n, "Yes") by { assert n[0] == 'N'; }
        assert !StartsWith(n[1..], "Yes");
        assert !StartsWith(n[1..][1..], "Yes");
        if |n| == 3 {
          assert !StartsWith(n[1..][1..][1..], "Yes");
        }
      }
    } else {
      assert StartsWith(options[0], "Yes");
    }
  }

  // ---------------------------------------------------------------------------
  // General health: a dictionary from the five labels to 1..5
  // ---------------------------------------------------------------------------

  const GenHlthOptions: seq<string> := ["Excellent ", "Very good ", "Good ", "Fair ", "Poor "]

  const GenHlthMap: map<string, int> :=
    map["Excellent " := 1, "Very good " := 2, "Good " := 3, "Fair " := 4, "Poor " := 5]

  /** `genhlth_map[genhlth_label]`; an answer that is not a key raises, here None. */
  function EncodeGenHlth(answer: string): (r: Option<real>)
    ensures r.Some? <==> answer in GenHlthMap
    ensures r.Some? ==> 1.0 <= r.value <= 5.0
  {
    if answer in GenHlthMap then Some(GenHlthMap[answer] as real) else None
  }

  /** The dictionary ranks the select box's options in the order they are
      shown: Excellent is 1 and Poor is 5, and no other answer is accepted. */
  lemma GenHlthRanks()
    ensures forall i :: 0 <= i < |GenHlthOptions| ==>
      EncodeGenHlth(GenHlthOptions[i]) == Some((i + 1) as real)
    ensures forall answer :: EncodeGenHlth(answer).Some? <==> answer in GenHlthOptions
  {
  }

  // ---------------------------------------------------------------------------
  // Days of poor physical health: 0 is recorded as the sentinel 88
  // ---------------------------------------------------------------------------

  const NoneDays: real := 88.0

  /** The slider reports 0..30; 0 ("none") becomes 88.0, other values stay. */
  function EncodePhysHlth(days: int): (r: real)
    requires 0 <= days <= 30
    ensures r != 0.0
    ensures r == NoneDays || (1.0 <= r <= 30.0 && r == r.Floor as real)
  {
    if days == 0 then NoneDays else days as real
  }

  /** The survey's reading of a PHYSHLTH code as a number of days. */
  function DecodePhysHlth(code: real): (days: int)
  {
    if code == NoneDays then 0 else code.Floor
  }

  /** Decoding gives back the slider value, so no two slider values share a code. */
  lemma PhysHlthRoundTrip(days: int)
    requires 0 <= days <= 30
    ensures DecodePhysHlth(EncodePhysHlth(days)) == days
  {
  }

  lemma PhysHlthInjective(d1: int, d2: int)
    requires 0 <= d1 <= 30 && 0 <= d2 <= 30
    requires EncodePhysHlth(d1) == EncodePhysHlth(d2)
    ensures d1 == d2
  {
  }

  // ---------------------------------------------------------------------------
  // Catalogue questions: 1-based position in a fixed option list
  // ---------------------------------------------------------------------------

  const RaceOptions: seq<string> := [
    "White only, non-Hispanic ", "Black only, non-Hispanic ",
    "American Indian/Alaskan Native only ", "Asian only ",
    "Native Hawaiian/Other Pacific Islander only ", "Other race only ",
    "Multiracial, non-Hispanic ", "Hispanic "
  ]

  const AgeOptions: seq<string> := [
    "18–24 ", "25–29 ", "30–34 ", "35–39 ", "40–44 ", "45–49 ",
    "50–54 ", "55–59 ", "60–64 ", "65–69 ", "70–74 ", "75–79 ", "80+ "
  ]

  const EducationOptions: seq<string> := [
    "Did not graduate high school", "Graduated high school",
    "Attended college/technical school", "Graduated college/technical school"
  ]

  const SmokerOptions: seq<string> :=
    ["Current – every day", "Current – some days", "Former smoker", "Never smoked"]

  const IncomeOptions: seq<string> := [
    "<$15,000", "$15,000–<$25,000", "$25,000–<$35,000 ", "$35,000–<$50,000 ", "$50,000+ "
  ]

  predicate Distinct(xs: seq<string>) {
    forall i, j :: 0 <= i < j < |xs| ==> xs[i] != xs[j]
  }

  /** Python's `list.index`: the position of the first occurrence, None when
      the value is absent (where Python raises ValueError). */
  function IndexOf(xs: seq<string>, x: string): (r: Option<nat>)
    ensures r.None? <==> x !in xs
    ensures r.Some? ==> r.value < |xs| && xs[r.value] == x
    ensures r.Some? ==> forall j :: 0 <= j < r.value ==> xs[j] != x
  {
    if |xs| == 0 then None
    else if xs[0] == x then Some(0)
    else match IndexOf(xs[1..], x)
      case None => None
      case Some(k) => Some(k + 1)
  }

  /** `options.index(label) + 1` */
  function EncodeCatalogue(options: seq<string>, answer: string): (r: Option<real>)
    ensures r.None? <==> answer !in options
    ensures r.Some? ==> 1.0 <= r.value <= |options| as real
  {
    match IndexOf(options, answer)
    case None => None
    case Some(i) => Some((i + 1) as real)
  }

  /** An answer from the list gets a code in 1..|options| that leads back to it. */
  lemma CatalogueRoundTrip(options: seq<string>, answer: string)
    requires answer in options
    ensures EncodeCatalogue(options, answer).Some?
    ensures var c := EncodeCatalogue(options, answer).value;
      1.0 <= c <= |options| as real && c == c.Floor as real && options[c.Floor - 1] == answer
  {
  }

  /** With distinct options, the code of the option at position i is i + 1. */
  lemma CataloguePosition(options: seq<string>, i: int)
    requires Distinct(options) && 0 <= i < |options|
    ensures EncodeCatalogue(options, options[i]) == Some((i + 1) as real)
  {
  }

  /** Every catalogue of the form lists each option once, so every code is a
      position: race 1..8, age group 1..13, education 1..4, smoking 1..4,
      income 1..5. */
  lemma CataloguesDistinct()
    ensures Distinct(RaceOptions) && |RaceOptions| == 8
    ensures Distinct(AgeOptions) && |AgeOptions| == 13
    ensures Distinct(EducationOptions) && |EducationOptions| == 4
    ensures Distinct(SmokerOptions) && |SmokerOptions| == 4
    ensures Distinct(IncomeOptions) && |IncomeOptions| == 5
  {
  }

  // ---------------------------------------------------------------------------
  // BMI and the survey year
  // ---------------------------------------------------------------------------

  /** `bmi_real * 100` for the number input's range 10.0..60.0, in exact
      arithmetic. */
  function EncodeBmi(bmiReal: real): (r: real)
    requires 10.0 <= bmiReal <= 60.0
    ensures 1000.0 <= r <= 6000.0
  {
    bmiReal * 100.0
  }

  /** Larger BMI means larger code, and the code / 100 is the entered BMI. */
  lemma BmiStrictlyIncreasing(b1: real, b2: real)
    requires 10.0 <= b1 < b2 <= 60.0
    ensures EncodeBmi(b1) < EncodeBmi(b2)
  {
  }

  lemma BmiRoundTrip(bmiReal: real)
    requires 10.0 <= bmiReal <= 60.0
    ensures EncodeBmi(bmiReal) / 100.0 == bmiReal
  {
  }

  /** The survey year is fixed. */
  const Year: real := 2023.0
}
