/** The return-to-work score of the `POST /api/work-score` handler: a fixed
    point formula over the request body, clamped to [0, 100], returned with a
    fixed list of interventions that does not depend on the request. */
module WorkScore {
  import opened Json

  /** The request body fields the handler reads. A numeric field is `None`
      when the body omits it or holds `null` (both default to 0 through
      `??`). The age keeps `undefined` and `null` apart, because the handler
      compares it without a default. A flag is the raw JSON value; `None`
      stands for a missing or `null` flag, which defaults to "false". */
  datatype Request = Request(
    workExperience: Option<int>,          // work_experience
    canadaWorkex: Option<int>,            // canada_workex
    age: JsOptional<int>,                 // age
    readingEnglishScale: Option<int>,     // reading_english_scale
    speakingEnglishScale: Option<int>,    // speaking_english_scale
    writingEnglishScale: Option<int>,     // writing_english_scale
    numeracyScale: Option<int>,           // numeracy_scale
    computerScale: Option<int>,           // computer_scale
    felony: Option<Json>,                 // felony_bool
    substanceUse: Option<Json>,           // substance_use
    needMentalHealthSupport: Option<Json>,// need_mental_health_support_bool
    transportation: Option<Json>,         // transportation_bool
    currentlyEmployed: Option<Json>       // currently_employed
  )

  /** One recommended intervention: its projected impact in percent and its labels. */
  datatype Intervention = Intervention(percentage: real, labels: seq<string>)

  datatype Response = Response(baseline: int, interventions: seq<Intervention>)

  const BaseScore := 20
  const WorkExperienceCap := 10
  const CanadaWorkexCap := 5
  const ScaleCap := 10

  /** The interventions every response carries, in this order. */
  const StaticInterventions := [
    Intervention(8.5, ["Job training"]),
    Intervention(6.3, ["Counseling"]),
    Intervention(5.0, ["Mentorship programs"])
  ]

  /** `x ?? 0`. */
  function OrZero(x: Option<int>): int {
    if x.Some? then x.value else 0
  }

  /** `Math.min(x, cap)`. */
  function Min(x: int, cap: int): (r: int)
    ensures r <= cap && r <= x
  {
    if x < cap then x else cap
  }

  /** A flag counts only when it is exactly the string "true". */
  predicate IsTrue(flag: Option<Json>) {
    flag == Some(JStr("true"))
  }

  /** The age bonus: 5 for ages 18 to 35, else 3 for any age up to 50
      (younger than 18 included). `null` compares as 0 and so earns 3;
      `undefined` compares as `NaN`, fails both tests and earns nothing. */
  function AgeBonus(age: JsOptional<int>): (r: int)
    ensures r == 0 || r == 3 || r == 5
    ensures age.Defined? ==> (r == 5 <==> 18 <= age.value <= 35) && (r >= 3 <==> age.value <= 50)
    ensures age.Null? ==> r == 3
    ensures age.Undefined? ==> r == 0
  {
    match age
    case Undefined => 0
    case Null => 3
    case Defined(a) => if 18 <= a <= 35 then 5 else if a <= 50 then 3 else 0
  }

  /** The five skill scales' capped contributions. */
  function SkillPoints(r: Request): int {
    Min(OrZero(r.readingEnglishScale), ScaleCap) + Min(OrZero(r.speakingEnglishScale), ScaleCap)
    + Min(OrZero(r.writingEnglishScale), ScaleCap) + Min(OrZero(r.numeracyScale), ScaleCap)
    + Min(OrZero(r.computerScale), ScaleCap)
  }

  /** The penalties and bonuses of the five flags. */
  function FlagPoints(r: Request): int {
    (if IsTrue(r.felony) then -5 else 0)
    + (if IsTrue(r.substanceUse) then -3 else 0)
    + (if IsTrue(r.needMentalHealthSupport) then -2 else 0)
    + (if IsTrue(r.transportation) then 2 else 0)
    + (if IsTrue(r.currentlyEmployed) then 5 else 0)
  }

  /** The score before clamping: the sum of all contributions. However large
      the inputs, it never exceeds 97, since every contribution is capped. */
  function RawScore(r: Request): (s: int)
    ensures s <= 97
  {
    BaseScore + Min(OrZero(r.workExperience), WorkExperienceCap)
    + Min(OrZero(r.canadaWorkex), CanadaWorkexCap) + AgeBonus(r.age)
    + SkillPoints(r) + FlagPoints(r)
  }

  /** `Math.min(Math.max(x, 0), 100)`. */
  function Clamp(x: int): (r: int)
    ensures 0 <= r <= 100
    ensures 0 <= x <= 100 ==> r == x
    ensures x < 0 ==> r == 0
    ensures x > 100 ==> r == 100
  {
    var low := if x > 0 then x else 0;
    if low < 100 then low else 100
  }

  /** The baseline the handler returns: always within [0, 100]. */
  function Baseline(r: Request): (s: int)
    ensures 0 <= s <= 100
  {
    Clamp(RawScore(r))
  }

  /** The handler: accumulates the score step by step, then clamps it. */
  method ScoreHandler(body: Request) returns (response: Response)
    ensures response.baseline == Baseline(body)
    ensures response.interventions == StaticInterventions
  {
    var score := BaseScore;
    score := score + Min(OrZero(body.workExperience), WorkExperienceCap);
    score := score + Min(OrZero(body.canadaWorkex), CanadaWorkexCap);
    match body.age {
      case Undefined =>
      case Null => score := score + 3;
      case Defined(a) =>
        if 18 <= a && a <= 35 {
          score := score + 5;
        } else if a <= 50 {
          score := score + 3;
        }
    }
    assert score == BaseScore + Min(OrZero(body.workExperience), WorkExperienceCap)
                    + Min(OrZero(body.canadaWorkex), CanadaWorkexCap) + AgeBonus(body.age);
    score := score + Min(OrZero(body.readingEnglishScale), ScaleCap);
    score := score + Min(OrZero(body.speakingEnglishScale), ScaleCap);
    score := score + Min(OrZero(body.writingEnglishScale), ScaleCap);
    score := score + Min(OrZero(body.numeracyScale), ScaleCap);
    score := score + Min(OrZero(body.computerScale), ScaleCap);
    assert score == RawScore(body) - FlagPoints(body);
    if IsTrue(body.felony) { score := score - 5; }
    if IsTrue(body.substanceUse) { score := score - 3; }
    if IsTrue(body.needMentalHealthSupport) { score := score - 2; }
    if IsTrue(body.transportation) { score := score + 2; }
    if IsTrue(body.currentlyEmployed) { score := score + 5; }
    assert score == RawScore(body);
    score := if score > 0 then score else 0;
    score := if score < 100 then score else 100;
    response := Response(score, StaticInterventions);
  }

  // ----- Properties of the formula -----

  /** The upper clamp never fires: the baseline is the raw score floored at 0. */
  lemma CeilingNeverReached(r: Request)
    ensures Baseline(r) == if RawScore(r) > 0 then RawScore(r) else 0
    ensures Baseline(r) <= 97
  {
  }

  /** Every numeric input is non-negative (those present). */
  predicate NonNegative(r: Request) {
    && OrZero(r.workExperience) >= 0 && OrZero(r.canadaWorkex) >= 0
    && OrZero(r.readingEnglishScale) >= 0 && OrZero(r.speakingEnglishScale) >= 0
    && OrZero(r.writingEnglishScale) >= 0 && OrZero(r.numeracyScale) >= 0
    && OrZero(r.computerScale) >= 0
  }

  /** With non-negative inputs the raw score already lies in [10, 97], so the
      clamp changes nothing; it matters only for negative inputs. */
  lemma NonNegativeBounds(r: Request)
    requires NonNegative(r)
    ensures 10 <= RawScore(r) <= 97
    ensures Baseline(r) == RawScore(r)
  {
  }

  /** Both ends of [10, 97] are reached by non-negative requests, and a
      negative input can drive the baseline down to 0. */
  lemma BoundsAttained()
    ensures var lowest := Request(None, None, Defined(51), None, None, None, None, None,
                                  Some(JStr("true")), Some(JStr("true")), Some(JStr("true")), None, None);
            NonNegative(lowest) && Baseline(lowest) == 10
    ensures var highest := Request(Some(10), Some(5), Defined(18), Some(10), Some(10), Some(10), Some(10), Some(10),
                                   None, None, None, Some(JStr("true")), Some(JStr("true")));
            NonNegative(highest) && Baseline(highest) == 97
    ensures var negative := Request(Some(-100), None, Undefined, None, None, None, None, None,
                                    None, None, None, None, None);
            RawScore(negative) == -80 && Baseline(negative) == 0
  {
  }

  /** The age bonus brackets, each as an if-and-only-if. */
  lemma AgeBrackets(age: JsOptional<int>)
    ensures AgeBonus(age) == 5 <==> (age.Defined? && 18 <= age.value <= 35)
    ensures AgeBonus(age) == 3 <==> (age == Null || (age.Defined? && (age.value < 18 || 36 <= age.value <= 50)))
    ensures AgeBonus(age) == 0 <==> (age == Undefined || (age.Defined? && age.value > 50))
  {
  }

  /** The worked example: 20 + 10 + 2 + 5 + 50 + 2 + 5. */
  lemma WorkedExample()
    ensures Baseline(Request(Some(12), Some(2), Defined(30), Some(10), Some(10), Some(10), Some(10), Some(10),
                             None, None, None, Some(JStr("true")), Some(JStr("true")))) == 94
  {
  }

  // ----- Caps and monotonicity, one numeric field at a time -----

  datatype NumericField =
    WorkExperience | CanadaWorkex | ReadingEnglish | SpeakingEnglish | WritingEnglish | Numeracy | Computer

  function CapOf(f: NumericField): int {
    match f
    case WorkExperience => WorkExperienceCap
    case CanadaWorkex => CanadaWorkexCap
    case _ => ScaleCap
  }

  /** The request with one numeric field replaced. */
  function WithField(r: Request, f: NumericField, v: Option<int>): Request {
    match f
    case WorkExperience => r.(workExperience := v)
    case CanadaWorkex => r.(canadaWorkex := v)
    case ReadingEnglish => r.(readingEnglishScale := v)
    case SpeakingEnglish => r.(speakingEnglishScale := v)
    case WritingEnglish => r.(writingEnglishScale := v)
    case Numeracy => r.(numeracyScale := v)
    case Computer => r.(computerScale := v)
  }

  /** A numeric field adds `Math.min(value, cap)` to the raw score, and a
      missing or `null` field adds the same as 0. */
  lemma {:induction false} FieldContribution(r: Request, f: NumericField, v: Option<int>)
    ensures RawScore(WithField(r, f, v)) == RawScore(WithField(r, f, Some(0))) + Min(OrZero(v), CapOf(f))
  {
    match f
    case WorkExperience =>
    case CanadaWorkex =>
    case ReadingEnglish =>
    case SpeakingEnglish =>
    case WritingEnglish =>
    case Numeracy =>
    case Computer =>
  }

  /** Raising a field at or beyond its cap leaves the score unchanged. */
  lemma CapIdempotent(r: Request, f: NumericField, x: int)
    requires x >= CapOf(f)
    ensures Baseline(WithField(r, f, Some(x))) == Baseline(WithField(r, f, Some(CapOf(f))))
  {
    FieldContribution(r, f, Some(x));
    FieldContribution(r, f, Some(CapOf(f)));
  }

  /** A missing or `null` numeric field scores as 0. */
  lemma MissingCountsAsZero(r: Request, f: NumericField)
    ensures Baseline(WithField(r, f, None)) == Baseline(WithField(r, f, Some(0)))
  {
    FieldContribution(r, f, None);
  }

  /** Raising any numeric field never lowers the score. */
  lemma Monotone(r: Request, f: NumericField, x: int, y: int)
    requires x <= y
    ensures Baseline(WithField(r, f, Some(x))) <= Baseline(WithField(r, f, Some(y)))
  {
    FieldContribution(r, f, Some(x));
    FieldContribution(r, f, Some(y));
  }

  // ----- Flags, one at a time -----

  datatype Flag = Felony | SubstanceUse | MentalHealthSupport | Transportation | CurrentlyEmployed

  /** What a flag set to "true" adds to the raw score. */
  function Weight(flag: Flag): int {
    match flag
    case Felony => -5
    case SubstanceUse => -3
    case MentalHealthSupport => -2
    case Transportation => 2
    case CurrentlyEmployed => 5
  }

  function WithFlag(r: Request, flag: Flag, v: Option<Json>): Request {
    match flag
    case Felony => r.(felony := v)
    case SubstanceUse => r.(substanceUse := v)
    case MentalHealthSupport => r.(needMentalHealthSupport := v)
    case Transportation => r.(transportation := v)
    case CurrentlyEmployed => r.(currentlyEmployed := v)
  }

  /** A flag moves the raw score by its weight exactly when its value is the
      string "true"; any other value (the boolean `true`, "TRUE", a missing
      field) counts as "false". */
  lemma {:induction false} FlagContribution(r: Request, flag: Flag, v: Option<Json>)
    ensures RawScore(WithFlag(r, flag, v)) == RawScore(WithFlag(r, flag, None)) + (if IsTrue(v) then Weight(flag) else 0)
  {
    match flag
    case Felony =>
    case SubstanceUse =>
    case MentalHealthSupport =>
    case Transportation =>
    case CurrentlyEmployed =>
  }

  /** Setting a risk flag to "true" lowers the baseline, unless the score
      without it is already clamped at 0. */
  lemma PenaltyLowersScore(r: Request, flag: Flag)
    requires Weight(flag) < 0
    ensures Baseline(WithFlag(r, flag, Some(JStr("true")))) < Baseline(WithFlag(r, flag, None))
            <==> RawScore(WithFlag(r, flag, None)) > 0
    ensures Baseline(WithFlag(r, flag, Some(JBool(true)))) == Baseline(WithFlag(r, flag, None))
  {
    FlagContribution(r, flag, Some(JStr("true")));
    FlagContribution(r, flag, Some(JBool(true)));
  }
}
