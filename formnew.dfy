/** The intake form: its initial and cleared field values, and the
    validator that gates submission. */
module FormNew {
  import opened JsText
  import opened Json

  /** The form's initial state: every field starts as the empty string,
      the string "false" or the number 0, names empty and age 0. */
  function InitialUser(): (r: Record)
    ensures r.Values <= {JStr(""), JStr("false"), JNum(0.0)}
    ensures "firstName" in r && "lastName" in r && "age" in r && "income_source" in r
    ensures r["firstName"] == JStr("") && r["lastName"] == JStr("") && r["age"] == JNum(0.0)
  {
    map[
      "firstName" := JStr(""), "lastName" := JStr(""), "age" := JNum(0.0), "gender" := JStr(""),
      "work_experience" := JNum(0.0), "canada_workex" := JNum(0.0), "dep_num" := JNum(0.0),
      "canada_born" := JStr("false"), "citizen_status" := JStr(""), "level_of_schooling" := JStr(""),
      "fluent_english" := JStr("false"), "reading_english_scale" := JNum(0.0),
      "speaking_english_scale" := JNum(0.0), "writing_english_scale" := JNum(0.0),
      "numeracy_scale" := JNum(0.0), "computer_scale" := JNum(0.0),
      "transportation_bool" := JStr("false"), "caregiver_bool" := JStr("false"), "housing" := JStr(""),
      "income_source" := JStr(""), "felony_bool" := JStr("false"), "attending_school" := JStr("false"),
      "currently_employed" := JStr("false"), "substance_use" := JStr("false"),
      "time_unemployed" := JNum(0.0), "need_mental_health_support_bool" := JStr("false")
    ]
  }

  /** `handleClearForm`: the state the form is reset to. It restores
      every initial value but one: `income_source` becomes the number 0
      where it started as the empty string. */
  function ClearedUser(): (r: Record)
    ensures r.Keys == InitialUser().Keys
    ensures forall k :: k in r && k != "income_source" ==> r[k] == InitialUser()[k]
    ensures InitialUser()["income_source"] == JStr("") && r["income_source"] == JNum(0.0)
  {
    map[
      "firstName" := JStr(""), "lastName" := JStr(""), "age" := JNum(0.0), "gender" := JStr(""),
      "work_experience" := JNum(0.0), "canada_workex" := JNum(0.0), "dep_num" := JNum(0.0),
      "canada_born" := JStr("false"), "citizen_status" := JStr(""), "level_of_schooling" := JStr(""),
      "fluent_english" := JStr("false"), "reading_english_scale" := JNum(0.0),
      "speaking_english_scale" := JNum(0.0), "writing_english_scale" := JNum(0.0),
      "numeracy_scale" := JNum(0.0), "computer_scale" := JNum(0.0),
      "transportation_bool" := JStr("false"), "caregiver_bool" := JStr("false"), "housing" := JStr(""),
      "income_source" := JNum(0.0), "felony_bool" := JStr("false"), "attending_school" := JStr("false"),
      "currently_employed" := JStr("false"), "substance_use" := JStr("false"),
      "time_unemployed" := JNum(0.0), "need_mental_health_support_bool" := JStr("false")
    ]
  }

  const FirstNameRequired := "First Name is required."
  const LastNameRequired := "Last Name is required."
  const AgeRequired := "Age is required."
  const AgeNotANumber := "Age must be a valid number."
  const AgeOutOfRange := "Age must be between 18 and 65."

  /** `Number.isInteger(n)`. */
  predicate IsInteger(n: JsNumber) {
    n.Finite? && n.x == n.x.Floor as real
  }

  /** The three age checks, in the order the validator runs them. */
  predicate AgeNotPositive(age: JsNumber) { age.Finite? && age.x <= 0.0 }

  predicate AgeNotInteger(age: JsNumber) { !IsInteger(age) }

  predicate AgeOutsideRange(age: JsNumber) {
    (GreaterThan(age, 0.0) && LessThan(age, 18.0)) || GreaterThan(age, 66.0)
  }

  /** The age error the validator leaves behind. The three checks run in
      order and each failing one overwrites the message, so the last
      failing check decides: the range check, then the integer check, then
      the "required" check. */
  function AgeError(age: JsNumber): (r: Option<string>)
    ensures r == None <==> IsInteger(age) && 18.0 <= age.x <= 66.0
  {
    LastAgeMessage(AgeNotPositive(age), AgeNotInteger(age), AgeOutsideRange(age))
  }

  /** The message left by the age checks that failed, the last one winning. */
  function LastAgeMessage(notPositive: bool, notInteger: bool, outsideRange: bool): (r: Option<string>)
    ensures r == None <==> !notPositive && !notInteger && !outsideRange
  {
    if outsideRange then Some(AgeOutOfRange)
    else if notInteger then Some(AgeNotANumber)
    else if notPositive then Some(AgeRequired)
    else None
  }

  /** The `errors` object: a message for each field that failed, `None`
      where the object has no such key. */
  datatype FormErrors = FormErrors(firstName: Option<string>, lastName: Option<string>, age: Option<string>)

  const NoErrors := FormErrors(None, None, None)

  /** The errors the validator should produce: the "required" message for
      a blank name, and the age message the age checks leave. */
  function ExpectedErrors(firstName: string, lastName: string, age: JsNumber): FormErrors {
    FormErrors(if IsBlank(firstName) then Some(FirstNameRequired) else None,
               if IsBlank(lastName) then Some(LastNameRequired) else None,
               AgeError(age))
  }

  /** `validateForm`. `age` is `Number(selectedUser.age)`: the comparisons
      with the raw field convert it the same way. */
  method ValidateForm(firstName: string, lastName: string, age: JsNumber)
    returns (isValid: bool, errors: FormErrors)
    ensures errors == ExpectedErrors(firstName, lastName, age)
    ensures isValid <==> errors == NoErrors
  {
    errors := NoErrors;
    isValid := true;
    if IsBlank(firstName) {
      errors := errors.(firstName := Some(FirstNameRequired));
      isValid := false;
    }
    if IsBlank(lastName) {
      errors := errors.(lastName := Some(LastNameRequired));
      isValid := false;
    }
    var notPositive, notInteger, outsideRange := AgeNotPositive(age), AgeNotInteger(age), AgeOutsideRange(age);
    if notPositive {
      errors := errors.(age := Some(AgeRequired));
      isValid := false;
    }
    if notInteger {
      errors := errors.(age := Some(AgeNotANumber));
      isValid := false;
    }
    if outsideRange {
      errors := errors.(age := Some(AgeOutOfRange));
      isValid := false;
    }
  }

  /** The form is valid exactly when both names are non-blank and the age is
      a whole number from 18 to 66: 66 passes although the message says 65. */
  lemma ValidIff(firstName: string, lastName: string, age: JsNumber)
    ensures ExpectedErrors(firstName, lastName, age) == NoErrors
            <==> !IsBlank(firstName) && !IsBlank(lastName) && IsInteger(age) && 18.0 <= age.x <= 66.0
  {
  }

  /** When several age checks fail, the later message wins. */
  lemma LastAgeMessageWins()
    ensures AgeError(Finite(17.5)) == Some(AgeOutOfRange)   // not an integer, and under 18
    ensures AgeError(Finite(-2.5)) == Some(AgeNotANumber)   // not positive, and not an integer
    ensures AgeError(Finite(0.0)) == Some(AgeRequired)
    ensures AgeError(NaN) == Some(AgeNotANumber)
    ensures AgeError(Finite(66.0)) == None && AgeError(Finite(67.0)) == Some(AgeOutOfRange)
  {
    assert (17.5).Floor == 17;
    assert (-2.5).Floor == -3;
  }
}
