/** The client detail page: a record loaded from the server, a per-field
    edit mode (edit, then confirm with validation, then not editing), and a
    submit that is refused while any field is still being edited. */
module DetailPage {
  import opened JsText
  import opened Json
  import opened Events
  import FormNew

  /** One entry of the `editMode` object. The object is modelled as a list
      so that the order of `Object.keys` (insertion order) is kept. */
  datatype EditEntry = EditEntry(field: string, editing: bool)

  function Fields(m: seq<EditEntry>): (r: seq<string>)
    ensures |r| == |m| && forall i :: 0 <= i < |m| ==> r[i] == m[i].field
  {
    seq(|m|, i requires 0 <= i < |m| => m[i].field)
  }

  /** No field has two entries, as in a JavaScript object. */
  predicate DistinctFields(m: seq<EditEntry>) {
    forall i, j :: 0 <= i < j < |m| ==> m[i].field != m[j].field
  }

  /** The position of the field's entry, if it has one. */
  function IndexOfField(m: seq<EditEntry>, field: string): (r: Option<nat>)
    ensures r.Some? ==> r.value < |m| && m[r.value].field == field
    ensures r.None? <==> field !in Fields(m)
  {
    if m == [] then None
    else if m[0].field == field then Some(0)
    else match IndexOfField(m[1..], field)
      case None => None
      case Some(i) => Some(i + 1)
  }

  /** `editMode[field]`: `None` for `undefined`. */
  function Lookup(m: seq<EditEntry>, field: string): (r: Option<bool>)
    ensures r.None? <==> field !in Fields(m)
    ensures r.Some? ==> exists i :: 0 <= i < |m| && m[i] == EditEntry(field, r.value)
  {
    match IndexOfField(m, field)
    case None => None
    case Some(i) => Some(m[i].editing)
  }

  /** With distinct fields, an entry is what looking up its field finds. */
  lemma LookupEntry(m: seq<EditEntry>, i: nat)
    requires DistinctFields(m) && i < |m|
    ensures Lookup(m, m[i].field) == Some(m[i].editing)
  {
    var k := IndexOfField(m, m[i].field);
    assert k.Some?;
    assert k.value == i;
  }

  /** `{ ...prev, [field]: value }`: an existing entry keeps its position,
      a new one is added last; no other entry changes. */
  function SetEditing(m: seq<EditEntry>, field: string, value: bool): (r: seq<EditEntry>)
    requires DistinctFields(m)
    ensures DistinctFields(r)
    ensures Lookup(r, field) == Some(value)
    ensures forall f :: f != field ==> Lookup(r, f) == Lookup(m, f)
    ensures Fields(r) == if field in Fields(m) then Fields(m) else Fields(m) + [field]
  {
    var r := match IndexOfField(m, field)
      case Some(i) => m[i := EditEntry(field, value)]
      case None => m + [EditEntry(field, value)];
    assert Fields(r) == if field in Fields(m) then Fields(m) else Fields(m) + [field];
    assert DistinctFields(r);
    var k := IndexOfField(r, field);
    assert k.Some?;
    LookupEntry(r, k.value);
    forall f | f != field ensures Lookup(r, f) == Lookup(m, f) {
      if f in Fields(m) {
        var j := IndexOfField(m, f).value;
        LookupEntry(m, j);
        assert r[j] == m[j];
        LookupEntry(r, j);
      } else {
        assert f !in Fields(r);
      }
    }
    r
  }

  /** `Object.keys(editMode).filter((field) => editMode[field])`. */
  function UnconfirmedFields(m: seq<EditEntry>): (r: seq<string>)
    ensures |r| <= |m|
    ensures forall f :: f in r <==> exists i :: 0 <= i < |m| && m[i] == EditEntry(f, true)
  {
    if m == [] then []
    else if m[0].editing then [m[0].field] + UnconfirmedFields(m[1..])
    else UnconfirmedFields(m[1..])
  }

  /** The filter keeps the order of `Object.keys`: the still-edited fields
      of a concatenation are those of each part, in turn. */
  lemma {:induction false} UnconfirmedFieldsAppend(a: seq<EditEntry>, b: seq<EditEntry>)
    ensures UnconfirmedFields(a + b) == UnconfirmedFields(a) + UnconfirmedFields(b)
  {
    if a != [] {
      assert (a + b)[0] == a[0];
      assert (a + b)[1..] == a[1..] + b;
      UnconfirmedFieldsAppend(a[1..], b);
      if a[0].editing {
        assert [a[0].field] + (UnconfirmedFields(a[1..]) + UnconfirmedFields(b))
            == ([a[0].field] + UnconfirmedFields(a[1..])) + UnconfirmedFields(b);
      }
    } else {
      assert a + b == b;
    }
  }

  const FieldLabels: map<string, string> := map[
    "firstName" := "First Name", "lastName" := "Last Name", "age" := "Age", "gender" := "Gender",
    "work_experience" := "Work Experience", "canada_workex" := "Canada Work Experience",
    "dep_num" := "Number of Dependents", "canada_born" := "Born in Canada",
    "citizen_status" := "Citizen Status", "level_of_schooling" := "Level of Schooling",
    "fluent_english" := "Fluent in English", "reading_english_scale" := "Reading English Scale",
    "speaking_english_scale" := "Speaking English Scale", "writing_english_scale" := "Writing English Scale",
    "numeracy_scale" := "Numeracy Scale", "computer_scale" := "Computer Scale",
    "transportation_bool" := "Has Transportation", "caregiver_bool" := "Is a Caregiver",
    "housing" := "Housing", "income_source" := "Source of Income", "felony_bool" := "Has Felony",
    "attending_school" := "Attending School", "currently_employed" := "Currently Employed",
    "substance_use" := "Substance Use", "time_unemployed" := "Time Unemployed",
    "need_mental_health_support_bool" := "Needs Mental Health Support", "last_update" := "Last Update"
  ]

  /** `fieldLabels[field]` inside a template string: "undefined" when absent. */
  function Label(field: string): string {
    if field in FieldLabels then FieldLabels[field] else "undefined"
  }

  /** `unconfirmedFields.map((field) => `"${label}" Field`)`. */
  function QuotedLabels(fields: seq<string>): (r: seq<string>)
    ensures |r| == |fields|
    ensures forall i :: 0 <= i < |fields| ==> r[i] == "\"" + Label(fields[i]) + "\" Field"
  {
    seq(|fields|, i requires 0 <= i < |fields| => "\"" + Label(fields[i]) + "\" Field")
  }

  datatype SubmitOutcome =
    | Blocked(message: string)   // the alert; nothing is sent
    | Proceed(body: Record)      // the record is posted to the work-score route

  /** `handleSubmit`: blocked exactly when some field is still in edit mode,
      with an alert naming exactly those fields in key order. */
  function Submit(editMode: seq<EditEntry>, user: Record): (r: SubmitOutcome)
    ensures r.Blocked? <==> exists i :: 0 <= i < |editMode| && editMode[i].editing
    ensures r.Blocked? ==> r.message == Join(QuotedLabels(UnconfirmedFields(editMode)), ", ") + " edit not confirmed."
    ensures r.Proceed? ==> r.body == user
  {
    var unconfirmed := UnconfirmedFields(editMode);
    if |unconfirmed| > 0 then
      assert unconfirmed[0] in unconfirmed;
      Blocked(Join(QuotedLabels(unconfirmed), ", ") + " edit not confirmed.")
    else
      Proceed(user)
  }

  /** What the confirm handler's validation decides. */
  datatype Check = Pass | Reject(message: string) | Throws

  /** The validation of `handleConfirmClick`: a blank first or last name,
      or an age below 18 or above 65, is refused with an alert; calling
      `trim` on a name that is not a string throws. The age is converted as
      JavaScript's `<` and `>` convert it. */
  function ConfirmCheck(user: Record, field: string): (r: Check)
    ensures (field == "firstName" || field == "lastName") ==>
              (r == Throws <==> !(field in user && user[field].JStr?))
    ensures (field == "firstName" || field == "lastName") && field in user && user[field].JStr? ==>
              (r.Reject? <==> IsBlank(user[field].s))
    ensures field == "age" ==>
              (r.Reject? <==> LessThan(ToNumber(Get(user, "age")), 18.0) || GreaterThan(ToNumber(Get(user, "age")), 65.0))
    ensures field != "firstName" && field != "lastName" && field != "age" ==> r == Pass
  {
    if field == "firstName" || field == "lastName" then
      if !(field in user && user[field].JStr?) then Throws
      else if IsBlank(user[field].s) then Reject(Label(field) + " cannot be empty.")
      else Pass
    else if field == "age" then
      var age := ToNumber(Get(user, "age"));
      if LessThan(age, 18.0) || GreaterThan(age, 65.0) then Reject("Age should be between 18 and 65.")
      else Pass
    else Pass
  }

  /** An age typed as text is judged by the number the text converts to. */
  lemma AgeText(s: string, x: real)
    requires ToNumber(Some(JStr(s))) == Finite(x)
    ensures ConfirmCheck(map["age" := JStr(s)], "age").Reject? <==> x < 18.0 || x > 65.0
  {
    assert Get(map["age" := JStr(s)], "age") == Some(JStr(s));
  }

  /** A negative age typed into the field is refused. */
  lemma NegativeAgeRejected()
    ensures ConfirmCheck(map["age" := JStr("-3")], "age").Reject?
  {
    ThreeValue();
    MinusLiteral("3", 3.0);
    assert "-" + "3" == "-3";
    AgeText("-3", -3.0);
  }

  lemma ThreeValue()
    ensures UnsignedValue("3") == Some(3.0)
  {
    UnsignedInteger("3");
    assert DigitsValue("3") == 3;
  }

  lemma SeventeenAndAHalf()
    ensures PointValue("17", "5") == 17.5
  {
    assert "17"[..1] == "1" && "1"[..0] == [] && "5"[1..] == [];
    assert DigitsValue("17") == 17 && FractionValue("5") == 0.5;
  }

  /** A fractional age below 18 is refused. */
  lemma FractionalAgeRejected()
    ensures ConfirmCheck(map["age" := JStr("17.5")], "age").Reject?
  {
    DecimalText("17", "5");
    assert "17" + "." + "5" == "17.5";
    SeventeenAndAHalf();
    AgeText("17.5", 17.5);
  }

  /** An age over 65 written with a plus sign is refused. */
  lemma PlusAgeRejected()
    ensures ConfirmCheck(map["age" := JStr("+70")], "age").Reject?
  {
    PlusIntegerText("70");
    assert "+" + "70" == "+70";
    assert DigitsValue("70") == 70;
    AgeText("+70", 70.0);
  }

  /** An age written with an exponent is judged by its value: "1e2" is 100. */
  lemma ExponentAgeRejected()
    ensures ConfirmCheck(map["age" := JStr("1e2")], "age").Reject?
  {
    HundredValue();
    BareLiteral("1e2", 100.0);
    AgeText("1e2", 100.0);
  }

  lemma HundredValue()
    ensures UnsignedValue("1e2") == Some(100.0)
  {
    UnsignedExponent("1", "2");
    assert "1" + "e" + "2" == "1e2";
    OneTimesTenSquared();
  }

  lemma OneTimesTenSquared()
    ensures Scale(DigitsValue("1") as real, DigitsValue("2")) == 100.0
  {
    assert DigitsValue("1") == 1 && DigitsValue("2") == 2;
    assert Scale(1.0, 0) == 1.0;
  }

  /** An age in range typed as text passes. */
  lemma TypedAgeAccepted()
    ensures ConfirmCheck(map["age" := JStr("40")], "age") == Pass
  {
    IntegerText("40");
    assert DigitsValue("40") == 40;
    AgeText("40", 40.0);
  }

  /** `{ [field]: selectedUser[field], last_update: timestamp }` as it goes
      over the wire: a field the record lacks is `undefined` and dropped. */
  function ConfirmPayload(user: Record, field: string, timestamp: string): (r: Record)
    ensures field in user && field != "last_update" ==> r.Keys == {field, "last_update"}
    ensures field !in user || field == "last_update" ==> r.Keys == {"last_update"}
    ensures field in user && field != "last_update" ==> r[field] == user[field]
    ensures r["last_update"] == JStr(timestamp)
  {
    (if field in user then map[field := user[field]] else map[]) + map["last_update" := JStr(timestamp)]
  }

  datatype ConfirmOutcome =
    | Rejected(message: string)     // the validation alert; nothing is sent
    | Failed(attempted: Option<Record>)  // "Failed to update user.": a throw, or the request failed
    | Saved(sent: Record)           // the request succeeded

  /** The initial state of `selectedUser`, before the fetch answers: the
      intake form's initial values and an empty `last_update`. */
  function DefaultUser(): (r: Record)
    ensures r == FormNew.InitialUser()["last_update" := JStr("")]
  {
    map[
      "firstName" := JStr(""), "lastName" := JStr(""), "age" := JNum(0.0), "gender" := JStr(""),
      "work_experience" := JNum(0.0), "canada_workex" := JNum(0.0), "dep_num" := JNum(0.0),
      "canada_born" := JStr("false"), "citizen_status" := JStr(""), "level_of_schooling" := JStr(""),
      "fluent_english" := JStr("false"), "reading_english_scale" := JNum(0.0),
      "speaking_english_scale" := JNum(0.0), "writing_english_scale" := JNum(0.0),
      "numeracy_scale" := JNum(0.0), "computer_scale" := JNum(0.0),
      "transportation_bool" := JStr("false"), "caregiver_bool" := JStr("false"), "housing" := JStr(""),
      "income_source" := JStr(""), "felony_bool" := JStr("false"), "attending_school" := JStr("false"),
      "currently_employed" := JStr("false"), "substance_use" := JStr("false"),
      "time_unemployed" := JNum(0.0), "need_mental_health_support_bool" := JStr("false"),
      "last_update" := JStr("")
    ]
  }

  /** The page's component state. */
  class Page {
    var selectedUser: Record
    var editMode: seq<EditEntry>

    ghost predicate Valid()
      reads this
    {
      DistinctFields(editMode)
    }

    /** The page after its fetch: the fetched record, or the defaults when
        the fetch failed; no field is in edit mode. */
    constructor (fetched: Option<Record>)
      ensures Valid()
      ensures selectedUser == (if fetched.Some? then fetched.value else DefaultUser())
      ensures editMode == []
    {
      selectedUser := if fetched.Some? then fetched.value else DefaultUser();
      editMode := [];
    }

    /** `handleEditClick`: puts the field in edit mode. */
    method EditClick(field: string)
      requires Valid()
      modifies this
      ensures Valid()
      ensures editMode == SetEditing(old(editMode), field, true)
      ensures selectedUser == old(selectedUser)
    {
      editMode := SetEditing(editMode, field, true);
    }

    /** `handleChange`: the same rule as the intake form. */
    method HandleChange(e: ChangeEvent)
      requires Valid()
      modifies this
      ensures Valid()
      ensures selectedUser == ApplyChange(old(selectedUser), e)
      ensures editMode == old(editMode)
    {
      selectedUser := ApplyChange(selectedUser, e);
    }

    /** `handleConfirmClick`. The timestamp is the caller's clock reading
        and `putSucceeds` the outcome of the request. Only a successful
        request changes state: the local `last_update` takes the timestamp
        and the field leaves edit mode. */
    method ConfirmClick(field: string, timestamp: string, putSucceeds: bool) returns (outcome: ConfirmOutcome)
      requires Valid()
      modifies this
      ensures Valid()
      ensures ConfirmCheck(old(selectedUser), field).Reject? ==>
                outcome == Rejected(ConfirmCheck(old(selectedUser), field).message)
      ensures ConfirmCheck(old(selectedUser), field) == Throws ==> outcome == Failed(None)
      ensures ConfirmCheck(old(selectedUser), field) == Pass ==>
                outcome == (if putSucceeds then Saved(ConfirmPayload(old(selectedUser), field, timestamp))
                            else Failed(Some(ConfirmPayload(old(selectedUser), field, timestamp))))
      ensures outcome.Saved? ==> selectedUser == old(selectedUser)["last_update" := JStr(timestamp)]
                                 && editMode == SetEditing(old(editMode), field, false)
      ensures !outcome.Saved? ==> selectedUser == old(selectedUser) && editMode == old(editMode)
    {
      var check := ConfirmCheck(selectedUser, field);
      if check == Throws {
        return Failed(None);
      }
      if check.Reject? {
        return Rejected(check.message);
      }
      var updatedData := ConfirmPayload(selectedUser, field, timestamp);
      if !putSucceeds {
        return Failed(Some(updatedData));
      }
      selectedUser := selectedUser["last_update" := JStr(timestamp)];
      editMode := SetEditing(editMode, field, false);
      outcome := Saved(updatedData);
    }

    /** `handleSubmit`. */
    function SubmitNow(): (r: SubmitOutcome)
      reads this
      ensures r.Blocked? <==> exists i :: 0 <= i < |editMode| && editMode[i].editing
    {
      Submit(editMode, selectedUser)
    }
  }

  /** Edit then confirm, when validation passes and the request succeeds,
      leaves the field out of edit mode, so it no longer blocks submission,
      while editing it blocks. */
  lemma ConfirmClearsBlock(m: seq<EditEntry>, field: string)
    requires DistinctFields(m)
    ensures var editing := SetEditing(m, field, true);
            && field in UnconfirmedFields(editing)
            && field !in UnconfirmedFields(SetEditing(editing, field, false))
  {
  }
}
