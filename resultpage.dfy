/** The assessment result page: the state it falls back to, the route of
    its back button, and how each intervention becomes a card with a title,
    a percentage and a URL key. */
module ResultPage {
  import opened JsText
  import opened Json
  import WorkScore

  // ---------------------------------------------------------------------
  // Number text

  predicate IsIntegral(x: real) { x == x.Floor as real }

  /** `x.toFixed(f)` on an exact value: the multiple of `10^-f` nearest to
      `x` (ties away from zero), written with exactly `f` fraction digits
      and a leading `-` when `x` is negative. */
  function FixedText(x: real, f: nat): (r: string)
    ensures |r| >= f + 1
    ensures (r[0] == '-') <==> x < 0.0
    ensures forall i :: 0 < i < |r| ==> r[i] == '.' || '0' <= r[i] <= '9'
  {
    if x < 0.0 then "-" + UnsignedFixedText(-x, f) else UnsignedFixedText(x, f)
  }

  /** The scaled, rounded value the text of `x.toFixed(f)` spells out. */
  function Rounded(x: real, f: nat): (n: nat)
    requires x >= 0.0
  {
    (x * Pow10(f) as real + 0.5).Floor
  }

  function Zeros(k: nat): (r: string)
    ensures |r| == k && forall i :: 0 <= i < k ==> r[i] == '0'
  {
    if k == 0 then "" else Zeros(k - 1) + "0"
  }

  /** The digits of `Rounded(x, f)`, left-padded to at least `f + 1` digits. */
  function PaddedDigits(x: real, f: nat): (r: string)
    requires x >= 0.0
    ensures |r| >= f + 1
    ensures forall i :: 0 <= i < |r| ==> '0' <= r[i] <= '9'
  {
    var m := NatToString(Rounded(x, f));
    if |m| < f + 1 then Zeros(f + 1 - |m|) + m else m
  }

  function UnsignedFixedText(x: real, f: nat): (r: string)
    requires x >= 0.0
    ensures |r| >= f + 1 && '0' <= r[0] <= '9'
    ensures forall i :: 0 <= i < |r| ==> r[i] == '.' || '0' <= r[i] <= '9'
  {
    var p := PaddedDigits(x, f);
    if f == 0 then p
    else
      var r := p[..|p| - f] + "." + p[|p| - f..];
      assert forall i :: 0 <= i < |r| ==> r[i] == '.' || r[i] == p[if i < |p| - f then i else i - 1];
      r
  }

  /** The digits a fixed-point text carries, with its point taken out. */
  function WithoutPoint(r: string, f: nat): string
    requires |r| >= f + 1
  {
    if f == 0 then r else r[..|r| - f - 1] + r[|r| - f..]
  }

  /** `x.toFixed(f)` for `x >= 0`, `f >= 1`: a point with exactly `f` digits
      after it and at least one before it, digits elsewhere. */
  lemma FixedTextShape(x: real, f: nat)
    requires x >= 0.0 && f >= 1
    ensures var r := FixedText(x, f);
            && |r| >= f + 2
            && r[|r| - f - 1] == '.'
            && (forall i :: 0 <= i < |r| && i != |r| - f - 1 ==> '0' <= r[i] <= '9')
            && WithoutPoint(r, f) == PaddedDigits(x, f)
  {
    var p := PaddedDigits(x, f);
    InsertPoint(p, |p| - f);
  }

  /** Putting a point into a string at `k`. */
  lemma InsertPoint(p: string, k: nat)
    requires k <= |p|
    ensures var r := p[..k] + "." + p[k..];
            && |r| == |p| + 1 && r[k] == '.'
            && (forall i :: 0 <= i < k ==> r[i] == p[i])
            && (forall i :: k < i < |r| ==> r[i] == p[i - 1])
            && r[..k] + r[k + 1..] == p
  {
    var r := p[..k] + "." + p[k..];
    assert r[..k] == p[..k];
    assert r[k + 1..] == p[k..];
  }

  /** Read without its point, the text of `x.toFixed(f)` spells the value
      within half a unit in the last place of `x`, a tie going up. */
  lemma FixedTextValue(x: real, f: nat)
    requires x >= 0.0 && f >= 1
    ensures var n := DigitsValue(WithoutPoint(FixedText(x, f), f));
            x * Pow10(f) as real - 0.5 < n as real <= x * Pow10(f) as real + 0.5
  {
    FixedTextShape(x, f);
    PaddedValue(x, f);
    RoundedBounds(x, f);
  }

  lemma RoundedBounds(x: real, f: nat)
    requires x >= 0.0
    ensures x * Pow10(f) as real - 0.5 < Rounded(x, f) as real <= x * Pow10(f) as real + 0.5
  {
    var y := x * Pow10(f) as real + 0.5;
    assert Rounded(x, f) == y.Floor;
  }

  lemma PaddedValue(x: real, f: nat)
    requires x >= 0.0
    ensures DigitsValue(PaddedDigits(x, f)) == Rounded(x, f)
  {
    var n := Rounded(x, f);
    var m := NatToString(n);
    NatToStringRoundTrip(n);
    if |m| < f + 1 {
      LeadingZeros(Zeros(f + 1 - |m|), m);
    }
  }

  /** Leading zeros do not change the value of a digit string. */
  lemma {:induction false} LeadingZeros(z: string, m: string)
    requires forall i :: 0 <= i < |z| ==> z[i] == '0'
    requires forall i :: 0 <= i < |m| ==> '0' <= m[i] <= '9'
    ensures DigitsValue(z + m) == DigitsValue(m)
    decreases |m|
  {
    if m == [] {
      assert z + m == z;
      AllZeros(z);
    } else {
      assert (z + m)[..|z + m| - 1] == z + m[..|m| - 1];
      LeadingZeros(z, m[..|m| - 1]);
    }
  }

  lemma {:induction false} AllZeros(z: string)
    requires forall i :: 0 <= i < |z| ==> z[i] == '0'
    ensures DigitsValue(z) == 0
  {
    if z != [] {
      AllZeros(z[..|z| - 1]);
    }
  }

  /** The fraction digits `String(x)` needs for a non-integral terminating
      decimal: the fewest that make `x` a whole number of units, at most 20. */
  function FractionDigits(x: real, k: nat): nat
    decreases 20 - k
  {
    if k >= 20 || IsIntegral(x * Pow10(k) as real) then k else FractionDigits(x, k + 1)
  }

  /** `String(x)` for a number, without exponent notation: never empty,
      led by `-` exactly when negative, and the decimal digits of a whole
      number that is not negative. */
  function NumberText(x: real): (r: string)
    ensures r != []
    ensures (r[0] == '-') <==> x < 0.0
    ensures IsIntegral(x) && x >= 0.0 ==> AllDigits(r) && DigitsValue(r) == x.Floor
  {
    if IsIntegral(x) then
      var r := IntToString(x.Floor);
      if x >= 0.0 then NatToStringRoundTrip(x.Floor); r else r
    else FixedText(x, FractionDigits(x, 1))
  }

  /** JavaScript's `String(v)` on a JSON value; an array is its elements'
      texts joined with ",": a string is itself, an empty array is empty,
      and a one-element array is the text of its element. */
  function JsString(v: Json): (r: string)
    ensures v.JStr? ==> r == v.s
    ensures v == JArr([]) ==> r == ""
    ensures v.JArr? && |v.items| == 1 ==> r == ElementText(v.items[0])
    decreases v, 0
  {
    match v
    case JNull => "null"
    case JBool(b) => if b then "true" else "false"
    case JNum(x) => NumberText(x)
    case JStr(s) => s
    case JArr(items) => Join(seq(|items|, i requires 0 <= i < |items| => ElementText(items[i])), ",")
    case JObj(_) => "[object Object]"
  }

  /** How `join` writes one element: `null` as the empty string. */
  function ElementText(v: Json): string
    decreases v, 1
  {
    if v == JNull then "" else JsString(v)
  }

  function ElementTexts(items: seq<Json>): (r: seq<string>)
    ensures |r| == |items| && forall i :: 0 <= i < |items| ==> r[i] == ElementText(items[i])
  {
    seq(|items|, i requires 0 <= i < |items| => ElementText(items[i]))
  }

  /** JSON strings for each of `labels`. */
  function Strings(labels: seq<string>): (r: seq<Json>)
    ensures |r| == |labels| && forall i :: 0 <= i < |labels| ==> r[i] == JStr(labels[i])
  {
    seq(|labels|, i requires 0 <= i < |labels| => JStr(labels[i]))
  }

  // ---------------------------------------------------------------------
  // Formatting an intervention

  datatype Formatted = Formatted(types: string, percentage: string)

  const InvalidData := Formatted("Invalid data", "")

  /** A well-formed intervention: a two-element array whose second element
      is an array. */
  predicate WellFormed(intervention: Json) {
    intervention.JArr? && |intervention.items| == 2 && intervention.items[1].JArr?
  }

  /** `formatIntervention`. `None` is the `TypeError` of `toFixed` on a
      well-formed intervention whose percentage is not a number. */
  function FormatIntervention(intervention: Json): (r: Option<Formatted>)
    ensures !WellFormed(intervention) ==> r == Some(InvalidData)
    ensures WellFormed(intervention) ==>
              (r.None? <==> !intervention.items[0].JNum?)
    ensures WellFormed(intervention) && r.Some? ==>
              var labels := intervention.items[1].items;
              && r.value.types == Join(ElementTexts(labels), ", ")
              && r.value.percentage == FixedText(intervention.items[0].n, 1) + "%"
  {
    if WellFormed(intervention) then
      var percentage := intervention.items[0];
      var labels := intervention.items[1].items;
      if percentage.JNum? then
        Some(Formatted(Join(ElementTexts(labels), ", "),
                       FixedText(percentage.n, 1) + "%"))
      else None
    else Some(InvalidData)
  }

  /** A list of strings formats to its items joined with ", ". */
  lemma StringLabels(percentage: real, labels: seq<string>)
    ensures FormatIntervention(JArr([JNum(percentage), JArr(Strings(labels))]))
            == Some(Formatted(Join(labels, ", "), FixedText(percentage, 1) + "%"))
  {
    var texts := ElementTexts(Strings(labels));
    forall i | 0 <= i < |labels| ensures texts[i] == labels[i] {
      assert Strings(labels)[i] == JStr(labels[i]);
      assert ElementText(JStr(labels[i])) == JsString(JStr(labels[i])) == labels[i];
    }
    assert texts == labels;
  }

  // ---------------------------------------------------------------------
  // The URL key

  predicate IsSeparator(c: char) { IsWhitespace(c) || c == ',' }

  /** `types.replace(/[\s,]/g, "-").toLowerCase()`. */
  function InterventionKey(types: string): (key: string)
    ensures |key| == |types|
    ensures forall i :: 0 <= i < |types| ==>
              key[i] == if IsSeparator(types[i]) then '-' else LowerChar(types[i])
  {
    Lower(seq(|types|, i requires 0 <= i < |types| => if IsSeparator(types[i]) then '-' else types[i]))
  }

  /** The key holds no whitespace, no comma and no upper-case ASCII letter,
      and a `-` stands exactly where the types had a separator or a `-`. */
  lemma KeyCharacters(types: string)
    ensures var key := InterventionKey(types);
            forall i :: 0 <= i < |key| ==>
              && !IsWhitespace(key[i]) && key[i] != ',' && !IsAsciiUpper(key[i])
              && (key[i] == '-' <==> IsSeparator(types[i]) || types[i] == '-')
  {
  }

  // ---------------------------------------------------------------------
  // Cards

  datatype Card = Card(types: string, percentage: string, key: string)

  /** `interventions.map(...)`: a card per intervention, or `None` when the
      value is not an array or one of its interventions makes formatting
      throw. */
  function Cards(interventions: Json): (r: Option<seq<Card>>)
    ensures r.Some? <==> (interventions.JArr? &&
              forall i :: 0 <= i < |interventions.items| ==> FormatIntervention(interventions.items[i]).Some?)
    ensures r.Some? ==> (|r.value| == |interventions.items| &&
              forall i :: 0 <= i < |r.value| ==>
                var f := FormatIntervention(interventions.items[i]).value;
                r.value[i] == Card(f.types, f.percentage, InterventionKey(f.types)))
  {
    if interventions.JArr? &&
       forall i :: 0 <= i < |interventions.items| ==> FormatIntervention(interventions.items[i]).Some?
    then
      var items := interventions.items;
      Some(seq(|items|, i requires 0 <= i < |items| =>
        var f := FormatIntervention(items[i]).value;
        Card(f.types, f.percentage, InterventionKey(f.types))))
    else None
  }

  /** The JSON the score endpoint sends for its interventions. */
  function Encode(interventions: seq<WorkScore.Intervention>): (v: Json)
    ensures v.JArr? && |v.items| == |interventions|
    ensures forall i :: 0 <= i < |interventions| ==>
              && WellFormed(v.items[i])
              && v.items[i].items[0] == JNum(interventions[i].percentage)
              && v.items[i].items[1].items == Strings(interventions[i].labels)
  {
    JArr(seq(|interventions|, i requires 0 <= i < |interventions| =>
      var labels := interventions[i].labels;
      JArr([JNum(interventions[i].percentage), JArr(Strings(labels))])))
  }

  /** Each encoded intervention formats to its labels joined with ", " and
      its percentage with one fraction digit. */
  lemma EncodedFormats(interventions: seq<WorkScore.Intervention>, i: nat)
    requires i < |interventions|
    ensures var it := interventions[i];
            FormatIntervention(Encode(interventions).items[i])
              == Some(Formatted(Join(it.labels, ", "), FixedText(it.percentage, 1) + "%"))
  {
    var it := interventions[i];
    var v := Encode(interventions);
    assert v.items[i] == JArr([JNum(it.percentage), JArr(Strings(it.labels))]);
    StringLabels(it.percentage, it.labels);
  }

  /** The score endpoint's three interventions render as these cards. */
  lemma StaticInterventionCards()
    ensures Cards(Encode(WorkScore.StaticInterventions)) == Some([
      Card("Job training", "8.5%", "job-training"),
      Card("Counseling", "6.3%", "counseling"),
      Card("Mentorship programs", "5.0%", "mentorship-programs")])
  {
    var v := Encode(WorkScore.StaticInterventions);
    StaticFormats();
    StaticKeys();
    var r := Cards(v);
    assert r.Some? && |r.value| == 3;
    assert r.value[0] == Card("Job training", "8.5%", "job-training");
    assert r.value[1] == Card("Counseling", "6.3%", "counseling");
    assert r.value[2] == Card("Mentorship programs", "5.0%", "mentorship-programs");
    assert r.value == [r.value[0], r.value[1], r.value[2]];
  }

  lemma StaticFormats()
    ensures var v := Encode(WorkScore.StaticInterventions);
            && FormatIntervention(v.items[0]) == Some(Formatted("Job training", "8.5%"))
            && FormatIntervention(v.items[1]) == Some(Formatted("Counseling", "6.3%"))
            && FormatIntervention(v.items[2]) == Some(Formatted("Mentorship programs", "5.0%"))
  {
    EncodedStatic();
    StaticCard(8.5, "Job training", 85);
    StaticCard(6.3, "Counseling", 63);
    StaticCard(5.0, "Mentorship programs", 50);
    assert DigitChar(8) == '8' && DigitChar(5) == '5' && DigitChar(6) == '6'
        && DigitChar(3) == '3' && DigitChar(0) == '0';
  }

  lemma StaticKeys()
    ensures InterventionKey("Job training") == "job-training"
    ensures InterventionKey("Counseling") == "counseling"
    ensures InterventionKey("Mentorship programs") == "mentorship-programs"
  {
    KeyOf("Job training", "job-training");
    KeyOf("Counseling", "counseling");
    KeyOf("Mentorship programs", "mentorship-programs");
  }

  /** The key of a title made of ASCII letters, spaces and `-`. */
  lemma KeyOf(types: string, key: string)
    requires |types| == |key|
    requires forall i :: 0 <= i < |types| ==>
               ((types[i] == ' ' || types[i] == '-') && key[i] == '-') ||
               (IsAsciiUpper(types[i]) && key[i] == (types[i] as int + 32) as char) ||
               (IsAsciiLower(types[i]) && key[i] == types[i])
    ensures InterventionKey(types) == key
  {
  }

  lemma EncodedStatic()
    ensures Encode(WorkScore.StaticInterventions).items == [
      JArr([JNum(8.5), JArr(Strings(["Job training"]))]),
      JArr([JNum(6.3), JArr(Strings(["Counseling"]))]),
      JArr([JNum(5.0), JArr(Strings(["Mentorship programs"]))])]
  {
  }

  /** A one-label intervention whose percentage has two significant digits. */
  lemma StaticCard(p: real, title: string, tenths: nat)
    requires 10 <= tenths < 100 && p * 10.0 == tenths as real
    ensures FormatIntervention(JArr([JNum(p), JArr(Strings([title]))]))
            == Some(Formatted(title, [DigitChar(tenths / 10), '.', DigitChar(tenths % 10), '%']))
  {
    StringLabels(p, [title]);
    assert Join([title], ", ") == title;
    assert p > 0.0;
    assert Pow10(1) == 10;
    assert Rounded(p, 1) == tenths;
    var m := NatToString(tenths);
    assert NatToString(tenths / 10) == [DigitChar(tenths / 10)];
    assert m == NatToString(tenths / 10) + [DigitChar(tenths % 10)];
    assert PaddedDigits(p, 1) == m;
    assert FixedText(p, 1) == UnsignedFixedText(p, 1) == m[..1] + "." + m[1..];
    assert m[..1] + "." + m[1..] + "%" == [DigitChar(tenths / 10), '.', DigitChar(tenths % 10), '%'];
  }

  // ---------------------------------------------------------------------
  // Navigation state and the back button

  /** The fields the page takes from `location.state`; `None` is `undefined`. */
  datatype PageState = PageState(id: Option<Json>, selectedUser: Option<Json>,
                                 probability: Option<Json>, interventions: Option<Json>)

  predicate IsFalsy(v: Json) {
    v == JNull || v == JBool(false) || v == JNum(0.0) || v == JStr("")
  }

  /** `location.state || { id: null, selectedUser: {}, probability: 0,
      interventions: [] }`, then destructured. A state that is present is
      used as it is: its missing fields are `undefined`, not defaulted. */
  function InitialState(state: Option<Json>): (r: PageState)
    ensures state.None? || IsFalsy(state.value) ==>
              r == PageState(Some(JNull), Some(JObj(map[])), Some(JNum(0.0)), Some(JArr([])))
    ensures state.Some? && state.value.JObj? && !IsFalsy(state.value) ==>
              r == PageState(Get(state.value.fields, "id"), Get(state.value.fields, "selectedUser"),
                             Get(state.value.fields, "probability"), Get(state.value.fields, "interventions"))
    ensures state.Some? && !state.value.JObj? && !IsFalsy(state.value) ==>
              r == PageState(None, None, None, None)
  {
    if state.None? || IsFalsy(state.value) then
      PageState(Some(JNull), Some(JObj(map[])), Some(JNum(0.0)), Some(JArr([])))
    else if state.value.JObj? then
      var fields := state.value.fields;
      PageState(Get(fields, "id"), Get(fields, "selectedUser"), Get(fields, "probability"), Get(fields, "interventions"))
    else PageState(None, None, None, None)
  }

  datatype Navigation = Navigation(path: string, state: Option<Record>)

  /** `handleBackToForm`: back to the client's page when an id is known,
      else to the blank form carrying the user along. */
  function BackToForm(id: Option<Json>, selectedUser: Option<Json>): (r: Navigation)
    ensures id.Some? && id.value != JNull ==>
              r == Navigation("/client/" + JsString(id.value), None)
    ensures id.None? || id.value == JNull ==>
              r.path == "/form" && r.state.Some? &&
              r.state.value.Keys == (if selectedUser.Some? then {"selectedUser"} else {}) &&
              (selectedUser.Some? ==> r.state.value["selectedUser"] == selectedUser.value)
  {
    if id.Some? && id.value != JNull then Navigation("/client/" + JsString(id.value), None)
    else Navigation("/form", Some(if selectedUser.Some? then map["selectedUser" := selectedUser.value] else map[]))
  }

  /** Without navigation state the page shows no interventions and its
      back button leads to the form with an empty user. */
  lemma NoStateGoesToForm()
    ensures var s := InitialState(None);
            && Cards(s.interventions.value) == Some([])
            && BackToForm(s.id, s.selectedUser) == Navigation("/form", Some(map["selectedUser" := JObj(map[])]))
  {
  }

  /** A state object without an `id` also leads back to the form: the
      defaults apply only when there is no state at all. */
  lemma StateWithoutIdGoesToForm(fields: Record)
    requires "id" !in fields
    ensures var s := InitialState(Some(JObj(fields)));
            BackToForm(s.id, s.selectedUser).path == "/form"
  {
  }
}
