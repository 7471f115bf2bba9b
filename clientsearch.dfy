/** The search results page: each client card lists up to four fields whose
    values differ from the defaults, in the order of the default table. */
module ClientSearch {
  import opened Json

  datatype Default = Default(field: string, value: Json)

  /** `defaultValues`, in its key order. The name, age and gender fields
      are not in it. */
  const DefaultValues: seq<Default> := [
    Default("work_experience", JNum(0.0)), Default("canada_workex", JNum(0.0)),
    Default("dep_num", JNum(0.0)), Default("canada_born", JStr("false")),
    Default("citizen_status", JStr("")), Default("level_of_schooling", JStr("")),
    Default("fluent_english", JStr("false")), Default("reading_english_scale", JNum(0.0)),
    Default("speaking_english_scale", JNum(0.0)), Default("writing_english_scale", JNum(0.0)),
    Default("numeracy_scale", JNum(0.0)), Default("computer_scale", JNum(0.0)),
    Default("transportation_bool", JStr("false")), Default("caregiver_bool", JStr("false")),
    Default("housing", JStr("")), Default("income_source", JStr("")),
    Default("felony_bool", JStr("false")), Default("attending_school", JStr("false")),
    Default("currently_employed", JStr("false")), Default("substance_use", JStr("false")),
    Default("time_unemployed", JNum(0.0)), Default("need_mental_health_support_bool", JStr("false"))
  ]

  const MaxShown := 4

  /** `client[field] !== undefined && client[field] !== defaultValues[field]`:
      strict inequality, so the string "0" differs from the number 0, and a
      stored `null` differs from every default. */
  predicate Qualifies(client: Record, d: Default) {
    d.field in client && client[d.field] != d.value
  }

  /** The positions from `from` on whose entries qualify, in table order
      (`Object.keys(defaultValues).filter(...)`). */
  function Qualifying(defaults: seq<Default>, client: Record, from: nat): (r: seq<nat>)
    decreases |defaults| - from
    ensures forall k :: 0 <= k < |r| ==> from <= r[k] < |defaults|
    ensures forall k, l :: 0 <= k < l < |r| ==> r[k] < r[l]
    ensures forall i :: i in r <==> from <= i < |defaults| && Qualifies(client, defaults[i])
  {
    if from >= |defaults| then []
    else if Qualifies(client, defaults[from]) then [from] + Qualifying(defaults, client, from + 1)
    else Qualifying(defaults, client, from + 1)
  }

  /** `.slice(0, 4)`: the first four qualifying positions, or all of them. */
  function ShownPositions(client: Record): (r: seq<nat>)
    ensures |r| <= MaxShown
    ensures var q := Qualifying(DefaultValues, client, 0);
            |r| == if |q| < MaxShown then |q| else MaxShown
    ensures var q := Qualifying(DefaultValues, client, 0);
            forall k :: 0 <= k < |r| ==> r[k] == q[k]
  {
    var q := Qualifying(DefaultValues, client, 0);
    if |q| <= MaxShown then q else q[..MaxShown]
  }

  /** `nonDefaultFields`: the names of the shown positions. */
  function NonDefaultFields(client: Record): (r: seq<string>)
    ensures var p := ShownPositions(client);
            |r| == |p| && forall k :: 0 <= k < |r| ==> p[k] < |DefaultValues| && r[k] == DefaultValues[p[k]].field
  {
    var p := ShownPositions(client);
    seq(|p|, k requires 0 <= k < |p| => DefaultValues[p[k]].field)
  }

  predicate DistinctKeys(defaults: seq<Default>) {
    forall i, j :: 0 <= i < j < |defaults| ==> defaults[i].field != defaults[j].field
  }

  /** No two entries of the table share a key: checked block by block. */
  lemma DefaultKeysDistinct()
    ensures DistinctKeys(DefaultValues)
  {
    Distinct00(); Distinct01(); Distinct02(); Distinct03(); Distinct11();
    Distinct12(); Distinct13(); Distinct22(); Distinct23(); Distinct33();
  }

  /** The keys at positions `lo1 <= i < hi1` differ from those at later
      positions `lo2 <= j < hi2`. */
  predicate DistinctBetween(lo1: nat, hi1: nat, lo2: nat, hi2: nat)
    requires hi1 <= |DefaultValues| && hi2 <= |DefaultValues|
  {
    forall i, j :: lo1 <= i < hi1 && lo2 <= j < hi2 && i < j ==> DefaultValues[i].field != DefaultValues[j].field
  }

  // The 22 keys are compared block by block so that each proof stays small.
  lemma Distinct00() ensures DistinctBetween(0, 6, 0, 6) { }
  lemma Distinct01() ensures DistinctBetween(0, 6, 6, 11) { }
  lemma Distinct02() ensures DistinctBetween(0, 6, 11, 16) { }
  lemma Distinct03() ensures DistinctBetween(0, 6, 16, 22) { }
  lemma Distinct11() ensures DistinctBetween(6, 11, 6, 11) { }
  lemma Distinct12() ensures DistinctBetween(6, 11, 11, 16) { }
  lemma Distinct13() ensures DistinctBetween(6, 11, 16, 22) { }
  lemma Distinct22() ensures DistinctBetween(11, 16, 11, 16) { }
  lemma Distinct23() ensures DistinctBetween(11, 16, 16, 22) { }
  lemma Distinct33() ensures DistinctBetween(16, 22, 16, 22) { }

  /** The card lists at most four fields; each is present in the client
      with a value other than its default; they come in the default table's
      order, so none repeats; and when at least four qualify they are
      exactly the first four that do. */
  lemma ShownFields(client: Record)
    ensures |NonDefaultFields(client)| <= MaxShown
    ensures var r := NonDefaultFields(client); var p := ShownPositions(client);
            forall k :: 0 <= k < |r| ==> Qualifies(client, DefaultValues[p[k]])
    ensures var p := ShownPositions(client);
            forall k, l :: 0 <= k < l < |p| ==> p[k] < p[l]
    ensures var r := NonDefaultFields(client);
            forall k, l :: 0 <= k < l < |r| ==> r[k] != r[l]
    ensures var p := ShownPositions(client);
            forall i :: 0 <= i < |DefaultValues| && Qualifies(client, DefaultValues[i]) ==>
              i in p || (|p| == MaxShown && p[MaxShown - 1] < i)
  {
    var q := Qualifying(DefaultValues, client, 0);
    var p := ShownPositions(client);
    var r := NonDefaultFields(client);
    forall k | 0 <= k < |r| ensures Qualifies(client, DefaultValues[p[k]]) {
      assert p[k] == q[k] && q[k] in q;
    }
    forall k, l | 0 <= k < l < |r| ensures r[k] != r[l] {
      DefaultKeysDistinct();
      assert p[k] == q[k] && p[l] == q[l];
    }
    forall i | 0 <= i < |DefaultValues| && Qualifies(client, DefaultValues[i])
      ensures i in p || (|p| == MaxShown && p[MaxShown - 1] < i)
    {
      assert i in q;
      var m :| 0 <= m < |q| && q[m] == i;
      if m < |p| {
        assert p[m] == q[m];
      } else {
        assert p[MaxShown - 1] == q[MaxShown - 1];
      }
    }
  }

  /** The name, age and gender never appear on a card: they have no default. */
  lemma IdentityFieldsNeverShown(client: Record)
    ensures var r := NonDefaultFields(client);
            "firstName" !in r && "lastName" !in r && "age" !in r && "gender" !in r
  {
    assert forall i :: 0 <= i < |DefaultValues| ==>
      DefaultValues[i].field !in {"firstName", "lastName", "age", "gender"};
  }

  /** Strict inequality: a string "0" shows against the numeric default 0,
      while the number 0 does not. */
  lemma StringZeroIsNotDefault()
    ensures NonDefaultFields(map["dep_num" := JStr("0")]) == ["dep_num"]
    ensures NonDefaultFields(map["dep_num" := JNum(0.0)]) == []
  {
    StringZeroShown();
    NumberZeroHidden();
  }

  lemma StringZeroShown()
    ensures ShownPositions(map["dep_num" := JStr("0")]) == [2]
  {
    var c := map["dep_num" := JStr("0")];
    DepNumAt();
    SkipNonQualifying(DefaultValues, c, 3, |DefaultValues|);
    SkipNonQualifying(DefaultValues, c, 0, 2);
    assert Qualifying(DefaultValues, c, 2) == [2] + Qualifying(DefaultValues, c, 3);
  }

  lemma NumberZeroHidden()
    ensures ShownPositions(map["dep_num" := JNum(0.0)]) == []
  {
    var z := map["dep_num" := JNum(0.0)];
    DepNumAt();
    SkipNonQualifying(DefaultValues, z, 0, |DefaultValues|);
  }

  /** Positions that do not qualify contribute nothing. */
  lemma {:induction false} SkipNonQualifying(defaults: seq<Default>, client: Record, from: nat, to: nat)
    requires from <= to <= |defaults|
    requires forall i :: from <= i < to ==> !Qualifies(client, defaults[i])
    ensures Qualifying(defaults, client, from) == Qualifying(defaults, client, to)
    decreases (to as int) - from
  {
    if from < to {
      SkipNonQualifying(defaults, client, from + 1, to);
    }
  }

  lemma DepNumAt()
    ensures DefaultValues[2] == Default("dep_num", JNum(0.0))
    ensures forall i :: 0 <= i < |DefaultValues| && DefaultValues[i].field == "dep_num" ==> i == 2
  {
    DefaultKeysDistinct();
  }
}
