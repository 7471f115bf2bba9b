/** The record store behind the server's client routes: the
    `form-submissions` array of the database document, searched by first
    name, read by id, appended to, merged into and spliced. The array is
    absent until the first submission creates it. HTTP statuses become the
    error variants of `Result`. */
module Submissions {
  import opened JsText
  import opened Json

  datatype ApiError =
    | BadRequest   // 400: the search query lacks a first name
    | NotFound     // 404: no record has the requested id
    | Crash        // an uncaught TypeError in the handler (a missing array or a
                   // first name that is not a string): no response is sent

  datatype Result<+T> = Ok(value: T) | Err(error: ApiError)

  /** `user.id === userId`: the record's id is exactly that string. */
  predicate HasId(r: Record, id: string) {
    "id" in r && r["id"] == JStr(id)
  }

  /** `findIndex((user) => user.id === id)`: the position of the first
      record with the id, `None` standing for -1. */
  function FindIndex(s: seq<Record>, id: string): (r: Option<nat>)
    ensures r.Some? ==> r.value < |s| && HasId(s[r.value], id)
    ensures r.Some? ==> forall j :: 0 <= j < r.value ==> !HasId(s[j], id)
    ensures r.None? <==> forall j :: 0 <= j < |s| ==> !HasId(s[j], id)
  {
    if s == [] then None
    else if HasId(s[0], id) then Some(0)
    else match FindIndex(s[1..], id)
      case None => None
      case Some(i) => Some(i + 1)
  }

  // ----- GET /api/clients/search -----

  /** The record has a string first name, so `toLowerCase` can be called on it. */
  predicate HasStringFirstName(c: Record) {
    "firstName" in c && c["firstName"].JStr?
  }

  /** The case-insensitive comparison of the search filter. */
  predicate NameMatches(c: Record, query: string) {
    HasStringFirstName(c) && Lower(c["firstName"].s) == Lower(query)
  }

  /** `clients.filter(...)`: the matching records, in stored order. */
  function FilterByFirstName(clients: seq<Record>, query: string): (r: seq<Record>)
    requires forall i :: 0 <= i < |clients| ==> HasStringFirstName(clients[i])
    ensures |r| <= |clients|
    ensures forall x :: x in r <==> x in clients && NameMatches(x, query)
  {
    if clients == [] then []
    else if NameMatches(clients[0], query) then [clients[0]] + FilterByFirstName(clients[1..], query)
    else FilterByFirstName(clients[1..], query)
  }

  /** The search route. A missing or empty `firstName` is a bad request; an
      absent array searches as empty; a record whose first name is not a
      string makes the filter throw. */
  function Search(collection: Option<seq<Record>>, firstName: Option<string>): (r: Result<seq<Record>>)
    ensures (firstName == None || firstName == Some("")) <==> r == Err(BadRequest)
    ensures firstName.Some? && firstName.value != "" && collection == None ==> r == Ok([])
    ensures r.Ok? ==> forall x :: x in r.value <==> collection.Some? && x in collection.value && NameMatches(x, firstName.value)
    ensures r == Err(Crash) <==> firstName.Some? && firstName.value != "" && collection.Some?
                                 && exists i :: 0 <= i < |collection.value| && !HasStringFirstName(collection.value[i])
  {
    if firstName == None || firstName.value == "" then Err(BadRequest)
    else
      var clients := if collection.Some? then collection.value else [];
      if forall i :: 0 <= i < |clients| ==> HasStringFirstName(clients[i])
      then Ok(FilterByFirstName(clients, firstName.value))
      else Err(Crash)
  }

  /** The filter keeps stored order: filtering a concatenation is the
      concatenation of the filtered parts. */
  lemma {:induction false} FilterKeepsOrder(a: seq<Record>, b: seq<Record>, query: string)
    requires forall i :: 0 <= i < |a| ==> HasStringFirstName(a[i])
    requires forall i :: 0 <= i < |b| ==> HasStringFirstName(b[i])
    ensures FilterByFirstName(a + b, query) == FilterByFirstName(a, query) + FilterByFirstName(b, query)
  {
    if a != [] {
      assert (a + b)[0] == a[0];
      assert (a + b)[1..] == a[1..] + b;
      FilterKeepsOrder(a[1..], b, query);
      if NameMatches(a[0], query) {
        calc {
          FilterByFirstName(a + b, query);
          [a[0]] + FilterByFirstName(a[1..] + b, query);
          [a[0]] + (FilterByFirstName(a[1..], query) + FilterByFirstName(b, query));
          ([a[0]] + FilterByFirstName(a[1..], query)) + FilterByFirstName(b, query);
        }
      }
    } else {
      assert a + b == b;
    }
  }

  /** Queries that differ only in (ASCII) case give the same result. */
  lemma {:induction false} SearchIgnoresCase(collection: Option<seq<Record>>, q1: string, q2: string)
    requires Lower(q1) == Lower(q2)
    ensures Search(collection, Some(q1)) == Search(collection, Some(q2))
  {
    if q1 != "" {
      var clients := if collection.Some? then collection.value else [];
      if forall i :: 0 <= i < |clients| ==> HasStringFirstName(clients[i]) {
        FilterSameForEqualLower(clients, q1, q2);
      }
    }
  }

  lemma {:induction false} FilterSameForEqualLower(clients: seq<Record>, q1: string, q2: string)
    requires forall i :: 0 <= i < |clients| ==> HasStringFirstName(clients[i])
    requires Lower(q1) == Lower(q2)
    ensures FilterByFirstName(clients, q1) == FilterByFirstName(clients, q2)
  {
    if clients != [] {
      FilterSameForEqualLower(clients[1..], q1, q2);
    }
  }

  // ----- GET /api/client/:id -----

  /** The first record with the id; a missing array makes `find` throw. */
  function GetById(collection: Option<seq<Record>>, id: string): (r: Result<Record>)
    ensures collection == None <==> r == Err(Crash)
    ensures r == Err(NotFound) <==> collection.Some? && FindIndex(collection.value, id) == None
    ensures r.Ok? ==> collection.Some? && FindIndex(collection.value, id).Some?
                      && r.value == collection.value[FindIndex(collection.value, id).value]
  {
    match collection
    case None => Err(Crash)
    case Some(s) =>
      match FindIndex(s, id)
      case None => Err(NotFound)
      case Some(i) => Ok(s[i])
  }

  // ----- POST /api/submit-form -----

  const IdCharacters := "abcdefghijklmnopqrstuvwxyz0123456789"

  /** A string the id generator can produce: `length` characters of `[a-z0-9]`. */
  predicate IsGeneratedId(s: string, length: nat) {
    |s| == length && forall i :: 0 <= i < |s| ==> s[i] in IdCharacters
  }

  /** `generateUniqueId`: each character is picked from the 36-character
      alphabet; the pick is free (the source draws it from `Math.random`),
      and nothing checks the result against the ids already stored. */
  method GenerateUniqueId(length: nat := 4) returns (result: string)
    ensures IsGeneratedId(result, length)
  {
    result := "";
    for i := 0 to length
      invariant IsGeneratedId(result, i)
    {
      var randomIndex :| 0 <= randomIndex < |IdCharacters|;
      result := result + [IdCharacters[randomIndex]];
    }
  }

  /** `{ id: generated, ...formData }`: the form data plus an id, where an id
      the form data carries itself wins over the generated one. */
  function NewSubmission(generated: string, formData: Record): (r: Record)
    ensures r.Keys == formData.Keys + {"id"}
    ensures forall k :: k in formData ==> r[k] == formData[k]
    ensures "id" !in formData ==> r["id"] == JStr(generated)
  {
    map["id" := JStr(generated)] + formData
  }

  // ----- PUT /api/update-user/:id -----

  /** `{ ...record, ...updatedData }`: supplied fields overwrite, the others stay. */
  function Merge(record: Record, updatedData: Record): (r: Record)
    ensures r.Keys == record.Keys + updatedData.Keys
    ensures forall k :: k in updatedData ==> r[k] == updatedData[k]
    ensures forall k :: k in record && k !in updatedData ==> r[k] == record[k]
  {
    record + updatedData
  }

  /** The array after an update: `None` when no record has the id; otherwise
      only the first record with the id is replaced by its merge. */
  function UpdateFirst(s: seq<Record>, id: string, updatedData: Record): (r: Option<seq<Record>>)
    ensures r.None? <==> FindIndex(s, id).None?
    ensures r.Some? ==> |r.value| == |s|
    ensures r.Some? ==> forall j :: 0 <= j < |s| && j != FindIndex(s, id).value ==> r.value[j] == s[j]
    ensures r.Some? ==> r.value[FindIndex(s, id).value] == Merge(s[FindIndex(s, id).value], updatedData)
  {
    match FindIndex(s, id)
    case None => None
    case Some(i) => Some(s[i := Merge(s[i], updatedData)])
  }

  // ----- DELETE /api/delete-user/:id -----

  /** The array after a delete: `None` when no record has the id; otherwise
      the first record with the id is spliced out and the rest keep their order. */
  function DeleteFirst(s: seq<Record>, id: string): (r: Option<seq<Record>>)
    ensures r.None? <==> FindIndex(s, id).None?
    ensures r.Some? ==> |r.value| == |s| - 1
    ensures r.Some? ==> forall j :: 0 <= j < FindIndex(s, id).value ==> r.value[j] == s[j]
    ensures r.Some? ==> forall j :: FindIndex(s, id).value <= j < |r.value| ==> r.value[j] == s[j + 1]
  {
    match FindIndex(s, id)
    case None => None
    case Some(i) => Some(s[..i] + s[i + 1..])
  }

  /** The database's `form-submissions` array, read and rewritten by each
      write request. */
  class Store {
    var submissions: Option<seq<Record>>

    constructor (initial: Option<seq<Record>>)
      ensures submissions == initial
    {
      submissions := initial;
    }

    /** `GET /api/users`: the array as stored (`undefined` when absent). */
    method ListUsers() returns (users: Option<seq<Record>>)
      ensures users == submissions
    {
      users := submissions;
    }

    /** `POST /api/submit-form`: appends one new record at the end, creating
        the array if absent, and returns it. */
    method SubmitForm(formData: Record) returns (submission: Record)
      modifies this
      ensures submissions.Some?
      ensures submissions.value == (if old(submissions).Some? then old(submissions).value else []) + [submission]
      ensures submission.Keys == formData.Keys + {"id"}
      ensures forall k :: k in formData ==> submission[k] == formData[k]
      ensures "id" !in formData ==> submission["id"].JStr? && IsGeneratedId(submission["id"].s, 4)
    {
      var generated := GenerateUniqueId();
      submission := NewSubmission(generated, formData);
      var existing := if submissions.Some? then submissions.value else [];
      submissions := Some(existing + [submission]);
    }

    /** `PUT /api/update-user/:id`: merges the supplied fields into the first
        record with the id and echoes them back. The server stamps nothing
        itself: `last_update` changes only if the request supplies it. */
    method UpdateUser(id: string, updatedData: Record) returns (r: Result<Record>)
      modifies this
      ensures old(submissions) == None ==> r == Err(Crash) && submissions == old(submissions)
      ensures old(submissions).Some? && UpdateFirst(old(submissions).value, id, updatedData).None?
              ==> r == Err(NotFound) && submissions == old(submissions)
      ensures old(submissions).Some? && UpdateFirst(old(submissions).value, id, updatedData).Some?
              ==> r == Ok(updatedData) && submissions == UpdateFirst(old(submissions).value, id, updatedData)
    {
      if submissions == None {
        return Err(Crash);
      }
      var s := submissions.value;
      var userIndex := FindIndex(s, id);
      if userIndex == None {
        return Err(NotFound);
      }
      var i := userIndex.value;
      submissions := Some(s[i := Merge(s[i], updatedData)]);
      r := Ok(updatedData);
    }

    /** `DELETE /api/delete-user/:id`: splices out the first record with the
        id and returns the id. */
    method DeleteUser(id: string) returns (r: Result<string>)
      modifies this
      ensures old(submissions) == None ==> r == Err(Crash) && submissions == old(submissions)
      ensures old(submissions).Some? && DeleteFirst(old(submissions).value, id).None?
              ==> r == Err(NotFound) && submissions == old(submissions)
      ensures old(submissions).Some? && DeleteFirst(old(submissions).value, id).Some?
              ==> r == Ok(id) && submissions == DeleteFirst(old(submissions).value, id)
    {
      if submissions == None {
        return Err(Crash);
      }
      var s := submissions.value;
      var userIndex := FindIndex(s, id);
      if userIndex == None {
        return Err(NotFound);
      }
      var i := userIndex.value;
      submissions := Some(s[..i] + s[i + 1..]);
      r := Ok(id);
    }
  }

  // ----- Properties relating the operations -----

  /** No two records share an id. Nothing in the server maintains this. */
  predicate UniqueIds(s: seq<Record>) {
    forall i, j :: 0 <= i < j < |s| && "id" in s[i] && "id" in s[j] && s[i]["id"].JStr? ==> s[i]["id"] != s[j]["id"]
  }

  /** Past every stored record, get-by-id finds the appended one or nothing. */
  lemma {:induction false} FindIndexAppend(s: seq<Record>, rec: Record, id: string)
    requires FindIndex(s, id).None?
    ensures FindIndex(s + [rec], id) == if HasId(rec, id) then Some(|s|) else None
  {
    if s == [] {
      assert s + [rec] == [rec];
    } else {
      assert (s + [rec])[0] == s[0];
      assert (s + [rec])[1..] == s[1..] + [rec];
      FindIndexAppend(s[1..], rec, id);
    }
  }

  /** A submission whose id no stored record has is what get-by-id then returns. */
  lemma SubmitThenGet(s: seq<Record>, generated: string, formData: Record, id: string)
    requires HasId(NewSubmission(generated, formData), id)
    requires FindIndex(s, id).None?
    ensures GetById(Some(s + [NewSubmission(generated, formData)]), id) == Ok(NewSubmission(generated, formData))
  {
    var rec := NewSubmission(generated, formData);
    FindIndexAppend(s, rec, id);
  }

  /** Ids are not checked for collisions: when an earlier record already has
      the id, get-by-id keeps returning that earlier record. */
  lemma SubmitShadowedByEarlierId(s: seq<Record>, rec: Record, id: string)
    requires FindIndex(s, id).Some?
    ensures GetById(Some(s + [rec]), id) == Ok(s[FindIndex(s, id).value])
  {
    FindIndexPrefix(s, [rec], id);
    assert (s + [rec])[FindIndex(s, id).value] == s[FindIndex(s, id).value];
  }

  /** Records appended after a match do not move the first match. */
  lemma {:induction false} FindIndexPrefix(s: seq<Record>, t: seq<Record>, id: string)
    requires FindIndex(s, id).Some?
    ensures FindIndex(s + t, id) == FindIndex(s, id)
  {
    assert (s + t)[0] == s[0];
    if !HasId(s[0], id) {
      assert (s + t)[1..] == s[1..] + t;
      FindIndexPrefix(s[1..], t, id);
    }
  }

  /** Updating a record without touching its id: get-by-id then shows every
      supplied field and keeps every other field. */
  lemma UpdateThenGet(s: seq<Record>, id: string, updatedData: Record)
    requires FindIndex(s, id).Some?
    requires "id" !in updatedData
    ensures UpdateFirst(s, id, updatedData).Some?
    ensures var after := GetById(UpdateFirst(s, id, updatedData), id);
            && after.Ok?
            && (forall k :: k in updatedData ==> k in after.value && after.value[k] == updatedData[k])
            && (forall k :: k in s[FindIndex(s, id).value] && k !in updatedData ==>
                  k in after.value && after.value[k] == s[FindIndex(s, id).value][k])
  {
    var i := FindIndex(s, id).value;
    var t := UpdateFirst(s, id, updatedData).value;
    assert HasId(t[i], id);
    var r := FindIndex(t, id);
    assert r.Some? && r.value <= i;
  }

  /** The server does not stamp `last_update`: unless the request supplies
      it, the merged record keeps the old value (or its absence). */
  lemma UpdateDoesNotStamp(record: Record, updatedData: Record)
    ensures "last_update" !in updatedData ==> Get(Merge(record, updatedData), "last_update") == Get(record, "last_update")
    ensures "last_update" in updatedData ==> Get(Merge(record, updatedData), "last_update") == Some(updatedData["last_update"])
  {
  }

  /** With unique ids, a deleted id is gone: get-by-id reports NotFound. */
  lemma DeleteThenGet(s: seq<Record>, id: string)
    requires UniqueIds(s)
    requires FindIndex(s, id).Some?
    ensures DeleteFirst(s, id).Some?
    ensures GetById(DeleteFirst(s, id), id) == Err(NotFound)
  {
    var i := FindIndex(s, id).value;
    var t := DeleteFirst(s, id).value;
    forall j | 0 <= j < |t| ensures !HasId(t[j], id) {
      if j >= i {
        assert t[j] == s[j + 1];
      }
    }
  }

  /** Without unique ids the delete removes only the first match: a second
      record with the same id is still found afterwards. */
  lemma DeleteLeavesDuplicate()
    ensures var a := map["id" := JStr("ab12"), "firstName" := JStr("Ann")];
            var b := map["id" := JStr("ab12"), "firstName" := JStr("Bob")];
            GetById(DeleteFirst([a, b], "ab12"), "ab12") == Ok(b)
  {
    var a := map["id" := JStr("ab12"), "firstName" := JStr("Ann")];
    var b := map["id" := JStr("ab12"), "firstName" := JStr("Bob")];
    assert HasId(a, "ab12");
    assert FindIndex([a, b], "ab12") == Some(0);
    assert [a, b][..0] + [a, b][1..] == [b];
    assert DeleteFirst([a, b], "ab12") == Some([b]);
    assert HasId(b, "ab12");
  }
}
