# Common Assessment Tool: a Dafny model

This project models the logic of a return-to-work assessment tool. It has a small
Express back end that keeps client records in a JSON document and computes a
work score, and a React front end that collects, edits, searches and shows
those records.

The model covers these parts:

- **The work score** (`WorkScore`). The `POST /api/work-score` handler starts
  from 20. It adds capped work experience, an age bonus and five capped skill
  scales. It applies the string flags, which count only when they are exactly
  `"true"`, and clamps the result to [0, 100]. It always returns the same
  three interventions. The handler is a method that builds its score step by
  step. It is proved equal to a reference formula, and bounds, brackets, caps,
  monotonicity and the weight of each flag are proved about that formula.
- **The record store** (`Submissions`). The `form-submissions` array is
  searched by first name without regard to case, read by id (first match),
  appended to, merged into and spliced. The array is absent until the first
  submission creates it. The write routes are methods of a `Store` class whose
  field is that array. `generateUniqueId` is a loop over a free choice from its
  36-character alphabet.
- **The intake form** (`FormNew`, `Events`): the
  validator with its three overwriting age checks; the change handler, where
  a checkbox stores `"true"`/`"false"`; and the initial and cleared states.
- **The detail page** (`DetailPage`). A `Page` class holds the loaded record
  and the per-field edit mode. It models edit, change, confirm with
  validation and payload, and the submit gate that is refused while a field
  is still being edited.
- **The search card** (`ClientSearch`): up to four fields whose values
  strictly differ from the default table, in the table's order.
- **The result page** (`ResultPage`): how an intervention is formatted, how
  its URL key is made, the fallback navigation state, and where the back
  button leads.
- **The intervention page** (`InterventionPage`): the URL key turned back
  into a title, and when that round trip holds.

`JsText` and `Json` hold the shared JavaScript primitives: whitespace and
word characters, ASCII case, `trim`, `join`, number text, JSON values and
`Number(v)`.

Where the code's names, comments and messages promise more than its logic
does, the model follows the logic:

- The name `generateUniqueId` (`backend/server.js:78`) and the comment at
  its call (`:91-94`) promise unique ids, but the code never
  checks a generated id against the stored ones. A form that supplies its
  own `id` keeps it, and an update may overwrite `id`. So delete-then-get is
  NotFound only under unique ids (`Submissions.DeleteThenGet`), and
  `Submissions.DeleteLeavesDuplicate` shows the case without them.
- The intake form's message "Age must be between 18 and 65."
  (`app/src/components/FormNew.jsx:106`) is shown only for ages below 18
  or above 66, so the form accepts 66 (`FormNew.ValidIff`). Only the detail
  page's confirm rejects 66.
- The record's `last_update` field, commented as the timestamp of the
  last update (`app/src/components/DetailPage.jsx:79`), is not the time of
  the last change. The update route merges whatever it is sent and stamps nothing
  itself (`Submissions.UpdateDoesNotStamp`). Only the detail page's confirm
  sends a `last_update` (`DetailPage.ConfirmPayload`), so any other update
  leaves the old one in place.

## Model

| member | source | states |
|---|---|---|
| WorkScore.RawScore | CommonAssessmentToolUI-main/backend/server.js:166-207 | the unclamped score is at most 97 for every request, since every contribution is capped |
| WorkScore.Clamp | CommonAssessmentToolUI-main/backend/server.js:209-210 | the result lies in [0, 100], is the input inside that range, 0 below it and 100 above it |
| WorkScore.Baseline | CommonAssessmentToolUI-main/backend/server.js:209-213 | the returned baseline lies in [0, 100] for any integer inputs |
| WorkScore.ScoreHandler | CommonAssessmentToolUI-main/backend/server.js:165-220 | the score built field by field equals the clamped reference formula; the interventions are the three fixed pairs in order, whatever the input |
| WorkScore.CeilingNeverReached | CommonAssessmentToolUI-main/backend/server.js:185-210 | the upper clamp never fires: the baseline is the raw score floored at 0, and is at most 97 |
| WorkScore.NonNegativeBounds | CommonAssessmentToolUI-main/backend/server.js:166-210 | with non-negative numeric inputs the raw score lies in [10, 97] and the clamp changes nothing |
| WorkScore.BoundsAttained | CommonAssessmentToolUI-main/backend/server.js:166-210 | 10 and 97 are both reached by non-negative requests, and a negative input drives the baseline to 0 |
| WorkScore.AgeBonus | CommonAssessmentToolUI-main/backend/server.js:188-192 | the bonus is 0, 3 or 5; for a given age it is 5 iff the age is 18 to 35 and at least 3 iff the age is at most 50; null earns 3 and a missing age 0 |
| WorkScore.AgeBrackets | CommonAssessmentToolUI-main/backend/server.js:188-192 | the bonus is 5 iff the age is 18 to 35; 3 iff it is null, under 18 or 36 to 50; 0 iff it is missing or over 50 |
| WorkScore.WorkedExample | CommonAssessmentToolUI-main/backend/server.js:166-210 | work experience 12, Canadian 2, age 30, all scales 10, transportation and employed "true" give 94 |
| WorkScore.FieldContribution | CommonAssessmentToolUI-main/backend/server.js:170-198 | each numeric field adds exactly min(value, cap) to the raw score, a missing field counting as 0 |
| WorkScore.CapIdempotent | CommonAssessmentToolUI-main/backend/server.js:185-198 | raising a numeric field at or beyond its cap (10, 5, 10) leaves the baseline unchanged |
| WorkScore.MissingCountsAsZero | CommonAssessmentToolUI-main/backend/server.js:170-177 | a missing or null numeric field scores the same as 0 |
| WorkScore.Monotone | CommonAssessmentToolUI-main/backend/server.js:185-198 | raising any numeric field never lowers the baseline |
| WorkScore.FlagContribution | CommonAssessmentToolUI-main/backend/server.js:178-207 | a flag moves the raw score by its weight (-5, -3, -2, +2, +5) exactly when it is the string "true"; any other value counts as absent |
| WorkScore.PenaltyLowersScore | CommonAssessmentToolUI-main/backend/server.js:201-210 | a risk flag set to "true" lowers the baseline iff the score without it is positive; the boolean true changes nothing |
| Submissions.FindIndex | CommonAssessmentToolUI-main/backend/server.js:142 | the result is the first position whose record has the id as a string, and none exactly when no record has it |
| Submissions.FilterByFirstName | CommonAssessmentToolUI-main/backend/server.js:48-51 | a record is kept iff it is in the input and its lowercased first name equals the lowercased query |
| Submissions.Search | CommonAssessmentToolUI-main/backend/server.js:24-51 | a missing or empty first name is exactly a bad request; an absent array gives []; results are exactly the matching records; a non-string first name in the array is exactly the crash |
| Submissions.FilterKeepsOrder | CommonAssessmentToolUI-main/backend/server.js:48-51 | filtering keeps stored order: the filter of a concatenation is the concatenation of the filters |
| Submissions.SearchIgnoresCase | CommonAssessmentToolUI-main/backend/server.js:50 | queries with equal lowercase give the same search result |
| Submissions.GetById | CommonAssessmentToolUI-main/backend/server.js:67-74 | a missing array is exactly the crash; NotFound exactly when no record has the id; otherwise the first such record |
| Submissions.GenerateUniqueId | CommonAssessmentToolUI-main/backend/server.js:78-86 | the result has the requested length, and every character is in `a-z0-9` |
| Submissions.NewSubmission | CommonAssessmentToolUI-main/backend/server.js:93-96 | the record is the form data plus an `id` key; the form's own fields win, its own `id` included |
| Submissions.Merge | CommonAssessmentToolUI-main/backend/server.js:149-152 | keys are the union; supplied fields overwrite; the others keep their values |
| Submissions.UpdateFirst | CommonAssessmentToolUI-main/backend/server.js:142-152 | unknown id iff no result; otherwise the same length, only the first matching record replaced by its merge |
| Submissions.DeleteFirst | CommonAssessmentToolUI-main/backend/server.js:231-238 | unknown id iff no result; otherwise the first match removed, length one less, the rest in order |
| Submissions.Store.ListUsers | CommonAssessmentToolUI-main/backend/server.js:122-130 | returns the array as stored, absent when it is absent |
| Submissions.Store.SubmitForm | CommonAssessmentToolUI-main/backend/server.js:89-119 | the array, created if absent, gains exactly the new record at its end; the record is the form data plus an id, generated as four `a-z0-9` characters unless the form supplies one |
| Submissions.Store.UpdateUser | CommonAssessmentToolUI-main/backend/server.js:133-162 | a missing array crashes and an unknown id is NotFound, both leaving the array unchanged; otherwise the array becomes the update of the first match and the supplied data is echoed |
| Submissions.Store.DeleteUser | CommonAssessmentToolUI-main/backend/server.js:223-248 | a missing array crashes and an unknown id is NotFound, both with no change; otherwise the first match is spliced out and the id returned |
| Submissions.SubmitThenGet | CommonAssessmentToolUI-main/backend/server.js:93-106 | a submission whose id no stored record has is what get-by-id then returns |
| Submissions.SubmitShadowedByEarlierId | CommonAssessmentToolUI-main/backend/server.js:78-106 | with no collision check, an earlier record holding the same id keeps being the one returned |
| Submissions.UpdateThenGet | CommonAssessmentToolUI-main/backend/server.js:142-152 | after an update that leaves the id alone, get-by-id shows every supplied field and every other old field |
| Submissions.UpdateDoesNotStamp | CommonAssessmentToolUI-main/backend/server.js:149-152 | `last_update` after the merge is the supplied one, or else the old one (or its absence): the server stamps nothing |
| Submissions.DeleteThenGet | CommonAssessmentToolUI-main/backend/server.js:231-238 | with unique ids, get-by-id after deleting an id is NotFound |
| Submissions.DeleteLeavesDuplicate | CommonAssessmentToolUI-main/backend/server.js:231-238 | without unique ids, only the first match goes: a second record with the id is still found |
| Events.ApplyChange | CommonAssessmentToolUI-main/app/src/components/FormNew.jsx:70-76 | a checkbox stores "true" iff checked and "false" otherwise; another input stores its raw value; no other field changes |
| Events.CheckboxIgnoresValue | CommonAssessmentToolUI-main/app/src/components/DetailPage.jsx:156-162 | a checkbox change depends only on `checked`, never on its value, and never stores a native boolean |
| FormNew.InitialUser | CommonAssessmentToolUI-main/app/src/components/FormNew.jsx:22-49 | every field starts as "", "false" or the number 0; both names are empty and the age is 0 |
| FormNew.ClearedUser | CommonAssessmentToolUI-main/app/src/components/FormNew.jsx:150-179 | clearing gives the initial fields and values, except `income_source`, which becomes the number 0 instead of "" |
| FormNew.LastAgeMessage | CommonAssessmentToolUI-main/app/src/components/FormNew.jsx:92-108 | there is no age message iff none of the three checks failed |
| FormNew.AgeError | CommonAssessmentToolUI-main/app/src/components/FormNew.jsx:92-108 | there is no age message iff the age is a whole number from 18 to 66 |
| FormNew.ValidateForm | CommonAssessmentToolUI-main/app/src/components/FormNew.jsx:78-112 | the errors are the required messages for blank names plus the age message of the last failing check; the form is valid iff there are no errors |
| FormNew.ValidIff | CommonAssessmentToolUI-main/app/src/components/FormNew.jsx:78-111 | no errors iff both names are non-blank after trim and the age is a whole number from 18 to 66 |
| FormNew.LastAgeMessageWins | CommonAssessmentToolUI-main/app/src/components/FormNew.jsx:92-107 | 17.5 gets the range message, -2.5 and NaN the "valid number" message, 0 the "required" message; 66 passes and 67 does not |
| DetailPage.IndexOfField | CommonAssessmentToolUI-main/app/src/components/DetailPage.jsx:82 | finds the field's entry, and none exactly when the edit-mode object lacks the field |
| DetailPage.Lookup | CommonAssessmentToolUI-main/app/src/components/DetailPage.jsx:168 | `editMode[field]` is undefined exactly when the field has no entry, else that entry's flag |
| DetailPage.SetEditing | CommonAssessmentToolUI-main/app/src/components/DetailPage.jsx:99-145 | the field now has the new flag; every other field reads as before; an existing key keeps its place and a new one goes last |
| DetailPage.UnconfirmedFields | CommonAssessmentToolUI-main/app/src/components/DetailPage.jsx:167-169 | a field is listed iff its entry is in edit mode |
| DetailPage.UnconfirmedFieldsAppend | CommonAssessmentToolUI-main/app/src/components/DetailPage.jsx:167-169 | the filter keeps key order: the fields listed for a concatenation are those of the first part followed by those of the second |
| DetailPage.QuotedLabels | CommonAssessmentToolUI-main/app/src/components/DetailPage.jsx:171-173 | each field becomes its quoted label followed by " Field", "undefined" for an unknown field |
| DetailPage.Submit | CommonAssessmentToolUI-main/app/src/components/DetailPage.jsx:164-182 | blocked iff some field is in edit mode, with a message naming exactly those fields in key order; otherwise the record is sent as is |
| DetailPage.ConfirmCheck | CommonAssessmentToolUI-main/app/src/components/DetailPage.jsx:108-123 | a blank first or last name is rejected and a non-string one throws; an age whose `Number` value is below 18 or above 65 is rejected, and a missing or non-numeric one passes; other fields pass |
| DetailPage.AgeText | CommonAssessmentToolUI-main/app/src/components/DetailPage.jsx:118-119 | an age typed as text is rejected iff the number it converts to is below 18 or above 65 |
| DetailPage.NegativeAgeRejected | CommonAssessmentToolUI-main/app/src/components/DetailPage.jsx:118-119 | the text "-3" from the number input is rejected |
| DetailPage.FractionalAgeRejected | CommonAssessmentToolUI-main/app/src/components/DetailPage.jsx:118-119 | the text "17.5" is rejected |
| DetailPage.PlusAgeRejected | CommonAssessmentToolUI-main/app/src/components/DetailPage.jsx:118-119 | the text "+70" is rejected |
| DetailPage.ExponentAgeRejected | CommonAssessmentToolUI-main/app/src/components/DetailPage.jsx:118-119 | the text "1e2", which is 100, is rejected |
| DetailPage.TypedAgeAccepted | CommonAssessmentToolUI-main/app/src/components/DetailPage.jsx:118-119 | the text "40" passes |
| DetailPage.ConfirmPayload | CommonAssessmentToolUI-main/app/src/components/DetailPage.jsx:126-130 | the payload has exactly the field and `last_update`, the field's value copied, the timestamp as `last_update` |
| DetailPage.DefaultUser | CommonAssessmentToolUI-main/app/src/components/DetailPage.jsx:52-80 | the page's initial record is the intake form's initial record plus an empty `last_update` |
| DetailPage.Page.constructor | CommonAssessmentToolUI-main/app/src/components/DetailPage.jsx:52-97 | the page holds the fetched record, or the defaults when the fetch fails, with no field in edit mode |
| DetailPage.Page.EditClick | CommonAssessmentToolUI-main/app/src/components/DetailPage.jsx:99-104 | the field goes into edit mode, the rest of the edit mode and the record unchanged |
| DetailPage.Page.HandleChange | CommonAssessmentToolUI-main/app/src/components/DetailPage.jsx:156-162 | the record takes the change by the form's rule; edit mode unchanged |
| DetailPage.Page.ConfirmClick | CommonAssessmentToolUI-main/app/src/components/DetailPage.jsx:106-154 | a failed check sends nothing and leaves the field in edit mode; a passing one sends the two-key payload; only a successful request stamps the local `last_update` and takes the field out of edit mode |
| DetailPage.Page.SubmitNow | CommonAssessmentToolUI-main/app/src/components/DetailPage.jsx:164-176 | the page's submit is blocked iff some field is in edit mode |
| DetailPage.ConfirmClearsBlock | CommonAssessmentToolUI-main/app/src/components/DetailPage.jsx:99-176 | an edited field blocks submission, and after a confirm it no longer does |
| ClientSearch.Qualifying | CommonAssessmentToolUI-main/app/src/components/ClientSearch.jsx:118-123 | the positions listed are in increasing order, and a position is listed iff the client has that field with a value strictly unequal to its default |
| ClientSearch.ShownPositions | CommonAssessmentToolUI-main/app/src/components/ClientSearch.jsx:124 | at most four positions, the first min(count, 4) qualifying ones |
| ClientSearch.NonDefaultFields | CommonAssessmentToolUI-main/app/src/components/ClientSearch.jsx:118-124 | the names of the shown positions, one for one |
| ClientSearch.DefaultKeysDistinct | CommonAssessmentToolUI-main/app/src/components/ClientSearch.jsx:17-40 | no two entries of the default table share a key |
| ClientSearch.ShownFields | CommonAssessmentToolUI-main/app/src/components/ClientSearch.jsx:118-124 | at most four fields, each qualifying, in table order, none repeated; once four are shown, any qualifying field left out comes after the fourth |
| ClientSearch.IdentityFieldsNeverShown | CommonAssessmentToolUI-main/app/src/components/ClientSearch.jsx:17-40 | firstName, lastName, age and gender never appear |
| ClientSearch.StringZeroIsNotDefault | CommonAssessmentToolUI-main/app/src/components/ClientSearch.jsx:118-123 | the string "0" is shown against the numeric default 0, and the number 0 is not |
| ResultPage.FixedText | CommonAssessmentToolUI-main/app/src/components/ResultPage.jsx:46 | `toFixed(f)` has at least f + 1 characters, starts with "-" iff the value is negative, and has only digits and a point after that |
| ResultPage.FixedTextShape | CommonAssessmentToolUI-main/app/src/components/ResultPage.jsx:46 | `toFixed(f)` of a non-negative value has one point, exactly f digits after it, at least one before it, digits elsewhere |
| ResultPage.FixedTextValue | CommonAssessmentToolUI-main/app/src/components/ResultPage.jsx:46 | read without its point, the `toFixed(f)` text is the value within half a unit of the last place |
| ResultPage.NumberText | CommonAssessmentToolUI-main/app/src/components/ResultPage.jsx:33 | `String(x)` is not empty, starts with "-" iff x is negative, and for a whole x of at least 0 is the decimal digits that read back as x |
| ResultPage.JsString | CommonAssessmentToolUI-main/app/src/components/ResultPage.jsx:45 | `String(v)` of a string is the string, of an empty array is "", of a one-element array is that element's text |
| ResultPage.FormatIntervention | CommonAssessmentToolUI-main/app/src/components/ResultPage.jsx:39-51 | not a two-element array whose second element is an array: "Invalid data" with an empty percentage; otherwise the labels joined with ", " and the percentage to one decimal with "%", and a throw exactly when the percentage is not a number |
| ResultPage.StringLabels | CommonAssessmentToolUI-main/app/src/components/ResultPage.jsx:43-46 | string labels format exactly as those strings joined with ", " |
| ResultPage.InterventionKey | CommonAssessmentToolUI-main/app/src/components/ResultPage.jsx:120-122 | same length as the types; each whitespace or comma becomes one "-", the rest is lowercased in place |
| ResultPage.KeyCharacters | CommonAssessmentToolUI-main/app/src/components/ResultPage.jsx:120-122 | the key has no whitespace, no comma, no ASCII capital, and a "-" exactly where the types had a separator or a "-" |
| ResultPage.Cards | CommonAssessmentToolUI-main/app/src/components/ResultPage.jsx:118-122 | a card per intervention, in order, with its formatted title, percentage and key; none iff the list is not an array or some item throws |
| ResultPage.Encode | CommonAssessmentToolUI-main/backend/server.js:212-219 | one entry per intervention, in order, each a two-element array of its percentage as a number and its labels as strings |
| ResultPage.EncodedFormats | CommonAssessmentToolUI-main/app/src/components/ResultPage.jsx:39-51 | an encoded intervention formats to its labels joined with ", " and its percentage to one decimal with "%" |
| ResultPage.StaticInterventionCards | CommonAssessmentToolUI-main/app/src/components/ResultPage.jsx:39-122 | the score handler's interventions render as "Job training" 8.5%, "Counseling" 6.3% and "Mentorship programs" 5.0% with keys job-training, counseling, mentorship-programs |
| ResultPage.InitialState | CommonAssessmentToolUI-main/app/src/components/ResultPage.jsx:20-25 | no state (or a falsy one) gives id null, user {}, probability 0, interventions []; an object state gives its own fields, missing ones undefined |
| ResultPage.BackToForm | CommonAssessmentToolUI-main/app/src/components/ResultPage.jsx:31-37 | goes to `/client/{id}` iff the id is neither null nor undefined, else to `/form` carrying the user |
| ResultPage.NoStateGoesToForm | CommonAssessmentToolUI-main/app/src/components/ResultPage.jsx:20-37 | with no state there are no cards and back leads to `/form` with an empty user |
| ResultPage.StateWithoutIdGoesToForm | CommonAssessmentToolUI-main/app/src/components/ResultPage.jsx:20-37 | a state without an id also leads back to `/form` |
| InterventionPage.Dehyphen | CommonAssessmentToolUI-main/app/src/components/InterventionPage.jsx:10-11 | same length; every "-" becomes a space in place, every other character is kept |
| InterventionPage.Capitalize | CommonAssessmentToolUI-main/app/src/components/InterventionPage.jsx:12 | same length; the scan upper-cases exactly the word characters at a word boundary and keeps every other character |
| InterventionPage.DisplayName | CommonAssessmentToolUI-main/app/src/components/InterventionPage.jsx:10-12 | same length as the key; each position of the name is the dehyphened character, upper-cased iff it starts a word |
| InterventionPage.DisplayNameCharacters | CommonAssessmentToolUI-main/app/src/components/InterventionPage.jsx:10-12 | no "-"; a space iff the key had "-" or space; a character changes iff it is a lowercase letter starting a word; capitals are never lowered |
| InterventionPage.SingleWord | CommonAssessmentToolUI-main/app/src/components/InterventionPage.jsx:10-12 | a single word of word characters is shown with only its first character upper-cased |
| InterventionPage.KeyRoundTrip | CommonAssessmentToolUI-main/app/src/components/InterventionPage.jsx:10-12 | for a title with no comma, no "-" and only spaces as whitespace, the lowercase of the name from its key equals the lowercase of the title |
| InterventionPage.HyphenDoesNotRoundTrip | CommonAssessmentToolUI-main/app/src/components/ResultPage.jsx:120-122 | "Well-being" has key "well-being", which shows as "Well Being", so its lowercase differs from the title's |
| InterventionPage.WellBeingPage | CommonAssessmentToolUI-main/app/src/components/InterventionPage.jsx:10-12 | the key "well-being" shows as "Well Being" |
| JsText.Lower | CommonAssessmentToolUI-main/backend/server.js:50 | `toLowerCase` keeps the length and lowercases each ASCII capital in place |
| JsText.Trim | CommonAssessmentToolUI-main/app/src/components/FormNew.jsx:82 | no longer than the input; the result neither starts nor ends with whitespace; a string with no whitespace at either end is unchanged |
| JsText.TrimSlice | CommonAssessmentToolUI-main/app/src/components/FormNew.jsx:82 | what `trim` keeps is a slice of the input with only whitespace before it and after it, so only the whitespace at the two ends is removed |
| JsText.TrimStartDropsWhitespace | CommonAssessmentToolUI-main/app/src/components/FormNew.jsx:82 | every character `trimStart` drops is whitespace |
| JsText.TrimEndDropsWhitespace | CommonAssessmentToolUI-main/app/src/components/FormNew.jsx:82 | every character `trimEnd` drops is whitespace |
| JsText.BlankIffAllWhitespace | CommonAssessmentToolUI-main/app/src/components/FormNew.jsx:82 | a string trims to empty iff all of its characters are whitespace |
| JsText.Join | CommonAssessmentToolUI-main/app/src/components/ResultPage.jsx:45 | joining nothing gives "", one item gives that item, and the length is the items plus the separators between them |
| JsText.JoinSplit | CommonAssessmentToolUI-main/app/src/components/ResultPage.jsx:45 | joining two non-empty lists is joining the first, the separator, then joining the second, so the items appear in order |
| JsText.NatToStringRoundTrip | CommonAssessmentToolUI-main/app/src/components/ResultPage.jsx:46 | the decimal text of a natural number reads back as that number |
| Json.ToNumber | CommonAssessmentToolUI-main/app/src/components/DetailPage.jsx:118-119 | a missing value is NaN, null is 0, a number is itself, blank text is 0 |
| Json.IntegerText | CommonAssessmentToolUI-main/app/src/components/DetailPage.jsx:118-119 | the text of a run of decimal digits converts to the whole number they spell |
| Json.NegativeIntegerText | CommonAssessmentToolUI-main/app/src/components/DetailPage.jsx:118-119 | "-" followed by a run of digits converts to that number negated |
| Json.PlusIntegerText | CommonAssessmentToolUI-main/app/src/components/DetailPage.jsx:118-119 | "+" followed by a run of digits converts to that number |
| Json.DecimalText | CommonAssessmentToolUI-main/app/src/components/DetailPage.jsx:118-119 | digits, a point and digits (either side may be empty) convert to the whole part plus the fraction |
| Json.BareLiteral | CommonAssessmentToolUI-main/app/src/components/DetailPage.jsx:118-119 | an unsigned literal with no blanks around it converts to the value it denotes |
| Json.MinusLiteral | CommonAssessmentToolUI-main/app/src/components/DetailPage.jsx:118-119 | an unsigned literal after "-" converts to its value negated |
| Json.PlusLiteral | CommonAssessmentToolUI-main/app/src/components/DetailPage.jsx:118-119 | an unsigned literal after "+" converts to its value |
| Json.UnsignedInteger | CommonAssessmentToolUI-main/app/src/components/DetailPage.jsx:118-119 | a run of digits, with no point and no exponent, denotes the whole number they spell |
| Json.UnsignedPoint | CommonAssessmentToolUI-main/app/src/components/DetailPage.jsx:118-119 | digits, a point and digits denote the whole part plus the fraction |
| Json.UnsignedExponent | CommonAssessmentToolUI-main/app/src/components/DetailPage.jsx:118-119 | digits, an `e` and digits denote the mantissa times ten to the exponent |
| Json.ExponentText | CommonAssessmentToolUI-main/app/src/components/DetailPage.jsx:118-119 | the text of such a literal converts to that value |
| Json.Get | CommonAssessmentToolUI-main/app/src/components/DetailPage.jsx:118 | a field read is defined iff the record has the key, and is then its value |

## Left out

- File access, `JSON.parse`/`JSON.stringify`, the Express app, CORS, logging and `app.listen` are outside the model. The store is an in-memory array. HTTP 400 and 404 are the `BadRequest` and `NotFound` error variants, and the 500 replies to read and write failures are not modelled.
- An uncaught `JSON.parse` failure is not modelled. A `TypeError` on a missing array, or on a first name that is not a string, is the `Crash` variant.
- Two requests that interleave their read-modify-write of the document are not modelled. The model runs one request at a time.
- `Math.random` in the id generator is a free choice of one alphabet character. Nothing promises the id is new, and the source checks nothing.
- JavaScript coercion is modelled only where the score handler and the two validators use it. The score request's numeric fields are integers and its age is an integer, null or undefined.
- Json.ToNumber: text is read as blanks, or as an optional sign, a decimal with an optional point and an optional exponent. `Infinity` and the `0x`, `0o` and `0b` literals are `NaN` in the model. The value is exact, so rounding to a double and overflow are not modelled. Arrays and objects are `NaN` rather than converted through their text. The exponent lemmas cover a whole mantissa and an unsigned exponent only, and a negative decimal with a point is covered by Json.MinusLiteral together with Json.UnsignedPoint rather than by one lemma of its own.
- DetailPage.ConfirmCheck: an age stored as the text "Infinity" or as a hexadecimal literal is `NaN` in the model and passes, where JavaScript would read a number from it; a number input does not produce such text.
- Numbers are exact rationals, not binary doubles. `toFixed` rounds the exact value, with ties away from zero, so double rounding and the exponential form for values of 1e21 and more are not modelled.
- `String(x)` of a non-integral number is written with the fewest fraction digits that make it exact, up to 20. Exponent notation and the shortest round-trip digits of doubles are not modelled.
- Timestamps (`new Date().toISOString()`, `toLocaleString`) are not modelled. The confirm handler takes its timestamp as an opaque string parameter.
- Rendering, MUI, axios, `navigate`, `alert` and `console` are not modelled. Each request's outcome is a parameter, such as `putSucceeds` for the confirm's update, and each alert is the message of an outcome variant.
- The detail page's fetch appears only through its result (the constructor's `fetched`). The two-step state update of the confirm handler is applied as one step.
- `handleSubmit`/`handleAdd` of the intake form, the form's copy of `location.state`, and the search page's fetch are request plumbing and are not modelled.
- `Navbar.jsx`, `App.jsx`, the archive components and the Cypress test are not modelled. They are rendering, routing and an end-to-end check.
- Character classes cover ASCII only, plus the whitespace set of `\s` and `trim`. Unicode case mapping and UTF-16 code units are not modelled.
- The key order of a record (a map) is not modelled. Edit mode is a list because the order of its keys shows in the blocking message.
- InterventionPage.KeyRoundTrip: stated with an added requirement that the title holds no "-". A "-" comes back as a space, so the round trip fails for "Well-being" (`InterventionPage.HyphenDoesNotRoundTrip`).
