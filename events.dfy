/** The change handler shared by the intake form and the detail page: a
    checkbox stores the string "true" or "false", any other input stores
    its raw value under the input's name. */
module Events {
  import opened Json

  /** The parts of `e.target` the handler reads. */
  datatype ChangeEvent = ChangeEvent(name: string, value: Json, isCheckbox: bool, checked: bool)

  /** `{ ...user, [name]: type === "checkbox" ? (checked ? "true" : "false") : value }`. */
  function ApplyChange(user: Record, e: ChangeEvent): (r: Record)
    ensures r.Keys == user.Keys + {e.name}
    ensures e.isCheckbox ==> (r[e.name] == JStr("true") <==> e.checked)
    ensures e.isCheckbox ==> (r[e.name] == JStr("true") || r[e.name] == JStr("false"))
    ensures !e.isCheckbox ==> r[e.name] == e.value
    ensures forall k :: k in user && k != e.name ==> r[k] == user[k]
  {
    user[e.name := if e.isCheckbox then JStr(if e.checked then "true" else "false") else e.value]
  }

  /** A checkbox change never stores a native boolean: what it stores
      depends only on `checked`, whatever `value` the checkbox carries. */
  lemma CheckboxIgnoresValue(user: Record, e: ChangeEvent, other: Json)
    requires e.isCheckbox
    ensures ApplyChange(user, e) == ApplyChange(user, e.(value := other))
    ensures !ApplyChange(user, e)[e.name].JBool?
  {
  }
}
