/** JSON-shaped values, as the plugin builds CloudFormation fragments and as the
    host keeps its compiled template, with lookup along a path of keys and
    array positions. */
module JsonValues {

  datatype Option<+T> = None | Some(value: T)

  /** A JSON value. JavaScript numbers are modelled as integers; `undefined`
      is the absence of a value (`Option.None`). */
  datatype Json =
    | JNull
    | JBool(b: bool)
    | JNum(n: int)
    | JStr(s: string)
    | JArr(items: seq<Json>)
    | JObj(fields: map<string, Json>)

  /** One step of a property path: an object key or an array position. */
  datatype Step = Key(name: string) | Index(pos: nat)

  function Get(m: map<string, Json>, k: string): Option<Json>
  {
    if k in m then Some(m[k]) else None
  }

  function At(s: seq<Json>, i: nat): Option<Json>
  {
    if i < |s| then Some(s[i]) else None
  }

  /** The member of `j` one step down, if `j` has it. */
  function Child(j: Json, step: Step): Option<Json>
  {
    match step
    case Key(k) => if j.JObj? then Get(j.fields, k) else None
    case Index(i) => if j.JArr? then At(j.items, i) else None
  }

  function ChildOf(j: Option<Json>, step: Step): Option<Json>
  {
    if j.None? then None else Child(j.value, step)
  }

  /** The value found by following `path` from `j` (JavaScript `j.a.b[0]`). */
  function Field(j: Json, path: seq<Step>): Option<Json>
    decreases |path|
  {
    if path == [] then Some(j)
    else
      match Child(j, path[0])
      case None => None
      case Some(c) => Field(c, path[1..])
  }

  function FieldOf(j: Option<Json>, path: seq<Step>): Option<Json>
  {
    if j.None? then None else Field(j.value, path)
  }

  /** `j.Properties[name]` of a CloudFormation resource. */
  function Prop(name: string): seq<Step>
  {
    [Key("Properties"), Key(name)]
  }

  /** Following a path one step at a time. */
  lemma FieldOfStep(j: Option<Json>, path: seq<Step>)
    requires path != []
    ensures FieldOf(j, path) == FieldOf(ChildOf(j, path[0]), path[1..])
  {
  }
}
