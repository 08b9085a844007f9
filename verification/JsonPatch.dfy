/** JSON Patch (RFC 6902) for the two operations the controller emits, "add" and "remove",
    over documents of objects and strings. */
module JsonPatch {
  import opened GoStrings
  import opened JsonPointer

  datatype Json = Text(text: string) | Object(members: map<string, Json>)

  datatype Op = Add(path: string, value: Json) | Remove(path: string)

  /** Section 4.1: the parent must exist; an existing member is replaced. */
  function AddAt(doc: Json, at: seq<string>, value: Json): Option<Json>
    decreases |at|
  {
    if at == [] then Some(value)
    else if doc.Text? then None
    else if |at| == 1 then Some(Object(doc.members[at[0] := value]))
    else if at[0] !in doc.members then None
    else match AddAt(doc.members[at[0]], at[1..], value)
      case Some(child) => Some(Object(doc.members[at[0] := child]))
      case None => None
  }

  /** Section 4.2: the target itself must exist. */
  function RemoveAt(doc: Json, at: seq<string>): Option<Json>
    decreases |at|
  {
    if at == [] || doc.Text? || at[0] !in doc.members then None
    else if |at| == 1 then Some(Object(doc.members - {at[0]}))
    else match RemoveAt(doc.members[at[0]], at[1..])
      case Some(child) => Some(Object(doc.members[at[0] := child]))
      case None => None
  }

  function ApplyOp(doc: Json, op: Op): Option<Json> {
    match op
    case Add(path, value) =>
      (match ParsePointer(path)
       case Some(at) => AddAt(doc, at, value)
       case None => None)
    case Remove(path) =>
      (match ParsePointer(path)
       case Some(at) => RemoveAt(doc, at)
       case None => None)
  }

  /** Section 5: operations run in order, and one failure rejects the whole patch. */
  function Apply(doc: Json, ops: seq<Op>): Option<Json>
    decreases |ops|
  {
    if ops == [] then Some(doc)
    else match ApplyOp(doc, ops[0])
      case Some(next) => Apply(next, ops[1..])
      case None => None
  }

  lemma ApplyOne(doc: Json, op: Op)
    ensures Apply(doc, [op]) == ApplyOp(doc, op)
  {
    assert [op][1..] == [];
  }

  lemma {:induction false} ApplyConcat(doc: Json, first: seq<Op>, second: seq<Op>)
    ensures Apply(doc, first + second) ==
            match Apply(doc, first)
            case Some(next) => Apply(next, second)
            case None => None
    decreases |first|
  {
    if first == [] {
      assert first + second == second;
    } else {
      assert (first + second)[1..] == first[1..] + second;
      match ApplyOp(doc, first[0])
      case Some(next) => ApplyConcat(next, first[1..], second);
      case None =>
    }
  }
}
