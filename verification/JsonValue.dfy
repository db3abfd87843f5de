/** JSON values as both ends of the protocol see them: reading the fields of an
    object, and whether a value has a text. */
module JsonValue {
  import opened Common

  datatype Json =
    | Null
    | Bool(flag: bool)
    | Number(number: int)
    | String(text: string)
    | Array(items: seq<Json>)
    | Object(fields: Fields)

  type Fields = map<string, Json>

  function Get(fields: Fields, key: string): Option<Json> {
    if key in fields then Some(fields[key]) else None
  }

  function GetText(fields: Fields, key: string): Option<string> {
    if key in fields && fields[key].String? then Some(fields[key].text) else None
  }

  function GetBool(fields: Fields, key: string): Option<bool> {
    if key in fields && fields[key].Bool? then Some(fields[key].flag) else None
  }

  /** Whether turning a value into a text succeeds. An object of its own "toString"
      has no text, as no JSON value is a function; an array takes its items' texts,
      and the stack has room for `depth` arrays one inside another. */
  predicate HasText(value: Json, depth: nat)
    decreases value
  {
    match value
    case Array(items) => depth > 0 && forall i | 0 <= i < |items| :: HasText(items[i], depth - 1)
    case Object(fields) => "toString" !in fields
    case _ => true
  }

  /** `end` is reached from `value` by taking an item of an array, again and again. */
  ghost predicate Reaches(value: Json, path: seq<nat>, end: Json)
    decreases |path|
  {
    if path == [] then value == end
    else value.Array? && path[0] < |value.items| && Reaches(value.items[path[0]], path[1..], end)
  }

  /** So a value has a text exactly if among all it reaches there is no object with a
      "toString" of its own, and no array too deep for the stack. */
  lemma {:induction false} HasTextIff(value: Json, depth: nat)
    ensures HasText(value, depth) <==>
      forall path: seq<nat>, end | Reaches(value, path, end) ::
        && !(end.Object? && "toString" in end.fields)
        && (end.Array? ==> |path| < depth)
    decreases value
  {
    assert Reaches(value, [], value);
    if value.Array? && depth > 0 {
      forall i | 0 <= i < |value.items| { HasTextIff(value.items[i], depth - 1); }
      forall path: seq<nat>, end | Reaches(value, path, end) && path != [] && HasText(value, depth)
        ensures !(end.Object? && "toString" in end.fields) && (end.Array? ==> |path| < depth)
      {
        HasTextIff(value.items[path[0]], depth - 1);
        assert Reaches(value.items[path[0]], path[1..], end);
      }
      if i :| 0 <= i < |value.items| && !HasText(value.items[i], depth - 1) {
        HasTextIff(value.items[i], depth - 1);
        var path: seq<nat>, end :| Reaches(value.items[i], path, end)
          && ((end.Object? && "toString" in end.fields) || (end.Array? && |path| >= depth - 1));
        assert ([i] + path)[1..] == path;
        assert Reaches(value, [i] + path, end);
      }
    }
  }

  /** What is read of an object's field. */
  lemma GetsIff(fields: Fields, key: string, text: string, flag: bool)
    ensures Get(fields, key).Some? <==> key in fields
    ensures key in fields ==> Get(fields, key) == Some(fields[key])
    ensures GetText(fields, key) == Some(text) <==> key in fields && fields[key] == String(text)
    ensures GetBool(fields, key) == Some(flag) <==> key in fields && fields[key] == Bool(flag)
  {
  }
}
