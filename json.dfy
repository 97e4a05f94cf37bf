/**
 * The values `json.loads` produces, Python truthiness on them, `dict.get`
 * with a default, `", ".join(...)` over them and the f-string rendering of a
 * value.  Parsing itself stays outside the model: every operation that calls
 * `json.loads` takes it as a parameter `loads: string -> Option<Json>`, where
 * `None` stands for a raised `JSONDecodeError`.
 */
module Json {
  import opened Wrappers
  import Text
  import Seqs

  /** A decoded JSON document; an object keeps its members in document order. */
  datatype Json =
    | JNull
    | JBool(b: bool)
    | JNum(n: real)
    | JStr(s: string)
    | JArr(items: seq<Json>)
    | JObj(members: seq<(string, Json)>)

  /** Python's `bool(v)` for a decoded value: `None`, `False`, `0`, `""`, `[]` and `{}` are false. */
  predicate Truthy(v: Json) {
    match v
    case JNull => false
    case JBool(b) => b
    case JNum(n) => n != 0.0
    case JStr(s) => s != ""
    case JArr(items) => items != []
    case JObj(members) => members != []
  }

  /** The keys of an object's members, as written (duplicates included). */
  function MemberKeys(members: seq<(string, Json)>): (ks: seq<string>)
    ensures |ks| == |members|
    ensures forall k :: 0 <= k < |members| ==> ks[k] == members[k].0
  {
    if members == [] then [] else [members[0].0] + MemberKeys(members[1..])
  }

  /** The value `json.loads` keeps for `key`: the last member that carries it. */
  function Lookup(members: seq<(string, Json)>, key: string): (r: Option<Json>)
    ensures r.None? <==> key !in MemberKeys(members)
    ensures r.Some? ==> exists k :: 0 <= k < |members| && members[k] == (key, r.value)
  {
    if members == [] then None
    else
      var last := members[|members| - 1];
      var init := members[..|members| - 1];
      assert MemberKeys(members) == MemberKeys(init) + [last.0] by {
        assert forall k :: 0 <= k < |init| ==> MemberKeys(init)[k] == members[k].0;
      }
      if last.0 == key then Some(last.1)
      else
        var r := Lookup(init, key);
        if r.Some? then
          var k :| 0 <= k < |init| && init[k] == (key, r.value);
          assert members[k] == (key, r.value);
          r
        else r
  }

  /**
   * `v.get(key, default)`: raises `AttributeError` when `v` is not a dict
   * (the LLM may answer with a list, a string or a number).
   */
  function Get(v: Json, key: string, default: Json): (r: Result<Json>)
    ensures r.Err? <==> !v.JObj?
    ensures v.JObj? && key !in MemberKeys(v.members) ==> r == Ok(default)
  {
    match v
    case JObj(members) => Ok(Lookup(members, key).GetOr(default))
    case _ => Err("AttributeError: object has no attribute 'get'")
  }

  /** The strings a list of decoded values holds, when every item is a string. */
  function Strings(items: seq<Json>): (r: Option<seq<string>>)
    ensures r.Some? <==> forall k :: 0 <= k < |items| ==> items[k].JStr?
    ensures r.Some? ==> |r.value| == |items|
    ensures r.Some? ==> forall k :: 0 <= k < |items| ==> r.value[k] == items[k].s
  {
    if items == [] then Some([])
    else match (items[0], Strings(items[1..]))
      case (JStr(s), Some(rest)) => Some([s] + rest)
      case _ => None
  }

  /** The one-character strings of `s`, as Python iterates over a string. */
  function Chars(s: string): (r: seq<string>)
    ensures |r| == |s| && forall k :: 0 <= k < |s| ==> r[k] == [s[k]]
  {
    if s == [] then [] else [[s[0]]] + Chars(s[1..])
  }

  /**
   * `", ".join(v)`: a list of strings is joined, a string is joined character
   * by character, a dict by its distinct keys in first-seen order; anything
   * else raises `TypeError`.
   */
  function JoinValue(v: Json): (r: Result<string>)
    ensures v.JArr? ==> (r.Ok? <==> Strings(v.items).Some?)
    ensures v.JArr? && Strings(v.items).Some? ==> r == Ok(Text.Join(", ", Strings(v.items).value))
    ensures v.JNull? || v.JBool? || v.JNum? ==> r.Err?
  {
    match v
    case JArr(items) =>
      (match Strings(items)
       case Some(ss) => Ok(Text.Join(", ", ss))
       case None => Err("TypeError: sequence item: expected str instance"))
    case JStr(s) => Ok(Text.Join(", ", Chars(s)))
    case JObj(members) => Ok(Text.Join(", ", Seqs.Dedup(MemberKeys(members))))
    case _ => Err("TypeError: can only join an iterable")
  }

  /**
   * The text an f-string gives for a value: a string is inserted as is; how
   * Python prints other values (`repr` of floats, lists, dicts) is a parameter.
   */
  function Show(v: Json, render: Json -> string): (r: string)
    ensures v.JStr? ==> r == v.s
  {
    if v.JStr? then v.s else render(v)
  }

  /** `", ".join(profile.get(key, []))` for a decoded profile. */
  function JoinedField(profile: Json, key: string): (r: Result<string>)
    ensures !profile.JObj? ==> r.Err?
    ensures profile.JObj? && key !in MemberKeys(profile.members) ==> r == Ok("")
  {
    match Get(profile, key, JArr([]))
    case Ok(v) => JoinValue(v)
    case Err(e) => Err(e)
  }

  /** `f"{profile.get(key, default)}"` for a decoded profile. */
  function ShownField(profile: Json, key: string, default: string, render: Json -> string): (r: Result<string>)
    ensures !profile.JObj? ==> r.Err?
    ensures profile.JObj? && key !in MemberKeys(profile.members) ==> r == Ok(default)
  {
    match Get(profile, key, JStr(default))
    case Ok(v) => Ok(Show(v, render))
    case Err(e) => Err(e)
  }
}
