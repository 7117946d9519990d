/** The Python values the request handler meets in a search response, and the
    few built-in operations on them whose outcome the handler depends on. */
module PyValue {
  import opened Wrappers
  import Text

  /** A value as Python's json decoder gives it back: None, bool, int, str,
      list or dict; a dict keeps its entries in insertion order. A decoded
      dict never holds a key twice; the type does not enforce this, and on a
      value that breaks it the functions here see every entry. */
  datatype Json =
    | Null
    | Bool(b: bool)
    | Int(i: int)
    | Str(s: string)
    | List(items: seq<Json>)
    | Dict(entries: seq<(string, Json)>)

  /** A dict whose key order the handler never observes (one raw search result). */
  type Object = map<string, Json>

  /** An exception raised inside the handler's try block; `message` is `str(e)`. */
  datatype Exception =
    | TypeError(message: string)
    | AttributeError(message: string)
    | ClientError(message: string)

  /** `bool(v)`: None, False, 0, "", [] and {} are false. */
  predicate Truthy(v: Json)
  {
    match v
    case Null => false
    case Bool(b) => b
    case Int(i) => i != 0
    case Str(s) => s != ""
    case List(items) => items != []
    case Dict(entries) => entries != []
  }

  /** `type(v).__name__` */
  function TypeName(v: Json): string
  {
    match v
    case Null => "NoneType"
    case Bool(_) => "bool"
    case Int(_) => "int"
    case Str(_) => "str"
    case List(_) => "list"
    case Dict(_) => "dict"
  }

  /** `d.get(key, default)` */
  function Get(d: Object, key: string, default: Json): Json
  {
    if key in d then d[key] else default
  }

  /** `str(v)`: a string is its own string form; the form of any other value is
      Python's rendering, given by `show`. */
  function Render(v: Json, show: Json -> string): string
  {
    if v.Str? then v.s else show(v)
  }

  /** `[str(v) for v in items]` */
  function Rendered(items: seq<Json>, show: Json -> string): (r: seq<string>)
    ensures |r| == |items|
    ensures forall k :: 0 <= k < |items| ==> r[k] == Render(items[k], show)
  {
    if items == [] then [] else [Render(items[0], show)] + Rendered(items[1..], show)
  }

  /** The position of the first item that is not a str, or |items| if there is none. */
  function FirstNonStr(items: seq<Json>): (k: nat)
    ensures k <= |items|
    ensures forall j :: 0 <= j < k ==> items[j].Str?
    ensures k < |items| ==> !items[k].Str?
  {
    if items == [] || !items[0].Str? then 0 else 1 + FirstNonStr(items[1..])
  }

  /** The texts of a list of str values. */
  function Texts(items: seq<Json>): (r: seq<string>)
    requires forall k :: 0 <= k < |items| ==> items[k].Str?
    ensures |r| == |items|
    ensures forall k :: 0 <= k < |items| ==> r[k] == items[k].s
  {
    if items == [] then [] else [items[0].s] + Texts(items[1..])
  }

  /** The message of the TypeError `", ".join` raises on a non-str item. */
  function JoinTypeMessage(index: nat, found: Json): string
  {
    "sequence item " + Text.Decimal(index) + ": expected str instance, " + TypeName(found) + " found"
  }

  /** `", ".join(items)` on a list of values. */
  function JoinValues(items: seq<Json>): Result<string, Exception>
  {
    var k := FirstNonStr(items);
    if k == |items| then Success(Text.Join(Texts(items)))
    else Failure(TypeError(JoinTypeMessage(k, items[k])))
  }

  /** The join succeeds exactly when every item is a str, and then gives the
      join of their texts; otherwise it raises a TypeError naming the first
      item that is not a str. */
  lemma JoinValuesSpec(items: seq<Json>)
    ensures var r := JoinValues(items);
      && (r.Success? <==> forall k :: 0 <= k < |items| ==> items[k].Str?)
      && (r.Success? ==> r.value == Text.Join(Texts(items)))
      && (r.Failure? ==>
            exists k :: 0 <= k < |items| && !items[k].Str? && (forall j :: 0 <= j < k ==> items[j].Str?) &&
                        r.error == TypeError(JoinTypeMessage(k, items[k])))
  {
    var k := FirstNonStr(items);
    if k < |items| {
      assert !items[k].Str? && forall j :: 0 <= j < k ==> items[j].Str?;
    }
  }
}
