/**
 * The Python values the scripts handle: what `ast.literal_eval` and
 * `json.loads` return, and what the program stores in its fields.
 * A dict is kept as its sequence of (key, value) entries, in insertion order.
 */
module PyValue {
  import opened Wrappers
  import opened Text

  datatype Value =
    | VNone
    | VBool(b: bool)
    | VInt(i: int)
    | VStr(s: string)
    | VList(items: seq<Value>)
    | VTuple(elems: seq<Value>)
    | VSet(members: seq<Value>)
    | VDict(entries: seq<(Value, Value)>)

  const EmptyDict: Value := VDict([])
  const EmptyList: Value := VList([])

  /** Python's truth value of `v` (`bool(v)`). */
  predicate Truthy(v: Value) {
    match v
    case VNone => false
    case VBool(b) => b
    case VInt(i) => i != 0
    case VStr(s) => s != []
    case VList(items) => items != []
    case VTuple(elems) => elems != []
    case VSet(members) => members != []
    case VDict(entries) => entries != []
  }

  /** The truth value of an optional text argument: given and not empty. */
  predicate TruthyText(s: Option<string>) {
    s.Some? && s.value != []
  }

  /** Looking `key` up among dict entries; the first entry with that key wins. */
  function Lookup(entries: seq<(Value, Value)>, key: Value): (r: Option<Value>)
    ensures r.None? <==> forall i :: 0 <= i < |entries| ==> entries[i].0 != key
    ensures r.Some? ==>
      exists i :: 0 <= i < |entries| && entries[i] == (key, r.value)
        && forall j :: 0 <= j < i ==> entries[j].0 != key
  {
    if entries == [] then None
    else if entries[0].0 == key then Some(entries[0].1)
    else
      var r := Lookup(entries[1..], key);
      assert forall i :: 1 <= i < |entries| ==> entries[i] == entries[1..][i - 1];
      r
  }

  /**
   * Python's `v.get(key, default)`: `None` when `v` is not a dict, which in
   * Python raises AttributeError.
   */
  function Get(v: Value, key: string, default: Value): (r: Option<Value>)
    ensures r.Some? <==> v.VDict?
  {
    match v
    case VDict(entries) => Some(Lookup(entries, VStr(key)).GetOr(default))
    case _ => None
  }

  /** On a dict, `.get` gives the value of the first entry with the key, or the default when there is none. */
  lemma GetSpec(v: Value, key: string, default: Value)
    requires v.VDict?
    ensures (forall i :: 0 <= i < |v.entries| ==> v.entries[i].0 != VStr(key)) ==> Get(v, key, default) == Some(default)
    ensures (exists i :: 0 <= i < |v.entries| && v.entries[i].0 == VStr(key)) ==>
      exists i :: 0 <= i < |v.entries| && v.entries[i] == (VStr(key), Get(v, key, default).value)
        && forall j :: 0 <= j < i ==> v.entries[j].0 != VStr(key)
  {
  }

  /** Python's `len(v)`: `None` when `v` has no length (TypeError). */
  function Len(v: Value): Option<nat> {
    match v
    case VStr(s) => Some(|s|)
    case VList(items) => Some(|items|)
    case VTuple(elems) => Some(|elems|)
    case VSet(members) => Some(|members|)
    case VDict(entries) => Some(|entries|)
    case _ => None
  }

  /**
   * What `for item in v` visits: the items of a list, tuple or set, the
   * one-character strings of a string, the keys of a dict; `None` when `v`
   * is not iterable (TypeError).
   */
  function Iterate(v: Value): (r: Option<seq<Value>>)
    ensures r.Some? <==> Len(v).Some?
    ensures r.Some? ==> |r.value| == Len(v).value
    ensures v.VList? ==> r == Some(v.items)
    ensures v.VTuple? ==> r == Some(v.elems)
    ensures v.VSet? ==> r == Some(v.members)
    ensures v.VStr? ==> forall i :: 0 <= i < |v.s| ==> r.value[i] == VStr([v.s[i]])
    ensures v.VDict? ==> forall i :: 0 <= i < |v.entries| ==> r.value[i] == v.entries[i].0
  {
    match v
    case VStr(s) => Some(seq(|s|, i requires 0 <= i < |s| => VStr([s[i]])))
    case VList(items) => Some(items)
    case VTuple(elems) => Some(elems)
    case VSet(members) => Some(members)
    case VDict(entries) => Some(seq(|entries|, i requires 0 <= i < |entries| => entries[i].0))
    case _ => None
  }

  /**
   * Python's `str(v)` as an f-string renders it. Strings, integers, booleans
   * and None are rendered here; the text of a container is Python's `repr`,
   * which the model takes from `display`.
   */
  function Str(v: Value, display: Value -> string): (r: string)
    ensures v.VStr? ==> r == v.s
    ensures v.VInt? && v.i >= 0 ==> Canonical(r) && DigitsValue(r) == v.i
    ensures v.VInt? && v.i < 0 ==> r != [] && r[0] == '-' && Canonical(r[1..]) && DigitsValue(r[1..]) == -v.i
  {
    match v
    case VStr(s) => s
    case VInt(i) =>
      NatToStringSpec(if i < 0 then -i else i);
      IntToString(i)
    case VBool(b) => if b then "True" else "False"
    case VNone => "None"
    case _ => display(v)
  }
}
