/** The JSON values the service hands to `jsonify`: Python dicts (kept in
    insertion order), lists, strings, integers and None. */
module JsonValue {
  import opened Wrappers

  datatype Json =
    | Null
    | Int(n: int)
    | Str(s: string)
    | Arr(items: seq<Json>)
    | Obj(members: seq<(string, Json)>)

  /** The keys of a dict, in insertion order; nothing else has keys. */
  function Keys(j: Json): (r: seq<string>)
    ensures j.Obj? ==> |r| == |j.members| && forall i :: 0 <= i < |r| ==> r[i] == j.members[i].0
  {
    if j.Obj? then KeysOf(j.members) else []
  }

  function KeysOf(members: seq<(string, Json)>): (r: seq<string>)
    ensures |r| == |members| && forall i :: 0 <= i < |r| ==> r[i] == members[i].0
  {
    if members == [] then [] else [members[0].0] + KeysOf(members[1..])
  }

  /** `d.get(key)` on a dict: the value stored under the first occurrence of the key. */
  function Get(j: Json, key: string): Option<Json> {
    if j.Obj? then Lookup(j.members, key) else None
  }

  function Lookup(members: seq<(string, Json)>, key: string): Option<Json> {
    if members == [] then None
    else if members[0].0 == key then Some(members[0].1)
    else Lookup(members[1..], key)
  }

  /** A key that no earlier member repeats is found with its own value. */
  lemma {:induction false} LookupAt(members: seq<(string, Json)>, i: nat)
    requires i < |members|
    requires forall k :: 0 <= k < i ==> members[k].0 != members[i].0
    ensures Lookup(members, members[i].0) == Some(members[i].1)
  {
    if i > 0 {
      LookupAt(members[1..], i - 1);
    }
  }

  /** How a Python `str` or `None` is written. */
  function OfOptional(o: Option<string>): Json {
    match o
    case None => Null
    case Some(s) => Str(s)
  }

  /** The inverse of OfOptional, on the values it produces. */
  function AsOptional(j: Json): Option<Option<string>> {
    match j
    case Null => Some(None)
    case Str(s) => Some(Some(s))
    case _ => None
  }
}
