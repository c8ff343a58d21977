/** The JSON-like values that cross the HTTP boundary: request bodies, error details, responses. */
module Json {

  /** Numbers are modelled as integers: every number the modelled code inspects is an id or a status. */
  datatype Value =
    | Null
    | Bool(b: bool)
    | Num(n: int)
    | Str(s: string)
    | Arr(items: seq<Value>)
    | Obj(members: Members)

  /** The members of a plain object, in property-creation order. */
  type Members = seq<(string, Value)>

  predicate HasKey(m: Members, key: string) {
    exists i :: 0 <= i < |m| && m[i].0 == key
  }

  /** `obj[key] = v`: overwrites the first member named `key`, or appends a new member. */
  function SetMember(m: Members, key: string, v: Value): (r: Members)
    ensures HasKey(r, key) && (key, v) in r
    ensures forall i :: 0 <= i < |m| && m[i].0 != key ==> i < |r| && r[i] == m[i]
    ensures |r| == if HasKey(m, key) then |m| else |m| + 1
    decreases |m|
  {
    if m == [] then
      var r := [(key, v)];
      assert r[0].0 == key;
      r
    else if m[0].0 == key then
      var r := [(key, v)] + m[1..];
      assert r[0].0 == key;
      r
    else
      var rest := SetMember(m[1..], key, v);
      assert forall i :: 1 <= i < |m| && m[i].0 == key ==> m[1..][i - 1].0 == key;
      var r := [m[0]] + rest;
      assert forall i :: 0 <= i < |rest| ==> r[i + 1] == rest[i];
      r
  }
}
