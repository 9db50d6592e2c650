/**
 * The JSON trees the services build with Jackson's ObjectNode and ArrayNode.
 * An object keeps its fields in insertion order; `put` on a key already there
 * replaces the value in place, as Jackson's ObjectNode does.
 */
module Json {
  import opened Wrappers

  datatype Json =
    | JNull
    | JBool(b: bool)
    | JInt(i: int)
    | JNum(r: real)
    | JStr(s: string)
    | JArr(items: seq<Json>)
    | JObj(fields: seq<Field>)

  datatype Field = Field(key: string, value: Json)

  predicate HasKey(fields: seq<Field>, k: string) {
    exists i :: 0 <= i < |fields| && fields[i].key == k
  }

  /** `ObjectNode.get(k)`: the value stored under `k`, or `None` (Java `null`). */
  function Lookup(fields: seq<Field>, k: string): (r: Option<Json>)
    ensures r.Some? <==> HasKey(fields, k)
  {
    if |fields| == 0 then None
    else if fields[0].key == k then Some(fields[0].value)
    else
      assert HasKey(fields, k) ==> HasKey(fields[1..], k) by {
        if HasKey(fields, k) {
          var i :| 0 <= i < |fields| && fields[i].key == k;
          assert fields[1..][i - 1].key == k;
        }
      }
      Lookup(fields[1..], k)
  }

  /** Looking up in a non-empty object: the first field, else the rest. */
  lemma LookupCons(f: Field, rest: seq<Field>, k: string)
    ensures Lookup([f] + rest, k) == if f.key == k then Some(f.value) else Lookup(rest, k)
  {
    assert ([f] + rest)[0] == f;
    assert ([f] + rest)[1..] == rest;
  }

  /** `ObjectNode.put(k, v)`. */
  function Put(fields: seq<Field>, k: string, v: Json): (r: seq<Field>)
    ensures Lookup(r, k) == Some(v)
    ensures forall k' :: k' != k ==> Lookup(r, k') == Lookup(fields, k')
    ensures !HasKey(fields, k) ==> r == fields + [Field(k, v)]
  {
    if |fields| == 0 then
      LookupCons(Field(k, v), [], k);
      [Field(k, v)]
    else
      var head := fields[0];
      var rest := fields[1..];
      assert fields == [head] + rest;
      if head.key == k then
        var r := [Field(k, v)] + rest;
        forall k' ensures Lookup(r, k') == if k' == k then Some(v) else Lookup(fields, k') {
          LookupCons(Field(k, v), rest, k');
          LookupCons(head, rest, k');
        }
        r
      else
        var tail := Put(rest, k, v);
        var r := [head] + tail;
        forall k' ensures Lookup(r, k') == if k' == head.key then Some(head.value) else Lookup(tail, k') {
          LookupCons(head, tail, k');
        }
        forall k' ensures Lookup(fields, k') == if k' == head.key then Some(head.value) else Lookup(rest, k') {
          LookupCons(head, rest, k');
        }
        r
  }
}
