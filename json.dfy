/**
  The parsed JSON document the decoder works on. Reading the file and turning
  its text into this tree are outside the model; what the model decodes is the
  tree.
*/
module Json {

  datatype Value =
    | Null
    | Boolean(b: bool)
    | Number(n: real)
    | String(s: string)
    | Array(items: seq<Value>)
    | Object(members: seq<(string, Value)>)

  /** What a derived struct decoder finds when it looks for one of its fields. */
  datatype FieldLookup = Missing | Present(value: Value) | Duplicate

  /**
    Looks `key` up among an object's members. A field given twice is reported
    as a duplicate, which the derived decoders reject.
  */
  function Lookup(members: seq<(string, Value)>, key: string): (r: FieldLookup)
    ensures r.Missing? <==> forall i | 0 <= i < |members| :: members[i].0 != key
    ensures r.Present? ==> exists i :: 0 <= i < |members| && members[i] == (key, r.value)
    ensures r.Present? ==> forall i, j | 0 <= i < j < |members| :: !(members[i].0 == key && members[j].0 == key)
  {
    if members == [] then Missing
    else
      var rest := Lookup(members[1..], key);
      if members[0].0 == key then
        (if rest.Missing? then Present(members[0].1) else Duplicate)
      else if rest.Present? then
        assert exists i :: 1 <= i < |members| && members[i] == (key, rest.value) by {
          var i :| 0 <= i < |members[1..]| && members[1..][i] == (key, rest.value);
          assert members[i + 1] == (key, rest.value);
        }
        Present(rest.value)
      else rest
  }

  /** A key that occurs exactly once is found, with its value. */
  lemma {:induction false} LookupUnique(members: seq<(string, Value)>, key: string, i: nat)
    requires i < |members| && members[i].0 == key
    requires forall j | 0 <= j < |members| && j != i :: members[j].0 != key
    ensures Lookup(members, key) == Present(members[i].1)
  {
    if i > 0 {
      LookupUnique(members[1..], key, i - 1);
    }
  }
}
