/** The lookup shared by the three enumerations: a for-each over `values()`
    that returns the first constant whose key equals the given string, and
    fails when none does (Java's `key.equals(code)` is false for a null code). */
module Enums {
  import opened Wrappers

  function FirstMatch<T>(values: seq<T>, key: T -> string, code: Option<string>): (r: Option<T>)
    ensures r.Some? ==> r.value in values && code == Some(key(r.value))
    ensures r.None? <==> forall i :: 0 <= i < |values| ==> code != Some(key(values[i]))
    ensures r.Some? ==> exists i :: 0 <= i < |values| && values[i] == r.value
                          && forall j :: 0 <= j < i ==> code != Some(key(values[j]))
  {
    if |values| == 0 then None
    else if code == Some(key(values[0])) then Some(values[0])
    else
      var r := FirstMatch(values[1..], key, code);
      assert r.Some? ==> exists i :: 0 <= i < |values| && values[i] == r.value
                           && forall j :: 0 <= j < i ==> code != Some(key(values[j])) by {
        if r.Some? {
          var i :| 0 <= i < |values| - 1 && values[1..][i] == r.value
                   && forall j :: 0 <= j < i ==> code != Some(key(values[1..][j]));
          assert values[i + 1] == r.value;
          assert forall j :: 0 <= j < i + 1 ==> code != Some(key(values[j])) by {
            forall j | 0 <= j < i + 1 ensures code != Some(key(values[j])) {
              if j > 0 { assert values[j] == values[1..][j - 1]; }
            }
          }
        }
      }
      assert r.None? ==> forall i :: 0 <= i < |values| ==> code != Some(key(values[i])) by {
        if r.None? {
          forall i | 0 <= i < |values| ensures code != Some(key(values[i])) {
            if i > 0 { assert values[i] == values[1..][i - 1]; }
          }
        }
      }
      r
  }

}
