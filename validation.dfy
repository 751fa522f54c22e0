/**
 * Request validation: a JSON body must be present and non-empty and must
 * carry every required key; otherwise the request is refused with 400 before
 * any session is touched.
 */
module Validation {
  import opened Wrappers

  /** A JSON object body, with its values taken as opaque strings. */
  type Json = map<string, string>

  /** The parsed JSON body of a request: `None` when it is null (or another falsy value). */
  type Body = Option<Json>

  const MissingBody: string := "Missing JSON body."

  function MissingField(key: string): string
  {
    "Missing required field: " + key
  }

  /** The first of `keys`, in order, that `data` lacks, if any. */
  function MissingKey(data: Json, keys: seq<string>): (r: Option<string>)
    ensures r.None? <==> forall k :: k in keys ==> k in data
    ensures r.Some? ==> r.value in keys && r.value !in data
  {
    if keys == [] then None
    else if keys[0] !in data then Some(keys[0])
    else MissingKey(data, keys[1..])
  }

  /** The key MissingKey reports is the first absent one: all keys before it are present. */
  lemma {:induction false} MissingKeyIsFirst(data: Json, keys: seq<string>)
    requires MissingKey(data, keys).Some?
    ensures exists i :: 0 <= i < |keys| && keys[i] == MissingKey(data, keys).value
                        && forall j :: 0 <= j < i ==> keys[j] in data
  {
    if keys[0] in data {
      MissingKeyIsFirst(data, keys[1..]);
      var i :| 0 <= i < |keys[1..]| && keys[1..][i] == MissingKey(data, keys[1..]).value
               && forall j :: 0 <= j < i ==> keys[1..][j] in data;
      assert keys[i + 1] == MissingKey(data, keys).value;
      assert forall j :: 0 <= j < i + 1 ==> keys[j] in data by {
        forall j | 0 <= j < i + 1 ensures keys[j] in data {
          if j > 0 { assert keys[j] == keys[1..][j - 1]; }
        }
      }
    } else {
      assert keys[0] == MissingKey(data, keys).value;
    }
  }

  /**
   * What validation decides for a body: refuse a missing or empty body, refuse
   * a body without one of the required keys (naming it), accept the rest.
   */
  function Validated(body: Body, required: seq<string>): (r: Result<Json>)
    ensures r.Success? <==> body.Some? && body.value != map[] && forall k :: k in required ==> k in body.value
    ensures r.Success? ==> r.value == body.value
    ensures (body.None? || body.value == map[]) ==> r == Failure(MissingBody)
    ensures r.Failure? && body.Some? && body.value != map[] ==>
              exists k :: k in required && k !in body.value && r.error == MissingField(k)
  {
    if body.None? || body.value == map[] then Failure(MissingBody)
    else match MissingKey(body.value, required)
      case Some(k) => Failure(MissingField(k))
      case None => Success(body.value)
  }

  /** Checks the required keys one after another, stopping at the first one absent. */
  method ValidateJson(body: Body, required: seq<string>) returns (r: Result<Json>)
    ensures r == Validated(body, required)
  {
    if body.None? || body.value == map[] {
      return Failure(MissingBody);
    }
    var data := body.value;
    var i := 0;
    while i < |required|
      invariant 0 <= i <= |required|
      invariant MissingKey(data, required) == MissingKey(data, required[i..])
    {
      assert required[i..][1..] == required[i + 1..];
      if required[i] !in data {
        return Failure(MissingField(required[i]));
      }
      i := i + 1;
    }
    return Success(data);
  }
}
