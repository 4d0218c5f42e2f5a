/** JavaScript value conventions the service code leans on: `undefined`, the
    `a || b || "default"` fallback chain on strings, `process.env` lookups, and
    the completion of a call (it either returns a value or throws an `Error`). */
module JsValues {

  /** An optional value: `None` stands for `undefined` (or `null`). */
  datatype Option<+T> = None | Some(value: T) {

    function GetOr(default: T): T {
      match this
      case Some(v) => v
      case None => default
    }
  }

  /** The completion of a JavaScript call: a returned value, or a thrown
      `Error` carrying its `message`. Failure-compatible, so `:-` propagates a
      throw the way an un-caught exception leaves an `async` function. */
  datatype Completion<+T> = Normal(value: T) | Abrupt(message: string) {

    predicate IsFailure() {
      Abrupt?
    }

    function PropagateFailure<U>(): Completion<U>
      requires Abrupt?
    {
      Abrupt(message)
    }

    function Extract(): T
      requires Normal?
    {
      value
    }
  }

  /** A string-or-undefined in a boolean context: `undefined` and "" are falsy. */
  predicate Truthy(v: Option<string>) {
    v.Some? && v.value != ""
  }

  /** `c0 || c1 || ... ` over strings-or-undefined, read as "the first truthy
      operand, if any". */
  function FirstTruthy(candidates: seq<Option<string>>): (r: Option<string>)
    ensures r.Some? <==> exists i :: 0 <= i < |candidates| && Truthy(candidates[i])
    ensures r.Some? ==> Truthy(r)
    ensures r.Some? ==>
              exists i :: 0 <= i < |candidates| && candidates[i] == r
                          && forall j :: 0 <= j < i ==> !Truthy(candidates[j])
  {
    if |candidates| == 0 then None
    else if Truthy(candidates[0]) then candidates[0]
    else
      var rest := FirstTruthy(candidates[1..]);
      assert forall i :: 1 <= i < |candidates| ==> candidates[i] == candidates[1..][i - 1];
      rest
  }

  /** `c0 || c1 || ... || fallback`: the first truthy operand, else the fallback. */
  function OrElse(candidates: seq<Option<string>>, fallback: string): (r: string)
    ensures (forall i :: 0 <= i < |candidates| ==> !Truthy(candidates[i])) ==> r == fallback
    ensures |candidates| > 0 && Truthy(candidates[0]) ==> r == candidates[0].value
    ensures forall i ::
              (0 <= i < |candidates| && Truthy(candidates[i]) && forall j :: 0 <= j < i ==> !Truthy(candidates[j]))
              ==> r == candidates[i].value
  {
    FirstTruthy(candidates).GetOr(fallback)
  }

  /** The process environment, as seen through `process.env`. */
  type Env = map<string, string>

  /** `process.env.NAME`: undefined when the variable is not set. */
  function EnvGet(env: Env, name: string): (r: Option<string>)
    ensures r.Some? <==> name in env
  {
    if name in env then Some(env[name]) else None
  }
}
