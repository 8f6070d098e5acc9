/** Optional values and JavaScript completions (a value, or a thrown exception). */
module Outcomes {

  datatype Option<+T> = None | Some(value: T)

  /** The kinds of exception the modelled code can throw. */
  datatype JsError =
    | TypeError             // property read on null/undefined, method missing on a non-string
    | SyntaxError           // JSON.parse of malformed text
    | RangeError            // toISOString of an invalid or out-of-range date
    | Error(message: string) // `throw new Error(message)` in the source

  /** The completion of a JavaScript call: it returned a value or it threw. */
  datatype Result<+T> = Ok(value: T) | Err(error: JsError)

  /**
   * `xs.map(f)` with a callback that may throw: every result in order, or the
   * exception of the first element whose call throws. `k` is the position of
   * `xs[0]` in the array being mapped.
   */
  function MapThrowing<A, B>(xs: seq<A>, k: nat, f: (A, nat) -> Result<B>): (r: Result<seq<B>>)
    ensures r.Ok? <==> forall i :: 0 <= i < |xs| ==> f(xs[i], k + i).Ok?
    ensures r.Ok? ==> |r.value| == |xs| && forall i :: 0 <= i < |xs| ==> r.value[i] == f(xs[i], k + i).value
    ensures r.Err? ==> exists i :: 0 <= i < |xs| && f(xs[i], k + i) == Err(r.error)
                                   && forall j :: 0 <= j < i ==> f(xs[j], k + j).Ok?
    decreases |xs|
  {
    if xs == [] then Ok([])
    else
      match f(xs[0], k)
      case Err(e) =>
        assert f(xs[0], k + 0) == Err(e);
        Err(e)
      case Ok(y) =>
        var tail := xs[1..];
        var rest := MapThrowing(tail, k + 1, f);
        assert forall i :: 1 <= i < |xs| ==> tail[i - 1] == xs[i];
        match rest
        case Err(e) =>
          var i :| 0 <= i < |tail| && f(tail[i], k + 1 + i) == Err(e)
                   && forall j :: 0 <= j < i ==> f(tail[j], k + 1 + j).Ok?;
          assert f(xs[i + 1], k + (i + 1)) == Err(e);
          assert forall j :: 0 <= j < i + 1 ==> f(xs[j], k + j).Ok? by {
            forall j | 0 <= j < i + 1
              ensures f(xs[j], k + j).Ok?
            {
              if j > 0 {
                assert f(tail[j - 1], k + 1 + (j - 1)).Ok?;
              }
            }
          }
          Err(e)
        case Ok(ys) =>
          var r := [y] + ys;
          assert forall i :: 0 <= i < |xs| ==> r[i] == f(xs[i], k + i).value && f(xs[i], k + i).Ok? by {
            forall i | 0 <= i < |xs|
              ensures r[i] == f(xs[i], k + i).value && f(xs[i], k + i).Ok?
            {
              if i > 0 {
                assert r[i] == ys[i - 1] == f(tail[i - 1], k + 1 + (i - 1)).value;
                assert f(tail[i - 1], k + 1 + (i - 1)).Ok?;
              }
            }
          }
          Ok(r)
  }

}
