/**
 How a step of the pipeline ends when it does not produce a value: the
 scripts either call `sys.exit(code)` after printing a message, or let a
 Python exception escape.
 */
module Outcomes {

  /** The Python exceptions the modelled code can let escape. */
  datatype PyError =
    | KeyError      // dict or column lookup of a missing key
    | IndexError    // list/array index out of range
    | ValueError    // `int()` of a malformed string, `list.index` of a missing item, `curve_fit` of no data
    | TypeError     // `int(None)`, `curve_fit` with fewer points than parameters

  /** Why a computation stopped. */
  datatype Halt =
    | Exit(code: int)        // `sys.exit(code)`
    | Raise(error: PyError)  // an uncaught exception

  datatype Result<+T> = Ok(value: T) | Halted(halt: Halt) {
    predicate IsFailure() { Halted? }

    function PropagateFailure<U>(): Result<U>
      requires Halted?
    {
      Halted(halt)
    }

    function Extract(): T
      requires Ok?
    {
      value
    }
  }

  /** A loop over steps that each produce a value or halt: the first step
      that halts, in order, halts the loop; otherwise the loop yields every
      value. */
  function Collect<T>(steps: seq<Result<T>>): (r: Result<seq<T>>)
    ensures r.Ok? <==> forall i :: 0 <= i < |steps| ==> steps[i].Ok?
    ensures r.Ok? ==> |r.value| == |steps| && forall i :: 0 <= i < |steps| ==> r.value[i] == steps[i].value
    ensures r.Halted? ==>
      exists j :: 0 <= j < |steps| && steps[j] == Halted(r.halt) && forall i :: 0 <= i < j ==> steps[i].Ok?
  {
    if |steps| == 0 then Ok([])
    else if steps[0].Halted? then Halted(steps[0].halt)
    else
      var rest := Collect(steps[1..]);
      assert forall i :: 1 <= i < |steps| ==> steps[i] == steps[1..][i - 1];
      if rest.Halted? then
        var j :|
          0 <= j < |steps[1..]| && steps[1..][j] == Halted(rest.halt) && forall i :: 0 <= i < j ==> steps[1..][i].Ok?;
        assert steps[j + 1] == Halted(rest.halt);
        Halted(rest.halt)
      else Ok([steps[0].value] + rest.value)
  }

  /** Python's optional value: `None` or a string. */
  datatype Option<+T> = None | Some(value: T)

  /** Python truthiness of an optional string: `None` and `''` are falsy. */
  predicate Truthy(v: Option<string>) {
    v.Some? && v.value != ""
  }
}
