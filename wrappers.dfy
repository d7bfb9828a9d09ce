/** Optional values and fallible results, usable with `:-`. */
module Wrappers {

  datatype Option<+T> = None | Some(value: T) {
    predicate IsFailure() { None? }

    function PropagateFailure<U>(): Option<U>
      requires None?
    {
      None
    }

    function Extract(): T
      requires Some?
    {
      value
    }
  }

  datatype Result<+T, +E> = Ok(value: T) | Err(error: E) {
    predicate IsFailure() { Err? }

    function PropagateFailure<U>(): Result<U, E>
      requires Err?
    {
      Err(error)
    }

    function Extract(): T
      requires Ok?
    {
      value
    }
  }

  /**
    Every result in order, or the failure of the first one that failed: what
    a lazy Rust iterator produces when each step may panic and the panic
    aborts the rest.
   */
  function AllOk<T, E(==)>(rs: seq<Result<T, E>>): (r: Result<seq<T>, E>)
    ensures r.Ok? <==> forall i :: 0 <= i < |rs| ==> rs[i].Ok?
    ensures r.Ok? ==> |r.value| == |rs| && forall i :: 0 <= i < |rs| ==> rs[i] == Ok(r.value[i])
    ensures r.Err? ==> exists i :: FirstErr(rs, i) && rs[i] == Err(r.error)
  {
    if |rs| == 0 then
      Ok([])
    else
      var n := |rs| - 1;
      var prev := AllOk(rs[..n]);
      assert forall i :: 0 <= i < n ==> rs[..n][i] == rs[i];
      if prev.Err? then
        var i :| FirstErr(rs[..n], i) && rs[..n][i].error == prev.error;
        assert FirstErr(rs, i);
        Err(prev.error)
      else if rs[n].Err? then
        assert FirstErr(rs, n);
        Err(rs[n].error)
      else
        Ok(prev.value + [rs[n].value])
  }

  /** `rs[i]` is the first failure in `rs`. */
  predicate FirstErr<T, E>(rs: seq<Result<T, E>>, i: int) {
    0 <= i < |rs| && rs[i].Err? && forall j :: 0 <= j < i ==> rs[j].Ok?
  }
}
