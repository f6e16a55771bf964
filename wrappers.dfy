/** Failure-compatible wrappers shared by every module of the model. */
module Wrappers {

  /** A value that may be absent: Python's None, or a pandas NaN cell. */
  datatype Option<+T> = None | Some(value: T) {
    predicate IsFailure() { None? }

    function PropagateFailure<U>(): Option<U>
      requires None?
    {
      None
    }

    function Extract(): T
      requires Some?
    {
      value
    }

    /** The value, or a failure carrying the message the missing value raises. */
    function ToResult(error: string): (r: Result<T>)
      ensures r.Ok? <==> Some?
      ensures Some? ==> r == Ok(value)
    {
      match this
      case Some(v) => Ok(v)
      case None => Err(error)
    }

    function GetOr(default: T): T {
      match this
      case Some(v) => v
      case None => default
    }
  }

  /** The outcome of an operation that can raise: `Err` carries the exception's name. */
  datatype Result<+T> = Ok(value: T) | Err(error: string) {
    predicate IsFailure() { Err? }

    function PropagateFailure<U>(): Result<U>
      requires Err?
    {
      Err(error)
    }

    function Extract(): T
      requires Ok?
    {
      value
    }
  }

  /** The values of a sequence of outcomes computed in order, or the first failure among them,
      as a loop that raises at its first failing step reports it. */
  function AllOk<T>(rs: seq<Result<T>>): (r: Result<seq<T>>)
    ensures r.Ok? <==> forall i :: 0 <= i < |rs| ==> rs[i].Ok?
    ensures r.Ok? ==> |r.value| == |rs| && forall i :: 0 <= i < |rs| ==> rs[i] == Ok(r.value[i])
    ensures r.Err? ==> exists i :: 0 <= i < |rs| && rs[i] == Err(r.error) && forall j :: 0 <= j < i ==> rs[j].Ok?
  {
    if |rs| == 0 then Ok([])
    else
      var n := |rs| - 1;
      assert forall i :: 0 <= i < n ==> rs[..n][i] == rs[i];
      match AllOk(rs[..n])
      case Err(e) => Err(e)
      case Ok(vs) =>
        match rs[n]
        case Err(e) => Err(e)
        case Ok(v) => Ok(vs + [v])
  }

  /** One more outcome after a prefix that succeeded: its value is appended, or its
      failure is the result. */
  lemma AllOkSnoc<T>(rs: seq<Result<T>>, k: nat)
    requires k < |rs| && AllOk(rs[..k]).Ok?
    ensures rs[k].Ok? ==> AllOk(rs[..k + 1]) == Ok(AllOk(rs[..k]).value + [rs[k].value])
    ensures rs[k].Err? ==> AllOk(rs[..k + 1]) == Err(rs[k].error)
  {
    assert rs[..k + 1][..k] == rs[..k];
  }

  /** A failure in a prefix is the failure of the whole sequence. */
  lemma {:induction false} AllOkErrPersists<T>(rs: seq<Result<T>>, k: nat)
    requires k <= |rs| && AllOk(rs[..k]).Err?
    ensures AllOk(rs) == AllOk(rs[..k])
    decreases |rs| - k
  {
    if k < |rs| {
      assert rs[..k + 1][..k] == rs[..k];
      AllOkErrPersists(rs, k + 1);
    } else {
      assert rs[..k] == rs;
    }
  }
}
