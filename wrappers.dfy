/**
 * Optional values and results of operations that can raise one of the
 * Python exceptions the modelled code raises.
 */
module Wrappers {

  datatype Option<T> = None | Some(value: T)
  {
    function GetOr(default: T): T
    {
      match this
      case None => default
      case Some(v) => v
    }
  }

  /** The exception classes the modelled code raises or lets escape. */
  datatype Exception =
    | ValueError(message: string)
    | KeyError(key: string)
    | TypeError(message: string)
    | AttributeError(message: string)
    | NotImplementedError(message: string)
    | IndexError(message: string)
    | GitTagMissing(message: string)
    | IOError(message: string)

  /** Either a returned value or a raised exception. */
  datatype Result<T> = Ok(value: T) | Raise(error: Exception)
  {
    predicate IsOk() { Ok? }
  }

  /** The values of a list of results in order, or the first error among them. */
  function Collect<T>(rs: seq<Result<T>>): (r: Result<seq<T>>)
    ensures r.Ok? ==> |r.value| == |rs|
  {
    if rs == [] then Ok([])
    else
      match Collect(rs[..|rs| - 1])
      case Raise(e) => Raise(e)
      case Ok(init) =>
        match rs[|rs| - 1]
        case Raise(e) => Raise(e)
        case Ok(x) => Ok(init + [x])
  }

  /**
   * Collecting succeeds exactly when every result is a value, and then holds
   * the values in order; otherwise it raises the error of the first failure.
   */
  lemma {:induction false} CollectSpec<T>(rs: seq<Result<T>>)
    ensures Collect(rs).Ok? <==> forall i | 0 <= i < |rs| :: rs[i].Ok?
    ensures Collect(rs).Ok? ==> forall i | 0 <= i < |rs| :: Collect(rs).value[i] == rs[i].value
    ensures Collect(rs).Raise? ==>
      exists i | 0 <= i < |rs| :: rs[i] == Raise(Collect(rs).error) && forall j | 0 <= j < i :: rs[j].Ok?
  {
    if rs != [] {
      var n := |rs| - 1;
      var init := rs[..n];
      CollectSpec(init);
      assert forall i | 0 <= i < n :: init[i] == rs[i];
      if Collect(init).Raise? {
        var i :| 0 <= i < n && init[i] == Raise(Collect(init).error) && forall j | 0 <= j < i :: init[j].Ok?;
        assert rs[i] == Raise(Collect(rs).error);
      } else if rs[n].Raise? {
        assert rs[n] == Raise(Collect(rs).error);
      }
    }
  }

  /** Collecting one more value extends the collected prefix by it. */
  lemma CollectStep<T>(rs: seq<Result<T>>, k: nat, values: seq<T>)
    requires k < |rs| && Collect(rs[..k]) == Ok(values) && rs[k].Ok?
    ensures Collect(rs[..k + 1]) == Ok(values + [rs[k].value])
  {
    assert rs[..k + 1][..k] == rs[..k];
  }

  /** Once a prefix raises, the whole list raises the same error. */
  lemma {:induction false} CollectRaisePrefix<T>(rs: seq<Result<T>>, k: nat)
    requires k <= |rs| && Collect(rs[..k]).Raise?
    ensures Collect(rs) == Collect(rs[..k])
  {
    if k < |rs| {
      var n := |rs| - 1;
      assert rs[..n][..k] == rs[..k];
      CollectRaisePrefix(rs[..n], k);
    } else {
      assert rs[..k] == rs;
    }
  }

  /** One step of a loop collecting `rs` in order: an error ends it with that error, a value extends it. */
  lemma CollectAdvance<T>(rs: seq<Result<T>>, k: nat, values: seq<T>)
    requires k < |rs| && Collect(rs[..k]) == Ok(values)
    ensures rs[k].Raise? ==> Collect(rs) == Raise(rs[k].error)
    ensures rs[k].Ok? ==> Collect(rs[..k + 1]) == Ok(values + [rs[k].value])
  {
    assert rs[..k + 1][..k] == rs[..k];
    if rs[k].Raise? {
      CollectRaisePrefix(rs, k + 1);
    }
  }

  /** The values of a list of results concatenated in order, or the first error among them. */
  function CollectConcat<T>(rs: seq<Result<seq<T>>>): (r: Result<seq<T>>)
  {
    if rs == [] then Ok([])
    else
      match CollectConcat(rs[..|rs| - 1])
      case Raise(e) => Raise(e)
      case Ok(init) =>
        match rs[|rs| - 1]
        case Raise(e) => Raise(e)
        case Ok(x) => Ok(init + x)
  }

  /** Concatenating succeeds exactly when every result is a value. */
  lemma {:induction false} CollectConcatOk<T>(rs: seq<Result<seq<T>>>)
    ensures CollectConcat(rs).Ok? <==> forall i | 0 <= i < |rs| :: rs[i].Ok?
  {
    if rs != [] {
      var n := |rs| - 1;
      CollectConcatOk(rs[..n]);
      assert forall i | 0 <= i < n :: rs[..n][i] == rs[i];
    }
  }

  /** Results that each hold one value concatenate to those values. */
  lemma {:induction false} CollectConcatSingles<T>(rs: seq<Result<seq<T>>>, xs: seq<T>)
    requires |rs| == |xs| && forall i | 0 <= i < |rs| :: rs[i] == Ok([xs[i]])
    ensures CollectConcat(rs) == Ok(xs)
  {
    if rs != [] {
      var n := |rs| - 1;
      assert forall i | 0 <= i < n :: rs[..n][i] == rs[i];
      CollectConcatSingles(rs[..n], xs[..n]);
      assert xs[..n] + [xs[n]] == xs;
    }
  }

  /** Once a prefix raises, the whole list raises the same error. */
  lemma {:induction false} CollectConcatRaisePrefix<T>(rs: seq<Result<seq<T>>>, k: nat)
    requires k <= |rs| && CollectConcat(rs[..k]).Raise?
    ensures CollectConcat(rs) == CollectConcat(rs[..k])
  {
    if k < |rs| {
      var n := |rs| - 1;
      assert rs[..n][..k] == rs[..k];
      CollectConcatRaisePrefix(rs[..n], k);
    } else {
      assert rs[..k] == rs;
    }
  }

  /** One more result concatenated: a raise ends the whole concatenation, a value extends it. */
  lemma CollectConcatAdvance<T>(rs: seq<Result<seq<T>>>, k: nat, values: seq<T>)
    requires k < |rs| && CollectConcat(rs[..k]) == Ok(values)
    ensures rs[k].Raise? ==> CollectConcat(rs) == Raise(rs[k].error)
    ensures rs[k].Ok? ==> CollectConcat(rs[..k + 1]) == Ok(values + rs[k].value)
  {
    assert rs[..k + 1][..k] == rs[..k];
    if rs[k].Raise? {
      CollectConcatRaisePrefix(rs, k + 1);
    }
  }
}
