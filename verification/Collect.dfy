/** The shape that the event-processing loops share: go through the pages in order, append what each one yields,
    and give up with the first error. */
module Collect {
  import opened Proto

  function Collected<T>(results: seq<Result<seq<T>>>): Result<seq<T>> {
    if results == [] then Ok([])
    else
      match Collected(results[..|results| - 1])
      case Err(e) => Err(e)
      case Ok(before) =>
        match results[|results| - 1]
        case Err(e) => Err(e)
        case Ok(more) => Ok(before + more)
  }

  function Then<T>(a: Result<seq<T>>, b: Result<seq<T>>): Result<seq<T>> {
    match a
    case Err(e) => Err(e)
    case Ok(xs) =>
      match b
      case Err(e) => Err(e)
      case Ok(ys) => Ok(xs + ys)
  }

  lemma CollectedStep<T>(results: seq<Result<seq<T>>>, i: nat)
    requires i < |results|
    ensures Collected(results[..i + 1]) == Then(Collected(results[..i]), results[i])
  {
    assert results[..i + 1][..i] == results[..i];
  }

  lemma {:induction false} CollectedConcat<T>(p: seq<Result<seq<T>>>, q: seq<Result<seq<T>>>)
    ensures Collected(p + q) == Then(Collected(p), Collected(q))
    ensures Collected(p).Ok? && Collected(q).Ok? ==> Collected(p + q) == Ok(Collected(p).value + Collected(q).value)
    decreases |q|
  {
    if q == [] {
      assert p + q == p;
      if Collected(p).Ok? {
        assert Collected(p).value + [] == Collected(p).value;
      }
    } else {
      var n := |q| - 1;
      assert (p + q)[..|p| + n] == p + q[..n];
      CollectedConcat(p, q[..n]);
      if Collected(p).Ok? && Collected(q[..n]).Ok? && q[n].Ok? {
        ConcatAssoc(Collected(p).value, Collected(q[..n]).value, q[n].value);
      }
    }
  }

  /** Once a prefix has failed, the rest does not matter. */
  lemma FailedPrefix<T>(results: seq<Result<seq<T>>>, i: nat)
    requires i <= |results| && Collected(results[..i]).Err?
    ensures Collected(results) == Collected(results[..i])
  {
    assert results == results[..i] + results[i..];
    CollectedConcat(results[..i], results[i..]);
  }

  lemma {:induction false} CollectedOk<T>(results: seq<Result<seq<T>>>)
    ensures Collected(results).Ok? <==> forall i :: 0 <= i < |results| ==> results[i].Ok?
  {
    if results != [] {
      CollectedOk(results[..|results| - 1]);
    }
  }

  ghost predicate FailsFirstAt<T>(results: seq<Result<seq<T>>>, i: int, e: Error) {
    0 <= i < |results| && results[i] == Err(e) && forall j :: 0 <= j < i ==> results[j].Ok?
  }

  /** An error is the first one in page order, and discards everything. */
  lemma {:induction false} CollectedError<T>(results: seq<Result<seq<T>>>, e: Error)
    ensures Collected(results) == Err(e) <==> exists i :: FailsFirstAt(results, i, e)
  {
    if results != [] {
      var n := |results| - 1;
      var front := results[..n];
      CollectedError(front, e);
      CollectedOk(front);
      if Collected(results) == Err(e) {
        if Collected(front).Err? {
          var i :| FailsFirstAt(front, i, e);
          assert forall j :: 0 <= j <= i ==> results[j] == front[j];
          assert FailsFirstAt(results, i, e);
        } else {
          assert forall j :: 0 <= j < n ==> results[j] == front[j];
          assert FailsFirstAt(results, n, e);
        }
      }
      if i :| FailsFirstAt(results, i, e) {
        if i < n {
          assert FailsFirstAt(front, i, e);
        } else {
          assert forall j :: 0 <= j < n ==> front[j] == results[j];
        }
      }
    }
  }

  /** One page among others: its output stands between what the pages before and after it yield, and the first of
      the three errors wins. */
  lemma CollectedAround<T>(p: seq<Result<seq<T>>>, r: Result<seq<T>>, q: seq<Result<seq<T>>>)
    ensures Collected(p + [r] + q) ==
            match Collected(p)
            case Err(e) => Err(e)
            case Ok(before) =>
              match r
              case Err(e) => Err(e)
              case Ok(own) =>
                match Collected(q)
                case Err(e) => Err(e)
                case Ok(after) => Ok(before + own + after)
    ensures Collected<T>([]) == Ok([])
  {
    CollectedConcat(p + [r], q);
    assert (p + [r])[..|p|] == p;
  }
}
