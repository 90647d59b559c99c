/** Failure-carrying values shared by the converter's modules. */
module Outcomes {

  datatype Option<+T> = None | Some(value: T)

  /** The ways a conversion run stops early. In the converter each of these is
      an uncaught Python exception that ends the whole command. */
  datatype Error =
    | MissingEnvironment(env: string)          // KeyError on variables[X]
    | MissingKey(env: string, key: string)     // KeyError on variables[X][key]
    | FileNotFound(path: string)               // open(path) on an absent input file

  datatype Result<+T> = Ok(value: T) | Err(error: Error)

  /** What a sequence of steps leaves behind: the values of the steps that
      completed, in order, and the error that ended the sequence, if any. */
  datatype Outcome<T> = Outcome(written: seq<T>, failure: Option<Error>)

  /** Run the steps in order; the first error ends the run (an uncaught
      exception), and the values produced before it are kept. */
  function Collect<T>(rs: seq<Result<T>>): (r: Outcome<T>)
    ensures |r.written| <= |rs|
    ensures r.failure.None? ==> |r.written| == |rs|
  {
    if rs == [] then Outcome([], None)
    else
      var n := |rs| - 1;
      var prev := Collect(rs[..n]);
      if prev.failure.Some? then prev
      else
        match rs[n]
        case Err(e) => Outcome(prev.written, Some(e))
        case Ok(v) => Outcome(prev.written + [v], None)
  }

  /** A run without failure keeps one value per step; a failed run kept the
      values of the steps before the first failing one, and its error is that
      step's error. */
  lemma {:induction false} CollectOutcome<T>(rs: seq<Result<T>>)
    ensures var r := Collect(rs);
      (r.failure.None? ==> |r.written| == |rs|)
      && (r.failure.Some? ==> (|r.written| < |rs| && rs[|r.written|] == Err(r.failure.value)))
      && forall i :: 0 <= i < |r.written| ==> rs[i] == Ok(r.written[i])
  {
    if rs != [] {
      var n := |rs| - 1;
      CollectOutcome(rs[..n]);
      assert forall i :: 0 <= i < n ==> rs[..n][i] == rs[i];
    }
  }

  /** Steps after a failure are never taken. */
  lemma {:induction false} CollectStopsAtFailure<T>(rs: seq<Result<T>>, more: seq<Result<T>>)
    requires Collect(rs).failure.Some?
    requires rs <= more
    ensures Collect(more) == Collect(rs)
    decreases |more|
  {
    if |rs| < |more| {
      var n := |more| - 1;
      assert rs <= more[..n];
      CollectStopsAtFailure(rs, more[..n]);
    } else {
      assert rs == more;
    }
  }

  /** One more step after a run without failure. */
  lemma CollectStep<T>(rs: seq<Result<T>>, r: Result<T>, written: seq<T>)
    requires Collect(rs) == Outcome(written, None)
    ensures Collect(rs + [r]) == match r
      case Err(e) => Outcome(written, Some(e))
      case Ok(v) => Outcome(written + [v], None)
  {
    assert (rs + [r])[..|rs|] == rs;
  }
}

