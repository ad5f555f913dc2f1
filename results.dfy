/** Failure-compatible wrappers shared by every day: a missing value, and the
    outcome of an operation that the original program aborts on (a panic from
    `unwrap`, `assert!` or `unreachable!`). */
module Results {

  datatype Option<T> = None | Some(value: T)

  datatype Result<T> = Ok(value: T) | Err(reason: string) {

    predicate IsFailure() {
      Err?
    }

    function PropagateFailure<U>(): Result<U>
      requires Err?
    {
      Err(reason)
    }

    function Extract(): T
      requires Ok?
    {
      value
    }
  }

  /** Applies `f` to every element and keeps the values, failing as soon as
      one element fails (Rust's `collect` into a `Result`). */
  function Collect<T, U>(f: T -> Result<U>, xs: seq<T>): (r: Result<seq<U>>)
    ensures r.Ok? <==> forall i :: 0 <= i < |xs| ==> f(xs[i]).Ok?
    ensures r.Ok? ==> |r.value| == |xs|
    ensures r.Ok? ==> forall i :: 0 <= i < |xs| ==> r.value[i] == f(xs[i]).value
  {
    if |xs| == 0 then Ok([])
    else
      var first :- f(xs[0]);
      var rest :- Collect(f, xs[1..]);
      assert forall i :: 1 <= i < |xs| ==> xs[i] == xs[1..][i - 1];
      Ok([first] + rest)
  }

  /** When every element succeeds with a known value, the collection is
      those values. */
  lemma CollectAll<T, U>(f: T -> Result<U>, xs: seq<T>, ys: seq<U>)
    requires |ys| == |xs| && forall i :: 0 <= i < |xs| ==> f(xs[i]) == Ok(ys[i])
    ensures Collect(f, xs) == Ok(ys)
  {
    var r := Collect(f, xs);
    assert r.Ok?;
    assert r.value == ys;
  }

  /** The first element that fails decides the error. */
  lemma {:induction false} CollectFails<T, U>(f: T -> Result<U>, xs: seq<T>, i: nat)
    requires i < |xs| && f(xs[i]).Err?
    requires forall k :: 0 <= k < i ==> f(xs[k]).Ok?
    ensures Collect(f, xs) == Err(f(xs[i]).reason)
  {
    if i > 0 {
      assert forall k :: 0 <= k < i - 1 ==> xs[1..][k] == xs[k + 1];
      CollectFails(f, xs[1..], i - 1);
    }
  }

  /** Collecting one more element: its failure is the collection's failure
      when everything before it succeeded, and its success extends the
      values. */
  lemma CollectStep<T, U>(f: T -> Result<U>, xs: seq<T>, i: nat, ys: seq<U>)
    requires i < |xs| && Collect(f, xs[..i]) == Ok(ys)
    ensures f(xs[i]).Err? ==> Collect(f, xs) == Err(f(xs[i]).reason)
    ensures f(xs[i]).Ok? ==> Collect(f, xs[..i + 1]) == Ok(ys + [f(xs[i]).value])
  {
    if f(xs[i]).Err? {
      forall k | 0 <= k < i ensures f(xs[k]).Ok? {
        assert xs[..i][k] == xs[k];
      }
      CollectFails(f, xs, i);
    } else {
      assert xs[..i + 1] == xs[..i] + [xs[i]];
      CollectSnoc(f, xs[..i], xs[i]);
    }
  }

  /** Two elements collect exactly when both succeed. */
  lemma CollectTwo<T, U>(f: T -> Result<U>, xs: seq<T>)
    ensures |xs| == 2 ==> (Collect(f, xs).Ok? <==> f(xs[0]).Ok? && f(xs[1]).Ok?)
  {
  }

  /** One more successful element extends the collection by its value. */
  lemma CollectSnoc<T, U>(f: T -> Result<U>, xs: seq<T>, x: T)
    requires Collect(f, xs).Ok? && f(x).Ok?
    ensures Collect(f, xs + [x]) == Ok(Collect(f, xs).value + [f(x).value])
  {
    var ys := Collect(f, xs).value + [f(x).value];
    forall i | 0 <= i < |xs + [x]| ensures f((xs + [x])[i]) == Ok(ys[i]) {
      if i < |xs| {
        assert (xs + [x])[i] == xs[i];
      }
    }
    CollectAll(f, xs + [x], ys);
  }
}
