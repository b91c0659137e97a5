/** Small value wrappers shared by every module of the model. */
module Common {

  /** Python's `None` versus a present value. */
  datatype Option<T> = None | Some(value: T)

  /** A call that either returns a value or raises `ValueError` with a message. */
  datatype Result<T> = Ok(value: T) | Err(msg: string)

  /** A call that returns nothing or raises `ValueError` with a message. */
  datatype Outcome = Pass | Fail(msg: string)
}

/** Searching a list in order, as a `for ... break` loop over it does. */
module Lists {
  import opened Common

  /** The first element of `xs`, in order, that also occurs in `pool`. */
  function FirstIn<T(==)>(xs: seq<T>, pool: seq<T>): (r: Option<T>)
    ensures r.Some? ==> r.value in xs && r.value in pool
    ensures r.None? <==> forall x :: x in xs ==> x !in pool
    ensures r.Some? ==> exists j :: 0 <= j < |xs| && xs[j] == r.value
                                    && forall i :: 0 <= i < j ==> xs[i] !in pool
  {
    if xs == [] then None
    else if xs[0] in pool then Some(xs[0])
    else
      var r := FirstIn(xs[1..], pool);
      assert forall x :: x in xs ==> x == xs[0] || x in xs[1..];
      if r.Some? then
        var j :| 0 <= j < |xs[1..]| && xs[1..][j] == r.value
                 && forall i :: 0 <= i < j ==> xs[1..][i] !in pool;
        assert xs[j + 1] == r.value;
        assert forall i :: 0 <= i < j + 1 ==> xs[i] !in pool by {
          forall i | 0 <= i < j + 1 ensures xs[i] !in pool {
            if i > 0 { assert xs[i] == xs[1..][i - 1]; }
          }
        }
        r
      else r
  }

  /** Skipping an element not in the pool does not change the first match; a match at the front is the first. */
  lemma FirstInStep<T>(xs: seq<T>, pool: seq<T>, j: int)
    requires 0 <= j < |xs|
    ensures xs[j] in pool ==> FirstIn(xs[j..], pool) == Some(xs[j])
    ensures xs[j] !in pool ==> FirstIn(xs[j..], pool) == FirstIn(xs[j + 1..], pool)
  {
    assert xs[j..][0] == xs[j];
    assert xs[j..][1..] == xs[j + 1..];
  }

  /** The scan `for x in xs: if x in pool: ... break`, stopping at the first match. */
  method FindFirstIn<T(==)>(xs: seq<T>, pool: seq<T>) returns (r: Option<T>)
    ensures r == FirstIn(xs, pool)
  {
    var j := 0;
    while j < |xs|
      invariant 0 <= j <= |xs|
      invariant FirstIn(xs[j..], pool) == FirstIn(xs, pool)
    {
      FirstInStep(xs, pool, j);
      if xs[j] in pool {
        return Some(xs[j]);
      }
      j := j + 1;
    }
    assert xs[j..] == [];
    return None;
  }
}
