/** Result shapes shared by every module, and the set-counting facts Dafny does not know by itself. */
module Prelude {

  datatype Option<+T> = None | Some(value: T)

  datatype Result<+T, +E> = Ok(value: T) | Err(error: E)

  /** A set of things computed from the elements of a sequence is no larger than the sequence. */
  lemma {:induction false} ImageNoLarger<A, B>(xs: seq<A>, f: A -> B, ys: set<B>)
    requires forall y :: y in ys ==> exists i :: 0 <= i < |xs| && f(xs[i]) == y
    ensures |ys| <= |xs|
  {
    if xs == [] {
      assert ys == {};
    } else {
      var last := f(xs[|xs| - 1]);
      var rest := ys - {last};
      var front := xs[..|xs| - 1];
      forall y | y in rest
        ensures exists i :: 0 <= i < |front| && f(front[i]) == y
      {
        var i :| 0 <= i < |xs| && f(xs[i]) == y;
        assert f(front[i]) == y;
      }
      ImageNoLarger(front, f, rest);
      assert |ys| <= |rest| + 1 by {
        if last in ys {
          assert ys == rest + {last};
        } else {
          assert ys == rest;
        }
      }
    }
  }
}
