/** Optional values and success/failure results shared by every module of the model. */
module Wrappers {

  datatype Option<+T> = None | Some(value: T) {
    function GetOr(default: T): T {
      match this
      case Some(v) => v
      case None => default
    }
  }

  datatype Result<+R, +E> = Ok(value: R) | Err(error: E)

  /** The first present value of two, as `a || b` picks a truthy operand. */
  function OrElse<T>(a: Option<T>, b: Option<T>): Option<T> {
    if a.Some? then a else b
  }

  /** The values of the present options, in order. */
  function Somes<T>(xs: seq<Option<T>>): seq<T> {
    if xs == [] then []
    else
      var rest := Somes(xs[..|xs| - 1]);
      match xs[|xs| - 1]
      case Some(h) => rest + [h]
      case None => rest
  }

  /** One more option adds its value, if any, at the end. */
  lemma SomesSnoc<T>(xs: seq<Option<T>>, x: Option<T>)
    ensures Somes(xs + [x]) == if x.Some? then Somes(xs) + [x.value] else Somes(xs)
  {
    assert (xs + [x])[..|xs|] == xs;
  }

  /** The values of a prefix are a prefix of the values. */
  lemma {:induction false} SomesPrefix<T>(xs: seq<Option<T>>, k: nat)
    requires k <= |xs|
    ensures Somes(xs[..k]) <= Somes(xs)
    decreases |xs|
  {
    if k < |xs| {
      var n := |xs| - 1;
      SomesPrefix(xs[..n], k);
      assert xs[..n][..k] == xs[..k];
      var before := Somes(xs[..k]);
      var rest := Somes(xs[..n]);
      assert Somes(xs)[..|rest|] == rest;
      assert Somes(xs)[..|before|] == rest[..|before|];
    } else {
      assert xs[..k] == xs;
    }
  }

  /** Every value comes from a present option. */
  lemma {:induction false} SomesFrom<T>(xs: seq<Option<T>>, i: nat)
    requires i < |Somes(xs)|
    ensures exists j :: 0 <= j < |xs| && xs[j] == Some(Somes(xs)[i])
    decreases |xs|
  {
    var n := |xs| - 1;
    var rest := Somes(xs[..n]);
    if i < |rest| {
      SomesFrom(xs[..n], i);
      var j :| 0 <= j < n && xs[..n][j] == Some(rest[i]);
      assert xs[j] == xs[..n][j];
      assert Somes(xs)[i] == rest[i];
    } else {
      assert xs[n] == Some(Somes(xs)[i]);
    }
  }

  /** Without a present option there are no values. */
  lemma {:induction false} SomesAllNone<T>(xs: seq<Option<T>>)
    requires forall i :: 0 <= i < |xs| ==> xs[i].None?
    ensures Somes(xs) == []
    decreases |xs|
  {
    if xs != [] {
      SomesAllNone(xs[..|xs| - 1]);
    }
  }

  /** Every present option contributes its value. */
  lemma {:induction false} SomesHas<T>(xs: seq<Option<T>>, k: nat)
    requires k < |xs| && xs[k].Some?
    ensures xs[k].value in Somes(xs)
    decreases |xs|
  {
    var n := |xs| - 1;
    if k < n {
      SomesHas(xs[..n], k);
    }
  }

  /** There are at most as many values as options. */
  lemma {:induction false} SomesLength<T>(xs: seq<Option<T>>)
    ensures |Somes(xs)| <= |xs|
    decreases |xs|
  {
    if xs != [] {
      SomesLength(xs[..|xs| - 1]);
    }
  }

  /** When every option is present, the values are all of them, in order. */
  lemma {:induction false} SomesAllSome<T>(xs: seq<Option<T>>)
    requires forall i :: 0 <= i < |xs| ==> xs[i].Some?
    ensures |Somes(xs)| == |xs| && forall i :: 0 <= i < |xs| ==> Some(Somes(xs)[i]) == xs[i]
    decreases |xs|
  {
    if xs != [] {
      var n := |xs| - 1;
      SomesAllSome(xs[..n]);
      assert forall i :: 0 <= i < n ==> xs[..n][i] == xs[i];
    }
  }

  /** The values of one more option of `xs`: its value, if any, is added at the end. */
  lemma SomesStep<T>(xs: seq<Option<T>>, k: nat)
    requires k < |xs|
    ensures Somes(xs[..k + 1]) == if xs[k].Some? then Somes(xs[..k]) + [xs[k].value] else Somes(xs[..k])
  {
    assert xs[..k + 1] == xs[..k] + [xs[k]];
    SomesSnoc(xs[..k], xs[k]);
  }
}
