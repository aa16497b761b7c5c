/** Optional values, standing in for Swift's `T?`. */
module Base {

  datatype Option<+T> = None | Some(value: T) {

    /** `self ?? default` */
    function GetOr(default: T): T {
      match this
      case Some(v) => v
      case None => default
    }
  }

  /** The present values of a list of options, in order. */
  function Somes<T>(xs: seq<Option<T>>): (r: seq<T>)
    ensures |r| <= |xs|
    decreases |xs|
  {
    if xs == [] then []
    else (if xs[0].Some? then [xs[0].value] else []) + Somes(xs[1..])
  }

  /** Options are read independently of their neighbours. */
  lemma {:induction false} SomesConcat<T>(a: seq<Option<T>>, b: seq<Option<T>>)
    ensures Somes(a + b) == Somes(a) + Somes(b)
    decreases |a|
  {
    if a == [] {
      assert a + b == b;
    } else {
      assert (a + b)[0] == a[0];
      assert (a + b)[1..] == a[1..] + b;
      SomesConcat(a[1..], b);
    }
  }

  /** Every value kept was present at some position. */
  lemma {:induction false} SomesMembers<T>(xs: seq<Option<T>>, v: T)
    requires v in Somes(xs)
    ensures exists i :: 0 <= i < |xs| && xs[i] == Some(v)
    decreases |xs|
  {
    if !(xs[0].Some? && xs[0].value == v) {
      SomesMembers(xs[1..], v);
      var j :| 0 <= j < |xs[1..]| && xs[1..][j] == Some(v);
      assert xs[j + 1] == Some(v);
    }
  }

  /** Options that are all present give back every value, in order. */
  lemma {:induction false} SomesAllPresent<T>(xs: seq<Option<T>>, ys: seq<T>)
    requires |xs| == |ys|
    requires forall i :: 0 <= i < |xs| ==> xs[i] == Some(ys[i])
    ensures Somes(xs) == ys
    decreases |xs|
  {
    if xs != [] {
      SomesAllPresent(xs[1..], ys[1..]);
      assert ys == [ys[0]] + ys[1..];
    }
  }

  /** Where one list of options is present wherever another is, it keeps
      at least as many values. */
  lemma {:induction false} SomesFewer<S, T>(xs: seq<Option<S>>, ys: seq<Option<T>>)
    requires |xs| == |ys|
    requires forall i :: 0 <= i < |xs| && xs[i].Some? ==> ys[i].Some?
    ensures |Somes(xs)| <= |Somes(ys)|
    decreases |xs|
  {
    if xs != [] {
      SomesFewer(xs[1..], ys[1..]);
    }
  }

  lemma SeqAssoc<T>(x: seq<T>, y: seq<T>, z: seq<T>)
    ensures x + (y + z) == (x + y) + z
  {
  }
}
