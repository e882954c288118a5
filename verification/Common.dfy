/** Small vocabulary shared by every part of the model. */
module Common {

  datatype Option<+T> = None | Some(value: T)

  /** A cache key: the `{hash}` segment of the request path, also the S3 object key. */
  type Key = string

  type Bytes = seq<bv8>

  /** Instants and durations, in nanoseconds since an arbitrary origin. */
  type Time = nat

  const SECOND: Time := 1_000_000_000

  /** An injective image of a set has the size of the set: the counting step of every bound below. */
  lemma {:induction false} InjectionBound<A>(xs: set<A>, f: map<A, int>, ys: set<int>)
    requires forall x :: x in xs ==> x in f && f[x] in ys
    requires forall x, y :: x in xs && y in xs && x != y ==> f[x] != f[y]
    ensures |xs| <= |ys|
  {
    if xs != {} {
      var x :| x in xs;
      InjectionBound(xs - {x}, f, ys - {f[x]});
    }
  }

  function Interval(n: nat): (r: set<int>)
    ensures |r| == n
    ensures forall i :: i in r <==> 0 <= i < n
  {
    if n == 0 then {} else Interval(n - 1) + {n - 1}
  }

  lemma ScaleOrdered(a: int, b: int, width: nat)
    ensures a <= b ==> a * width <= b * width
  {
  }
}
