/** Failure-carrying results and ordered enumeration of finite sets, shared by every component. */
module Base {

  datatype Option<+T> = None | Some(value: T)

  datatype Result<+T, +E> = Ok(value: T) | Err(error: E) {
    predicate IsFailure() { Err? }
    function PropagateFailure<U>(): (r: Result<U, E>)
      requires Err?
    {
      Err(error)
    }
    function Extract(): T
      requires Ok?
    {
      value
    }
  }

  function Lookup<K, V>(m: map<K, V>, k: K): Option<V> {
    if k in m then Some(m[k]) else None
  }

  /** A strict total order, as every `Ord` key type of the source has. */
  ghost predicate StrictOrder<T(!new)>(less: (T, T) -> bool) {
    && (forall x :: !less(x, x))
    && (forall x, y, z :: less(x, y) && less(y, z) ==> less(x, z))
    && (forall x, y :: x == y || less(x, y) || less(y, x))
  }

  predicate Increasing<T>(s: seq<T>, less: (T, T) -> bool) {
    forall i, j :: 0 <= i < j < |s| ==> less(s[i], s[j])
  }

  /** The iteration order of a `BTreeSet`: `s` lists exactly `ids`, in increasing order. */
  ghost predicate Enumerates<T(!new)>(s: seq<T>, ids: set<T>, less: (T, T) -> bool) {
    && Increasing(s, less)
    && (forall x :: x in s <==> x in ids)
  }

  lemma LeastExists<T(!new)>(ids: set<T>, less: (T, T) -> bool) returns (m: T)
    requires StrictOrder(less) && ids != {}
    ensures m in ids && forall x :: x in ids ==> x == m || less(m, x)
  {
    var one :| one in ids;
    m := one;
    var rest := ids - {one};
    assert ids == rest + {one};
    if rest != {} {
      var other := LeastExists(rest, less);
      m := if less(other, one) then other else one;
    }
  }

  ghost function SortBy<T(!new)>(ids: set<T>, less: (T, T) -> bool): (s: seq<T>)
    requires StrictOrder(less)
    ensures Enumerates(s, ids, less)
    ensures |s| == |ids|
  {
    if ids == {} then []
    else
      assert exists m :: m in ids && forall x :: x in ids ==> x == m || less(m, x) by {
        var _ := LeastExists(ids, less);
      }
      var m :| m in ids && forall x :: x in ids ==> x == m || less(m, x);
      [m] + SortBy(ids - {m}, less)
  }

  lemma {:induction false} EnumerationLength<T(!new)>(s: seq<T>, ids: set<T>, less: (T, T) -> bool)
    requires StrictOrder(less) && Enumerates(s, ids, less)
    ensures |s| == |ids|
    decreases |s|
  {
    if s == [] {
      assert ids == {};
    } else {
      assert s == [s[0]] + s[1..];
      EnumerationLength(s[1..], ids - {s[0]}, less);
    }
  }

  /** A set has only one increasing enumeration. */
  lemma {:induction false} EnumerationUnique<T(!new)>(s: seq<T>, t: seq<T>, ids: set<T>, less: (T, T) -> bool)
    requires StrictOrder(less)
    requires Enumerates(s, ids, less) && Enumerates(t, ids, less)
    ensures s == t
    decreases |s|
  {
    EnumerationLength(s, ids, less);
    EnumerationLength(t, ids, less);
    if |s| > 0 {
      assert s[0] in t && t[0] in s;
      assert s == [s[0]] + s[1..] && t == [t[0]] + t[1..];
      EnumerationUnique(s[1..], t[1..], ids - {s[0]}, less);
    }
  }

  /** The least element of a set, found by one walk over it. */
  method LeastOf<T(==, !new)>(ids: set<T>, less: (T, T) -> bool) returns (m: T)
    requires StrictOrder(less) && ids != {}
    ensures m in ids && forall x :: x in ids ==> x == m || less(m, x)
  {
    m :| m in ids;
    var left := ids - {m};
    while left != {}
      invariant left <= ids && m in ids && m !in left
      invariant forall x :: x in ids && x !in left ==> x == m || less(m, x)
      decreases left
    {
      var x :| x in left;
      left := left - {x};
      if less(x, m) { m := x; }
    }
  }

  /** Walking an ordered collection from its least element up. */
  method InOrder<T(==, !new)>(ids: set<T>, less: (T, T) -> bool) returns (s: seq<T>)
    requires StrictOrder(less)
    ensures Enumerates(s, ids, less)
  {
    s := [];
    var left := ids;
    while left != {}
      invariant left <= ids
      invariant Enumerates(s, ids - left, less)
      invariant forall x, y :: x in s && y in left ==> less(x, y)
      decreases left
    {
      var m := LeastOf(left, less);
      s := s + [m];
      left := left - {m};
      assert ids - left == (ids - (left + {m})) + {m};
    }
    assert ids - left == ids;
  }
}
