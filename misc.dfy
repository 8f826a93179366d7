/** The helpers of the web server (internal/utils/misc.go): Contains,
    ContainsAny, Ternary and Try. They only read their arguments and return
    early, so they are modelled as recursive functions over the slices. */
module Misc {
  import opened Wrappers

  /** Contains: whether element occurs in the slice, looking from the
      front. */
  function Contains<T(==)>(element: T, slice: seq<T>): bool {
    slice != [] && (element == slice[0] || Contains(element, slice[1..]))
  }

  lemma {:induction false} ContainsIsMembership<T>(element: T, slice: seq<T>)
    ensures Contains(element, slice) <==> element in slice
  {
    if slice != [] {
      ContainsIsMembership(element, slice[1..]);
      assert slice == [slice[0]] + slice[1..];
    }
  }

  /** ContainsAny: whether some element of elements occurs in the slice,
      trying the elements in order. */
  function ContainsAny<T(==)>(elements: seq<T>, slice: seq<T>): bool {
    elements != [] && (Contains(elements[0], slice) || ContainsAny(elements[1..], slice))
  }

  /** ContainsAny holds exactly when the two slices share an element; in
      particular it is false when either is empty. */
  lemma {:induction false} ContainsAnyIsOverlap<T>(elements: seq<T>, slice: seq<T>)
    ensures ContainsAny(elements, slice) <==> exists i, j :: 0 <= i < |elements| && 0 <= j < |slice| && elements[i] == slice[j]
    ensures elements == [] || slice == [] ==> !ContainsAny(elements, slice)
  {
    if elements != [] {
      ContainsAnyIsOverlap(elements[1..], slice);
      ContainsIsMembership(elements[0], slice);
      if exists i, j :: 0 <= i < |elements| && 0 <= j < |slice| && elements[i] == slice[j] {
        var i, j :| 0 <= i < |elements| && 0 <= j < |slice| && elements[i] == slice[j];
        if i > 0 {
          assert elements[1..][i - 1] == slice[j];
        }
      }
      if ContainsAny(elements[1..], slice) {
        var i, j :| 0 <= i < |elements[1..]| && 0 <= j < |slice| && elements[1..][i] == slice[j];
        assert elements[i + 1] == slice[j];
      }
    }
  }

  /** Ternary: a when the condition holds, b otherwise. */
  function Ternary<T>(condition: bool, a: T, b: T): T {
    if condition then a else b
  }

  /** Try: the first error the functions return, in order, or None when all
      succeed. */
  function Try<E>(funcs: seq<() -> Option<E>>): Option<E> {
    if funcs == [] then None
    else
      var err := funcs[0]();
      if err.Some? then err else Try(funcs[1..])
  }

  /** Try returns the error of the first failing function, and nothing
      after it has any bearing on the result: the later functions are never
      called. */
  lemma {:induction false} TryStopsAtFirstError<E>(funcs: seq<() -> Option<E>>, k: nat, rest: seq<() -> Option<E>>)
    requires k < |funcs| && funcs[k]().Some?
    requires forall i :: 0 <= i < k ==> funcs[i]().None?
    ensures Try(funcs[..k + 1] + rest) == funcs[k]()
    ensures Try(funcs) == funcs[k]()
  {
    if k > 0 {
      assert (funcs[..k + 1] + rest)[1..] == funcs[1..][..k] + rest;
      TryStopsAtFirstError(funcs[1..], k - 1, rest);
    }
  }

  /** Try succeeds exactly when every function does. */
  lemma {:induction false} TryNoneWhenAllSucceed<E>(funcs: seq<() -> Option<E>>)
    ensures Try(funcs).None? <==> forall i :: 0 <= i < |funcs| ==> funcs[i]().None?
  {
    if funcs != [] {
      TryNoneWhenAllSucceed(funcs[1..]);
      assert forall i :: 1 <= i < |funcs| ==> funcs[i] == funcs[1..][i - 1];
    }
  }
}
