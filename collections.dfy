/** Helpers shared by every model: optional values for object properties that
    may be absent, and the three array operations the components use on their
    state lists (`filter`, `find`, and `map` with a conditional replacement). */
module Collections {

  /** An object property that may be absent (`undefined`/`null`). */
  datatype Option<+T> = None | Some(value: T)

  /** `o ?? d`: the present value, or `d` when the property is absent. */
  function GetOr<T>(o: Option<T>, d: T): T {
    if o.Some? then o.value else d
  }

  /** JavaScript truthiness of a string: only the empty string is falsy. */
  predicate Truthy(s: string) {
    s != ""
  }

  /** A spread `{ ...current, ...patch }` on one property: a property present
      in the patch replaces the current one, an absent one leaves it. */
  function Overlay<T>(patch: Option<T>, current: T): (r: T)
    ensures patch.None? ==> r == current
    ensures patch.Some? ==> r == patch.value
  {
    GetOr(patch, current)
  }

  // ---------------------------------------------------------------------
  // `xs.filter(keep)`
  // ---------------------------------------------------------------------

  /** The elements of `s` that satisfy `keep`, in their original order. */
  function Filter<T(!new)>(s: seq<T>, keep: T -> bool): (r: seq<T>)
    ensures |r| <= |s|
    ensures forall x :: x in r <==> x in s && keep(x)
  {
    if s == [] then []
    else if keep(s[0]) then [s[0]] + Filter(s[1..], keep)
    else Filter(s[1..], keep)
  }

  /** Filtering distributes over concatenation: together with the one-element
      case this pins the result down as the order-preserving sub-list. */
  lemma {:induction false} FilterConcat<T(!new)>(a: seq<T>, b: seq<T>, keep: T -> bool)
    ensures Filter(a + b, keep) == Filter(a, keep) + Filter(b, keep)
  {
    if a == [] {
      assert a + b == b;
    } else {
      assert (a + b)[0] == a[0];
      assert (a + b)[1..] == a[1..] + b;
      FilterConcat(a[1..], b, keep);
    }
  }

  /** Filtering twice is filtering once by the conjunction. */
  lemma {:induction false} FilterComposes<T(!new)>(s: seq<T>, p: T -> bool, q: T -> bool, both: T -> bool)
    requires forall x :: both(x) == (p(x) && q(x))
    ensures Filter(Filter(s, p), q) == Filter(s, both)
  {
    if s != [] {
      FilterComposes(s[1..], p, q, both);
    }
  }

  /** When every element satisfies exactly one of `p` and `q`, the two
      filters split `s`: together they hold each element exactly once. */
  lemma {:induction false} FilterPartition<T(!new)>(s: seq<T>, p: T -> bool, q: T -> bool)
    requires forall x :: x in s ==> p(x) != q(x)
    ensures multiset(Filter(s, p)) + multiset(Filter(s, q)) == multiset(s)
    ensures |Filter(s, p)| + |Filter(s, q)| == |s|
  {
    if s != [] {
      assert forall x :: x in s[1..] ==> x in s;
      FilterPartition(s[1..], p, q);
      assert s == [s[0]] + s[1..];
    }
  }

  // ---------------------------------------------------------------------
  // `xs.findIndex(matches)` and `xs.find(matches)`
  // ---------------------------------------------------------------------

  /** The index of the first element satisfying `matches`, or -1. */
  function FirstIndex<T>(s: seq<T>, matches: T -> bool): (k: int)
    ensures -1 <= k < |s|
    ensures 0 <= k ==> matches(s[k])
    ensures forall j :: 0 <= j < |s| && (k < 0 || j < k) ==> !matches(s[j])
  {
    if s == [] then -1
    else if matches(s[0]) then 0
    else
      var k := FirstIndex(s[1..], matches);
      if k < 0 then -1 else k + 1
  }

  /** The first element satisfying `matches`, if there is one. */
  function Find<T(!new)>(s: seq<T>, matches: T -> bool): (r: Option<T>)
    ensures r.None? <==> forall x :: x in s ==> !matches(x)
    ensures r.Some? ==> r.value in s && matches(r.value)
    ensures r.Some? ==> exists k :: 0 <= k < |s| && s[k] == r.value && forall j :: 0 <= j < k ==> !matches(s[j])
  {
    var k := FirstIndex(s, matches);
    if k < 0 then None else Some(s[k])
  }

  // ---------------------------------------------------------------------
  // `xs.map(x => matches(x) ? change(x) : x)`
  // ---------------------------------------------------------------------

  /** Replaces every element satisfying `matches` by its changed version and
      keeps every other element, position for position. */
  function UpdateWhere<T>(s: seq<T>, matches: T -> bool, change: T -> T): (r: seq<T>)
    ensures |r| == |s|
    ensures forall i :: 0 <= i < |s| && matches(s[i]) ==> r[i] == change(s[i])
    ensures forall i :: 0 <= i < |s| && !matches(s[i]) ==> r[i] == s[i]
  {
    if s == [] then []
    else [if matches(s[0]) then change(s[0]) else s[0]] + UpdateWhere(s[1..], matches, change)
  }

  /** A lookup after an update finds the updated version of what it found
      before, provided the change keeps the element matching. */
  lemma {:induction false} FindAfterUpdate<T(!new)>(s: seq<T>, matches: T -> bool, change: T -> T)
    requires forall x :: matches(x) ==> matches(change(x))
    ensures var before := Find(s, matches);
            Find(UpdateWhere(s, matches, change), matches)
              == if before.Some? then Some(change(before.value)) else None
  {
    FirstIndexAfterUpdate(s, matches, change);
  }

  lemma {:induction false} FirstIndexAfterUpdate<T>(s: seq<T>, matches: T -> bool, change: T -> T)
    requires forall x :: matches(x) ==> matches(change(x))
    ensures FirstIndex(UpdateWhere(s, matches, change), matches) == FirstIndex(s, matches)
  {
    if s != [] {
      var r := UpdateWhere(s, matches, change);
      assert r[1..] == UpdateWhere(s[1..], matches, change);
      FirstIndexAfterUpdate(s[1..], matches, change);
    }
  }
}
