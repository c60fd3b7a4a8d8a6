/** The array operations the data layer is built from: `findIndex` (and `find`
    through it), `filter` and `some`, over sequences. */
module Lists {
  import opened Records

  /** The index of the first element satisfying `p`, or `None` when there is none. */
  function FindIndex<T>(s: seq<T>, p: T -> bool): (r: Option<nat>)
    ensures r.Some? ==> r.value < |s| && p(s[r.value])
    ensures r.Some? ==> forall j :: 0 <= j < r.value ==> !p(s[j])
    ensures r.None? ==> forall j :: 0 <= j < |s| ==> !p(s[j])
    decreases |s|
  {
    if s == [] then None
    else if p(s[0]) then Some(0)
    else match FindIndex(s[1..], p)
      case None => None
      case Some(i) => Some(i + 1)
  }

  /** `i` is the first position of `s` whose element satisfies `p`. */
  ghost predicate IsFirst<T>(s: seq<T>, p: T -> bool, i: int) {
    0 <= i < |s| && p(s[i]) && forall j :: 0 <= j < i ==> !p(s[j])
  }

  /** Whatever position is first, `FindIndex` returns exactly it. */
  lemma FindIndexIsFirst<T>(s: seq<T>, p: T -> bool, i: int)
    requires IsFirst(s, p, i)
    ensures FindIndex(s, p) == Some(i)
  {
  }

  /** The elements of `s` that satisfy `p`, in their order in `s`. */
  function Filter<T(!new)>(s: seq<T>, p: T -> bool): (r: seq<T>)
    ensures |r| <= |s|
    ensures forall x :: x in r <==> x in s && p(x)
    decreases |s|
  {
    if s == [] then []
    else
      assert s == [s[0]] + s[1..];
      (if p(s[0]) then [s[0]] else []) + Filter(s[1..], p)
  }

  /** Filtering a concatenation filters each part and keeps them in order. */
  lemma {:induction false} FilterConcat<T(!new)>(a: seq<T>, b: seq<T>, p: T -> bool)
    ensures Filter(a + b, p) == Filter(a, p) + Filter(b, p)
    decreases |a|
  {
    if a == [] {
      assert a + b == b;
    } else {
      assert (a + b)[0] == a[0];
      assert (a + b)[1..] == a[1..] + b;
      FilterConcat(a[1..], b, p);
    }
  }

  /** The filtered sequence split around a kept element at position `i`. */
  lemma {:induction false} FilterAtKept<T(!new)>(s: seq<T>, i: int, p: T -> bool)
    requires 0 <= i < |s| && p(s[i])
    ensures Filter(s, p) == Filter(s[..i], p) + [s[i]] + Filter(s[i + 1..], p)
  {
    assert s == s[..i] + [s[i]] + s[i + 1..];
    FilterConcat(s[..i] + [s[i]], s[i + 1..], p);
    FilterConcat(s[..i], [s[i]], p);
  }

  /** A dropped element at position `i` contributes nothing. */
  lemma {:induction false} FilterAtDropped<T(!new)>(s: seq<T>, i: int, p: T -> bool)
    requires 0 <= i < |s| && !p(s[i])
    ensures Filter(s, p) == Filter(s[..i], p) + Filter(s[i + 1..], p)
  {
    assert s == s[..i] + s[i..];
    assert s[i..][0] == s[i] && s[i..][1..] == s[i + 1..];
    FilterConcat(s[..i], s[i..], p);
  }

  /** Replacing the element at `i` leaves what comes before and after it alone. */
  lemma ReplaceSlices<T>(s: seq<T>, i: int, x: T)
    requires 0 <= i < |s|
    ensures s[i := x][..i] == s[..i] && s[i := x][i + 1..] == s[i + 1..] && s[i := x][i] == x
  {
  }

  /** Whether some element satisfies `p`. */
  function Any<T>(s: seq<T>, p: T -> bool): (r: bool)
    ensures r <==> exists i :: 0 <= i < |s| && p(s[i])
    decreases |s|
  {
    if s == [] then false
    else if p(s[0]) then true
    else
      var rest := Any(s[1..], p);
      assert rest ==> exists i :: 0 <= i < |s| && p(s[i]) by {
        if rest {
          var k :| 0 <= k < |s| - 1 && p(s[1..][k]);
          assert p(s[k + 1]);
        }
      }
      rest
  }
}
