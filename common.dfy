/** Shared value types: optional values, results, and the few string tests
    (prefix, suffix, substring, truthiness) that the Python code relies on. */
module Common {

  datatype Option<+T> = None | Some(value: T)

  datatype Result<+T, +E> = Success(value: T) | Failure(error: E)

  /** Python truthiness of an `Optional[str]`: neither `None` nor `""`. */
  predicate Truthy(s: Option<string>) {
    s.Some? && s.value != ""
  }

  /** `s.startswith(p)` */
  predicate IsPrefix(p: string, s: string) {
    |p| <= |s| && s[..|p|] == p
  }

  /** `s.endswith(p)` */
  predicate IsSuffix(p: string, s: string) {
    |p| <= |s| && s[|s| - |p|..] == p
  }

  /** `p in s` for strings: `p` occurs at some offset of `s`. */
  predicate IsSubstring(p: string, s: string) {
    exists i :: 0 <= i <= |s| && IsPrefix(p, s[i..])
  }

  /** Index of the first element of `s` satisfying `p` (SQL `.first()` over rows in table order). */
  function FindFirst<T>(s: seq<T>, p: T -> bool): (r: Option<nat>)
    ensures r.Some? ==> r.value < |s| && p(s[r.value])
    ensures r.Some? ==> forall j :: 0 <= j < r.value ==> !p(s[j])
    ensures r.None? <==> forall j :: 0 <= j < |s| ==> !p(s[j])
  {
    if |s| == 0 then None
    else if p(s[0]) then Some(0)
    else match FindFirst(s[1..], p)
      case None => None
      case Some(k) => Some(k + 1)
  }

  /** The elements of `s` satisfying `p`, in their order in `s` (SQL `.filter(...).all()`). */
  function Filter<T(!new)>(s: seq<T>, p: T -> bool): (r: seq<T>)
    ensures |r| <= |s|
    ensures forall x :: x in r <==> x in s && p(x)
  {
    if |s| == 0 then []
    else if p(s[0]) then [s[0]] + Filter(s[1..], p)
    else Filter(s[1..], p)
  }

  /** Filtering distributes over concatenation: appending rows adds only their matches. */
  lemma {:induction false} FilterAppend<T(!new)>(s: seq<T>, t: seq<T>, p: T -> bool)
    ensures Filter(s + t, p) == Filter(s, p) + Filter(t, p)
  {
    if |s| == 0 {
      assert s + t == t;
    } else {
      assert (s + t)[1..] == s[1..] + t;
      FilterAppend(s[1..], t, p);
    }
  }

  /** Removing one row that does not satisfy `p` leaves the filtered rows unchanged,
      and removing one that does drops exactly one match. */
  lemma {:induction false} FilterRemoveAt<T(!new)>(s: seq<T>, i: nat, p: T -> bool)
    requires i < |s|
    ensures |Filter(s[..i] + s[i + 1..], p)| == if p(s[i]) then |Filter(s, p)| - 1 else |Filter(s, p)|
  {
    assert s == s[..i] + [s[i]] + s[i + 1..];
    FilterAppend(s[..i] + [s[i]], s[i + 1..], p);
    FilterAppend(s[..i], [s[i]], p);
    FilterAppend(s[..i], s[i + 1..], p);
    assert Filter([s[i]], p) == if p(s[i]) then [s[i]] else [];
  }

  /** No element satisfies `p` exactly when the filter is empty. */
  lemma {:induction false} FilterEmpty<T(!new)>(s: seq<T>, p: T -> bool)
    requires forall x :: x in s ==> !p(x)
    ensures Filter(s, p) == []
  {
    if |s| > 0 {
      assert forall x :: x in s[1..] ==> x in s;
      FilterEmpty(s[1..], p);
    }
  }

  /** When `FindFirst` finds nothing, no element satisfies `p`. */
  lemma FindFirstNone<T(!new)>(s: seq<T>, p: T -> bool)
    requires FindFirst(s, p).None?
    ensures forall x :: x in s ==> !p(x)
  {
    forall x | x in s ensures !p(x) {
      var j :| 0 <= j < |s| && s[j] == x;
    }
  }
}
