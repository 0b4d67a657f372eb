/** Small sequence helpers standing for the Ruby and ActiveRecord collection
    operations the controller and the model use: `where` (a filter that keeps
    order), `flat_map`, `uniq`, `&` and `first`. */
module Collections {

  /** A Ruby value that may be nil. */
  datatype Option<+T> = None | Some(value: T)

  /** No element occurs twice. */
  predicate NoDuplicates<T(==)>(s: seq<T>) {
    forall i, j :: 0 <= i < j < |s| ==> s[i] != s[j]
  }

  /** The conjunction of two conditions, as two chained `where` clauses combine. */
  function Both<T>(p: T -> bool, q: T -> bool): T -> bool {
    x => p(x) && q(x)
  }

  /** The elements of `s` that satisfy `p`, in their original order. */
  function Keep<T(!new)>(s: seq<T>, p: T -> bool): (r: seq<T>)
    ensures |r| <= |s|
    ensures forall x :: x in r <==> x in s && p(x)
  {
    if s == [] then []
    else if p(s[0]) then [s[0]] + Keep(s[1..], p)
    else Keep(s[1..], p)
  }

  /** Filtering keeps every element that satisfies `p` as many times as it
      occurs, so identical elements are not merged. */
  lemma {:induction false} KeepMultiplicity<T(!new)>(s: seq<T>, p: T -> bool)
    ensures forall x :: multiset(Keep(s, p))[x] == if p(x) then multiset(s)[x] else 0
  {
    if s != [] {
      KeepMultiplicity(s[1..], p);
      assert s == [s[0]] + s[1..];
    }
  }

  /** Filtering twice is filtering once by the conjunction. */
  lemma {:induction false} KeepKeep<T(!new)>(s: seq<T>, p: T -> bool, q: T -> bool)
    ensures Keep(Keep(s, p), q) == Keep(s, Both(p, q))
  {
    if s != [] {
      KeepKeep(s[1..], p, q);
      if p(s[0]) {
        assert Keep(s, p) == [s[0]] + Keep(s[1..], p);
        assert (Keep(s, p))[1..] == Keep(s[1..], p);
      }
    }
  }

  /** Two filters may be applied in either order. */
  lemma {:induction false} KeepCommutes<T(!new)>(s: seq<T>, p: T -> bool, q: T -> bool)
    ensures Keep(Keep(s, p), q) == Keep(Keep(s, q), p)
  {
    if s != [] {
      KeepCommutes(s[1..], p, q);
      var t := s[1..];
      if p(s[0]) {
        assert Keep(s, p) == [s[0]] + Keep(t, p);
        assert Keep(s, p)[1..] == Keep(t, p);
      }
      if q(s[0]) {
        assert Keep(s, q) == [s[0]] + Keep(t, q);
        assert Keep(s, q)[1..] == Keep(t, q);
      }
    }
  }

  /** Ruby's `uniq`: reading `s` from the left, an element is appended the
      first time it is seen and skipped afterwards. */
  function Uniq<T(==,!new)>(s: seq<T>): (r: seq<T>)
    ensures NoDuplicates(r)
    ensures forall x :: x in r <==> x in s
    ensures |r| <= |s|
  {
    if s == [] then []
    else
      var u := Uniq(s[..|s| - 1]);
      assert forall x :: x in s <==> x in s[..|s| - 1] || x == s[|s| - 1];
      if s[|s| - 1] in u then u else u + [s[|s| - 1]]
  }

  /** `uniq` leaves a duplicate-free sequence as it is. */
  lemma {:induction false} UniqOfDistinct<T(!new)>(s: seq<T>)
    requires NoDuplicates(s)
    ensures Uniq(s) == s
  {
    if s != [] {
      var init := s[..|s| - 1];
      assert NoDuplicates(init);
      UniqOfDistinct(init);
      assert s[|s| - 1] !in init by {
        forall k | 0 <= k < |init| ensures init[k] != s[|s| - 1] {
          assert init[k] == s[k];
        }
      }
      assert init + [s[|s| - 1]] == s;
    }
  }

  /** Ruby's `flatten` of one level, as `flat_map` produces it. */
  function Flatten<T(!new)>(ss: seq<seq<T>>): (r: seq<T>)
    ensures forall x :: x in r <==> exists i :: 0 <= i < |ss| && x in ss[i]
  {
    if ss == [] then []
    else
      var rest := Flatten(ss[1..]);
      assert forall i :: 1 <= i < |ss| ==> ss[1..][i - 1] == ss[i];
      ss[0] + rest
  }

  /** Ruby's `first`: the head, or nil for an empty array. */
  function First<T>(s: seq<T>): (r: Option<T>)
    ensures r.None? <==> s == []
    ensures r.Some? ==> r.value in s
  {
    if s == [] then None else Some(s[0])
  }

  /** Ruby's `a & b`: the elements of `a` that are also in `b`, without
      duplicates, in the order of `a`. */
  function Intersect<T(==,!new)>(a: seq<T>, b: seq<T>): (r: seq<T>)
    ensures NoDuplicates(r)
    ensures forall x :: x in r <==> x in a && x in b
  {
    Uniq(Keep(a, x => x in b))
  }

  /** A sequence whose elements all equal `v` repeats `v` from its first two places on. */
  lemma OnlyOneValue<T>(r: seq<T>, v: T)
    requires |r| >= 2
    requires forall x :: x in r ==> x == v
    ensures r[0] == r[1]
  {
    assert r[0] in r && r[1] in r;
  }

  /** `a & [v]` is `[v]` when `v` occurs in `a` and empty otherwise, so its
      `first` is `v` or nil. */
  lemma IntersectSingleton<T(!new)>(a: seq<T>, v: T)
    ensures Intersect(a, [v]) == if v in a then [v] else []
  {
    var r := Intersect(a, [v]);
    if |r| >= 2 {
      OnlyOneValue(r, v);
      assert false;
    }
    if r != [] {
      assert r[0] in r;
      assert r[0] == v && v in a;
    }
    if v in a {
      assert v in r;
      assert r == [r[0]];
    }
  }
}
