/** Generic list operations shared by the pages: JavaScript's `Array.prototype.filter`,
    `slice(0, n)`, and the "remove if present, append if absent" toggle that the pages
    apply to their selection lists. */
module Lists {

  /** `a` can be obtained from `b` by deleting elements: it keeps `b`'s relative order. */
  predicate IsSubsequence<T(==)>(a: seq<T>, b: seq<T>)
    decreases |b|
  {
    if a == [] then true
    else if b == [] then false
    else (a[0] == b[0] && IsSubsequence(a[1..], b[1..])) || IsSubsequence(a, b[1..])
  }

  /** No value occurs twice. */
  predicate NoDup<T(==)>(s: seq<T>) {
    forall i, j :: 0 <= i < j < |s| ==> s[i] != s[j]
  }

  /** `s.filter(p)`: the elements satisfying `p`, each as often as in `s`, in their original
      order. */
  function Filter<T(==)>(s: seq<T>, p: T -> bool): (r: seq<T>)
    ensures |r| <= |s|
    ensures forall x :: x in r ==> x in s && p(x)
    ensures forall x :: x in s && p(x) ==> x in r
    ensures forall x {:trigger multiset(r)[x]} | x in s :: multiset(r)[x] == if p(x) then multiset(s)[x] else 0
    ensures IsSubsequence(r, s)
  {
    if s == [] then []
    else
      assert s == [s[0]] + s[1..];
      if p(s[0]) then [s[0]] + Filter(s[1..], p)
      else Filter(s[1..], p)
  }

  /** `s.filter(y => y !== x)`. */
  function RemoveAll<T(==)>(s: seq<T>, x: T): (r: seq<T>)
    ensures x !in r
    ensures forall y :: y in r ==> y in s
    ensures forall y :: y in s && y != x ==> y in r
    ensures forall y {:trigger multiset(r)[y]} | y in s :: multiset(r)[y] == if y == x then 0 else multiset(s)[y]
    ensures IsSubsequence(r, s)
  {
    Filter(s, y => y != x)
  }

  /** `s.includes(x) ? s.filter(y => y !== x) : [...s, x]`. */
  function Toggle<T(==)>(s: seq<T>, x: T): (r: seq<T>)
    ensures x in s ==> r == RemoveAll(s, x)
    ensures x !in s ==> |r| == |s| + 1 && r[..|s|] == s && r[|s|] == x
    ensures x in r <==> x !in s
  {
    if x in s then RemoveAll(s, x) else s + [x]
  }

  /** `s.slice(0, n)`. */
  function Take<T>(s: seq<T>, n: nat): (r: seq<T>)
    ensures |r| == if n < |s| then n else |s|
    ensures forall i :: 0 <= i < |r| ==> r[i] == s[i]
  {
    if n < |s| then s[..n] else s
  }

  lemma {:induction false} SubsequenceReflexive<T>(s: seq<T>)
    ensures IsSubsequence(s, s)
  {
    if s != [] {
      SubsequenceReflexive(s[1..]);
    }
  }

  lemma {:induction false} SubsequenceConsRight<T>(a: seq<T>, x: T, b: seq<T>)
    requires IsSubsequence(a, b)
    ensures IsSubsequence(a, [x] + b)
  {
    if a != [] {
      assert ([x] + b)[1..] == b;
    }
  }

  /** A prefix is a subsequence. */
  lemma {:induction false} PrefixIsSubsequence<T>(a: seq<T>, b: seq<T>)
    requires a <= b
    ensures IsSubsequence(a, b)
  {
    if a != [] {
      PrefixIsSubsequence(a[1..], b[1..]);
    }
  }

  /** Being a subsequence is transitive. */
  lemma {:induction false} SubsequenceTransitive<T>(a: seq<T>, b: seq<T>, c: seq<T>)
    requires IsSubsequence(a, b) && IsSubsequence(b, c)
    ensures IsSubsequence(a, c)
    decreases |c|
  {
    if a != [] && c != [] {
      if b[0] == c[0] && IsSubsequence(b[1..], c[1..]) {
        if a[0] == b[0] && IsSubsequence(a[1..], b[1..]) {
          SubsequenceTransitive(a[1..], b[1..], c[1..]);
        } else {
          SubsequenceTransitive(a, b[1..], c[1..]);
        }
      } else {
        SubsequenceTransitive(a, b, c[1..]);
      }
    }
  }

  /** Filtering with a predicate that the elements of `s` cannot tell apart from `q`
      gives the same list. */
  lemma {:induction false} FilterCongruent<T>(s: seq<T>, p: T -> bool, q: T -> bool)
    requires forall x :: x in s ==> p(x) == q(x)
    ensures Filter(s, p) == Filter(s, q)
  {
    if s != [] {
      FilterCongruent(s[1..], p, q);
    }
  }

  /** A stronger predicate keeps a subsequence of what a weaker one keeps. */
  lemma {:induction false} FilterMonotone<T>(s: seq<T>, p: T -> bool, q: T -> bool)
    requires forall x :: x in s && p(x) ==> q(x)
    ensures IsSubsequence(Filter(s, p), Filter(s, q))
  {
    if s != [] {
      FilterMonotone(s[1..], p, q);
      var fp, fq := Filter(s[1..], p), Filter(s[1..], q);
      if p(s[0]) {
        assert Filter(s, p) == [s[0]] + fp && Filter(s, q) == [s[0]] + fq;
        assert ([s[0]] + fp)[1..] == fp && ([s[0]] + fq)[1..] == fq;
      } else if q(s[0]) {
        SubsequenceConsRight(fp, s[0], fq);
      }
    }
  }

  /** A predicate every element satisfies keeps the whole list. */
  lemma {:induction false} FilterKeepsAll<T>(s: seq<T>, p: T -> bool)
    requires forall x :: x in s ==> p(x)
    ensures Filter(s, p) == s
  {
    if s != [] {
      FilterKeepsAll(s[1..], p);
      assert [s[0]] + s[1..] == s;
    }
  }

  lemma {:induction false} FilterAppend<T>(s: seq<T>, t: seq<T>, p: T -> bool)
    ensures Filter(s + t, p) == Filter(s, p) + Filter(t, p)
  {
    if s == [] {
      assert s + t == t;
    } else {
      var st := s + t;
      assert st != [] && st[0] == s[0] && st[1..] == s[1..] + t;
      FilterAppend(s[1..], t, p);
      if p(s[0]) {
        calc {
          Filter(st, p);
          [s[0]] + Filter(s[1..] + t, p);
          [s[0]] + (Filter(s[1..], p) + Filter(t, p));
          ([s[0]] + Filter(s[1..], p)) + Filter(t, p);
        }
      } else {
        assert Filter(st, p) == Filter(s[1..] + t, p);
      }
    }
  }

  /** Filtering twice with the same predicate is filtering once. */
  lemma FilterIdempotent<T>(s: seq<T>, p: T -> bool)
    ensures Filter(Filter(s, p), p) == Filter(s, p)
  {
    FilterKeepsAll(Filter(s, p), p);
  }

  /** The elements of `s` other than its last one, when its last one is `x` and occurs once. */
  lemma {:induction false} RemoveLastOccurrence<T>(s: seq<T>, x: T)
    requires NoDup(s) && s != [] && s[|s| - 1] == x
    ensures RemoveAll(s, x) == s[..|s| - 1]
  {
    var init := s[..|s| - 1];
    assert s == init + [x];
    assert forall y :: y in init ==> y != x by {
      forall y | y in init ensures y != x {
        var i :| 0 <= i < |init| && init[i] == y;
        assert s[i] == y && i < |s| - 1;
      }
    }
    FilterAppend(init, [x], y => y != x);
    FilterKeepsAll(init, y => y != x);
  }

  lemma {:induction false} NoDupAppend<T>(s: seq<T>, x: T)
    requires NoDup(s) && x !in s
    ensures NoDup(s + [x])
  {
    forall i, j | 0 <= i < j < |s + [x]| ensures (s + [x])[i] != (s + [x])[j] {
      if j == |s| {
        assert (s + [x])[i] == s[i];
      } else {
        assert (s + [x])[i] == s[i] && (s + [x])[j] == s[j];
      }
    }
  }

  lemma {:induction false} NoDupFilter<T>(s: seq<T>, p: T -> bool)
    requires NoDup(s)
    ensures NoDup(Filter(s, p))
  {
    if s != [] {
      assert NoDup(s[1..]) by {
        forall i, j | 0 <= i < j < |s[1..]| ensures s[1..][i] != s[1..][j] {
          assert s[1..][i] == s[i + 1] && s[1..][j] == s[j + 1];
        }
      }
      NoDupFilter(s[1..], p);
      var rest := Filter(s[1..], p);
      if p(s[0]) {
        assert s[0] !in s[1..];
        forall i, j | 0 <= i < j < |[s[0]] + rest| ensures ([s[0]] + rest)[i] != ([s[0]] + rest)[j] {
          if i == 0 {
            assert ([s[0]] + rest)[j] == rest[j - 1];
          } else {
            assert ([s[0]] + rest)[i] == rest[i - 1] && ([s[0]] + rest)[j] == rest[j - 1];
          }
        }
      }
    }
  }

  /** Toggling keeps a list duplicate-free. */
  lemma ToggleKeepsNoDup<T>(s: seq<T>, x: T)
    requires NoDup(s)
    ensures NoDup(Toggle(s, x))
  {
    if x in s {
      NoDupFilter(s, y => y != x);
    } else {
      NoDupAppend(s, x);
    }
  }

  /** Toggling an absent value and toggling it again restores the list exactly. */
  lemma ToggleAbsentTwice<T>(s: seq<T>, x: T)
    requires x !in s
    ensures Toggle(Toggle(s, x), x) == s
  {
    FilterAppend(s, [x], y => y != x);
    FilterKeepsAll(s, y => y != x);
  }

  /** On a duplicate-free list, toggling the same value twice restores the list exactly when
      the value was absent or was the last element: a present value that is not last comes
      back at the end, so the list order changes. */
  lemma ToggleTwiceRestores<T>(s: seq<T>, x: T)
    requires NoDup(s)
    ensures Toggle(Toggle(s, x), x) == s <==> (x !in s || s[|s| - 1] == x)
  {
    if x !in s {
      ToggleAbsentTwice(s, x);
    } else {
      var once := RemoveAll(s, x);
      assert Toggle(Toggle(s, x), x) == once + [x];
      if s[|s| - 1] == x {
        RemoveLastOccurrence(s, x);
        assert s[..|s| - 1] + [x] == s;
      } else {
        assert (once + [x])[|once + [x]| - 1] == x;
      }
    }
  }

  /** Toggling twice never changes which values are selected. */
  lemma ToggleTwiceSameElements<T>(s: seq<T>, x: T)
    ensures forall y :: y in Toggle(Toggle(s, x), x) ==> y in s
    ensures forall y :: y in s ==> y in Toggle(Toggle(s, x), x)
  {
  }

  /** Removing a value that is absent changes nothing. */
  lemma RemoveAbsent<T>(s: seq<T>, x: T)
    requires x !in s
    ensures RemoveAll(s, x) == s
  {
    FilterKeepsAll(s, y => y != x);
  }
}
