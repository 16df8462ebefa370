/** Array operations the JavaScript code uses (`filter`, `slice(0, n)`, `reverse`, `includes`
    with spread), as functions on sequences, and the facts the rest of the model needs. */
module Seqs {
  import opened Wrappers

  function Min(a: int, b: int): int { if a <= b then a else b }

  /** No element occurs twice. */
  ghost predicate NoDuplicates<T>(s: seq<T>) {
    forall i, j :: 0 <= i < j < |s| ==> s[i] != s[j]
  }

  /** `a` is obtained from `b` by deleting elements, keeping the order of the rest. */
  ghost predicate IsSubsequence<T>(a: seq<T>, b: seq<T>)
    decreases |b|
  {
    if a == [] then true
    else if b == [] then false
    else (a[0] == b[0] && IsSubsequence(a[1..], b[1..])) || IsSubsequence(a, b[1..])
  }

  /** `s.filter(f)`: the elements satisfying `f`, in their original order. */
  function FilterBy<T(!new)>(s: seq<T>, f: T -> bool): (r: seq<T>)
    ensures |r| <= |s|
    ensures forall x :: x in r <==> x in s && f(x)
  {
    if s == [] then []
    else (if f(s[0]) then [s[0]] else []) + FilterBy(s[1..], f)
  }

  /** The position of the first element satisfying `f`, the search behind `findById` and
      `findOne` on a collection. */
  function IndexWhere<T>(s: seq<T>, f: T -> bool): (r: Option<nat>)
    ensures r.Some? ==> r.value < |s| && f(s[r.value]) && forall j :: 0 <= j < r.value ==> !f(s[j])
    ensures r.None? <==> forall j :: 0 <= j < |s| ==> !f(s[j])
  {
    if s == [] then None
    else if f(s[0]) then Some(0)
    else match IndexWhere(s[1..], f)
      case None => None
      case Some(k) => Some(k + 1)
  }

  /** `s.slice(0, n)`. */
  function Take<T>(s: seq<T>, n: nat): (r: seq<T>)
    ensures |r| == Min(n, |s|)
    ensures r == s[..|r|]
  {
    if |s| <= n then s else s[..n]
  }

  /** The elements of `s` in the opposite order (`Array.prototype.reverse`). */
  function Reverse<T>(s: seq<T>): (r: seq<T>)
    ensures |r| == |s|
  {
    if s == [] then [] else [s[|s| - 1]] + Reverse(s[..|s| - 1])
  }

  /** `prev.includes(x) ? prev.filter(item => item !== x) : [...prev, x]`: the click handler
      shared by the size picker and the catalogue filters. */
  function Toggled<T(==,!new)>(s: seq<T>, x: T): (r: seq<T>)
    ensures x in r <==> x !in s
    ensures forall y :: y != x ==> (y in r <==> y in s)
    ensures NoDuplicates(s) ==> NoDuplicates(r)
  {
    if x in s then
      FilterNoDuplicates(s, y => y != x);
      FilterBy(s, y => y != x)
    else
      s + [x]
  }

  lemma {:induction false} FilterNoDuplicates<T(!new)>(s: seq<T>, f: T -> bool)
    ensures NoDuplicates(s) ==> NoDuplicates(FilterBy(s, f))
  {
    if s != [] && NoDuplicates(s) {
      var rest := FilterBy(s[1..], f);
      assert NoDuplicates(s[1..]) by {
        forall i, j | 0 <= i < j < |s[1..]| ensures s[1..][i] != s[1..][j] {
          assert s[1..][i] == s[i + 1] && s[1..][j] == s[j + 1];
        }
      }
      FilterNoDuplicates(s[1..], f);
      assert s[0] !in s[1..] by {
        forall k | 0 <= k < |s[1..]| ensures s[1..][k] != s[0] {
          assert s[1..][k] == s[k + 1];
        }
      }
      assert s[0] !in rest;
      var r := FilterBy(s, f);
      if f(s[0]) {
        assert r == [s[0]] + rest;
        forall i, j | 0 <= i < j < |r| ensures r[i] != r[j] {
          if i == 0 {
            assert r[j] == rest[j - 1];
          } else {
            assert r[i] == rest[i - 1] && r[j] == rest[j - 1];
          }
        }
      } else {
        assert r == rest;
      }
    }
  }

  lemma {:induction false} FilterIsSubsequence<T(!new)>(s: seq<T>, f: T -> bool)
    ensures IsSubsequence(FilterBy(s, f), s)
  {
    if s != [] {
      FilterIsSubsequence(s[1..], f);
      var r := FilterBy(s, f);
      if f(s[0]) {
        assert r[0] == s[0] && r[1..] == FilterBy(s[1..], f);
      } else {
        assert r == FilterBy(s[1..], f);
      }
    }
  }

  lemma {:induction false} PrefixIsSubsequence<T>(s: seq<T>, n: nat)
    requires n <= |s|
    ensures IsSubsequence(s[..n], s)
  {
    if n > 0 {
      PrefixIsSubsequence(s[1..], n - 1);
      assert s[..n][0] == s[0] && s[..n][1..] == s[1..][..n - 1];
    }
  }

  lemma {:induction false} SubsequenceTransitive<T>(a: seq<T>, b: seq<T>, c: seq<T>)
    requires IsSubsequence(a, b) && IsSubsequence(b, c)
    ensures IsSubsequence(a, c)
    decreases |c|
  {
    if a != [] {
      if b[0] == c[0] && IsSubsequence(b[1..], c[1..]) {
        if a[0] == b[0] && IsSubsequence(a[1..], b[1..]) {
          SubsequenceTransitive(a[1..], b[1..], c[1..]);
        } else {
          SubsequenceTransitive(a, b[1..], c[1..]);
        }
      } else {
        SubsequenceTransitive(a, b, c[1..]);
      }
    }
  }

  /** A subsequence has no more elements than the sequence it is taken from, and each of
      them occurs there. */
  lemma {:induction false} SubsequenceContained<T>(a: seq<T>, b: seq<T>)
    requires IsSubsequence(a, b)
    ensures |a| <= |b|
    ensures forall x :: x in a ==> x in b
    decreases |b|
  {
    if a != [] {
      if a[0] == b[0] && IsSubsequence(a[1..], b[1..]) {
        SubsequenceContained(a[1..], b[1..]);
        forall x | x in a ensures x in b {
          if x != a[0] {
            assert x in a[1..];
          }
        }
      } else {
        SubsequenceContained(a, b[1..]);
      }
    }
  }

  /** Filtering twice keeps exactly what one filter with the conjunction keeps. */
  lemma {:induction false} FilterTwice<T(!new)>(s: seq<T>, f: T -> bool, g: T -> bool, h: T -> bool)
    requires forall x :: h(x) == (f(x) && g(x))
    ensures FilterBy(FilterBy(s, f), g) == FilterBy(s, h)
  {
    if s != [] {
      FilterTwice(s[1..], f, g, h);
      if f(s[0]) {
        assert FilterBy(s, f) == [s[0]] + FilterBy(s[1..], f);
        assert FilterBy(s, f)[1..] == FilterBy(s[1..], f);
      } else {
        assert FilterBy(s, f) == FilterBy(s[1..], f);
      }
    }
  }

  /** Two tests that agree everywhere keep the same elements. */
  lemma {:induction false} FilterCongruent<T(!new)>(s: seq<T>, f: T -> bool, g: T -> bool)
    requires forall x :: f(x) == g(x)
    ensures FilterBy(s, f) == FilterBy(s, g)
  {
    if s != [] {
      FilterCongruent(s[1..], f, g);
    }
  }

  lemma {:induction false} ReverseAt<T>(s: seq<T>, i: nat)
    requires i < |s|
    ensures Reverse(s)[i] == s[|s| - 1 - i]
  {
    if i > 0 {
      ReverseAt(s[..|s| - 1], i - 1);
    }
  }

  /** A test every element passes keeps the whole sequence. */
  lemma {:induction false} FilterKeepsAll<T(!new)>(s: seq<T>, f: T -> bool)
    requires forall x :: x in s ==> f(x)
    ensures FilterBy(s, f) == s
  {
    if s != [] {
      FilterKeepsAll(s[1..], f);
    }
  }

  /** A pass that runs only when `active` keeps what one pass with `active ==> g` keeps. */
  lemma FilterWhen<T(!new)>(s: seq<T>, active: bool, g: T -> bool, h: T -> bool)
    requires forall x :: h(x) == (active ==> g(x))
    ensures (if active then FilterBy(s, g) else s) == FilterBy(s, h)
  {
    if active {
      FilterCongruent(s, h, g);
    } else {
      FilterKeepsAll(s, h);
    }
  }

  /** An element the test rejects, added at the end, is filtered away again. */
  lemma {:induction false} FilterDropsLast<T(!new)>(s: seq<T>, x: T, f: T -> bool)
    requires !f(x)
    ensures FilterBy(s + [x], f) == FilterBy(s, f)
  {
    if s == [] {
      assert [x][1..] == [];
    } else {
      assert (s + [x])[1..] == s[1..] + [x];
      FilterDropsLast(s[1..], x, f);
    }
  }

  /** Choosing an absent value and then un-choosing it restores the selection exactly. */
  lemma ToggledTwice<T(!new)>(s: seq<T>, x: T)
    requires x !in s
    ensures Toggled(Toggled(s, x), x) == s
  {
    assert x in s + [x];
    FilterDropsLast(s, x, y => y != x);
    FilterKeepsAll(s, y => y != x);
  }
}
