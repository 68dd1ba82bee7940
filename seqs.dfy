/** Sequence helpers: the model of Python's filtering list comprehension
    `[x for x in s if p(x)]` and the facts about it that the source relies on
    (membership, multiplicity, order, the first match). */
module Seqs {
  import opened Wrappers

  /** `[x for x in s if p(x)]`: the elements of `s` satisfying `p`, in order. */
  function Filter<T>(s: seq<T>, p: T -> bool): (r: seq<T>)
    ensures |r| <= |s|
    ensures forall i :: 0 <= i < |r| ==> r[i] in s && p(r[i])
    ensures forall i :: 0 <= i < |s| && p(s[i]) ==> s[i] in r
    decreases |s|
  {
    if s == [] then []
    else if p(s[0]) then [s[0]] + Filter(s[1..], p)
    else Filter(s[1..], p)
  }

  /** `a` is `b` with some elements removed, the rest kept in order. */
  ghost predicate IsSubsequence<T>(a: seq<T>, b: seq<T>)
    decreases |b|
  {
    if a == [] then true
    else if b == [] then false
    else (a[0] == b[0] && IsSubsequence(a[1..], b[1..])) || IsSubsequence(a, b[1..])
  }

  /** `x` is the first element of `s`, in order, that satisfies `p`. */
  ghost predicate IsFirstSatisfying<T>(s: seq<T>, p: T -> bool, x: T)
  {
    exists k :: 0 <= k < |s| && s[k] == x && p(x) && forall j :: 0 <= j < k ==> !p(s[j])
  }

  /** The first element satisfying `p` is unique: it is the element at the
      given index when that is the first index satisfying `p`. */
  lemma FirstSatisfyingAt<T>(s: seq<T>, p: T -> bool, x: T, k: nat)
    requires IsFirstSatisfying(s, p, x)
    requires k < |s| && p(s[k]) && forall j :: 0 <= j < k ==> !p(s[j])
    ensures x == s[k]
  {
    var i :| 0 <= i < |s| && s[i] == x && p(x) && forall j :: 0 <= j < i ==> !p(s[j]);
    assert !(i < k) && !(k < i);
  }

  /** Nothing is dropped or duplicated: an element occurs in the result exactly as
      often as in the input when it satisfies `p`, and never otherwise. */
  lemma {:induction false} FilterMultiplicity<T>(s: seq<T>, p: T -> bool, x: T)
    ensures multiset(Filter(s, p))[x] == if p(x) then multiset(s)[x] else 0
    decreases |s|
  {
    if s != [] {
      FilterMultiplicity(s[1..], p, x);
      assert s == [s[0]] + s[1..];
      assert multiset(s) == multiset([s[0]]) + multiset(s[1..]);
      if p(s[0]) {
        assert multiset(Filter(s, p)) == multiset([s[0]]) + multiset(Filter(s[1..], p));
      }
    }
  }

  /** The result keeps the input order. */
  lemma {:induction false} FilterIsSubsequence<T>(s: seq<T>, p: T -> bool)
    ensures IsSubsequence(Filter(s, p), s)
    decreases |s|
  {
    if s != [] {
      FilterIsSubsequence(s[1..], p);
      var rest := Filter(s[1..], p);
      if p(s[0]) {
        assert Filter(s, p) == [s[0]] + rest;
        assert ([s[0]] + rest)[1..] == rest;
      } else {
        SubsequenceOfTail(rest, s);
      }
    }
  }

  lemma {:induction false} SubsequenceOfTail<T>(a: seq<T>, b: seq<T>)
    requires b != [] && IsSubsequence(a, b[1..])
    ensures IsSubsequence(a, b)
  {
  }

  /** The head of the filtered sequence is the first element of `s` satisfying `p`,
      and the filtered sequence is empty exactly when no element satisfies `p`. */
  lemma {:induction false} FilterHead<T>(s: seq<T>, p: T -> bool)
    ensures Filter(s, p) == [] <==> forall i :: 0 <= i < |s| ==> !p(s[i])
    ensures Filter(s, p) != [] ==> IsFirstSatisfying(s, p, Filter(s, p)[0])
    decreases |s|
  {
    if s != [] {
      FilterHead(s[1..], p);
      if p(s[0]) {
        assert s[0] == Filter(s, p)[0];
      } else {
        var r := Filter(s, p);
        assert r == Filter(s[1..], p);
        if r != [] {
          var k :| 0 <= k < |s[1..]| && s[1..][k] == r[0] && p(r[0])
                   && forall j :: 0 <= j < k ==> !p(s[1..][j]);
          assert s[k + 1] == r[0];
          assert forall j :: 0 <= j < k + 1 ==> !p(s[j]) by {
            forall j | 0 <= j < k + 1 ensures !p(s[j]) {
              if j > 0 { assert s[j] == s[1..][j - 1]; }
            }
          }
        }
        forall i | 0 <= i < |s| && (forall i' :: 0 <= i' < |s[1..]| ==> !p(s[1..][i']))
          ensures !p(s[i])
        {
          if i > 0 { assert s[i] == s[1..][i - 1]; }
        }
      }
    }
  }

  /** Filtering twice is filtering once by both conditions. */
  lemma {:induction false} FilterFilter<T>(s: seq<T>, p: T -> bool, q: T -> bool, pq: T -> bool)
    requires forall x :: pq(x) == (p(x) && q(x))
    ensures Filter(Filter(s, p), q) == Filter(s, pq)
    decreases |s|
  {
    if s != [] {
      FilterFilter(s[1..], p, q, pq);
      if p(s[0]) {
        assert Filter(s, p) == [s[0]] + Filter(s[1..], p);
        assert ([s[0]] + Filter(s[1..], p))[1..] == Filter(s[1..], p);
      }
    }
  }

  /** Filtering by a condition every element already satisfies changes nothing. */
  lemma {:induction false} FilterAll<T>(s: seq<T>, p: T -> bool)
    requires forall i :: 0 <= i < |s| ==> p(s[i])
    ensures Filter(s, p) == s
    decreases |s|
  {
    if s != [] {
      FilterAll(s[1..], p);
      assert [s[0]] + s[1..] == s;
    }
  }

  /** `s[k]` is the one element of `s` satisfying `p`. */
  predicate UniqueAt<T>(s: seq<T>, p: T -> bool, k: int) {
    0 <= k < |s| && p(s[k]) && forall j :: 0 <= j < |s| && j != k ==> !p(s[j])
  }

  /** The filtered sequence has length one exactly when a single element of `s`
      satisfies `p`. */
  lemma {:induction false} FilterSingleton<T>(s: seq<T>, p: T -> bool)
    ensures |Filter(s, p)| == 1 <==> exists k :: UniqueAt(s, p, k)
    decreases |s|
  {
    if s != [] {
      var rest := s[1..];
      FilterSingleton(rest, p);
      FilterHead(rest, p);
      if p(s[0]) {
        assert Filter(s, p) == [s[0]] + Filter(rest, p);
        if |Filter(s, p)| == 1 {
          forall j | 0 <= j < |s| && j != 0 ensures !p(s[j]) {
            assert s[j] == rest[j - 1];
          }
          assert UniqueAt(s, p, 0);
        } else {
          var i :| 0 <= i < |rest| && p(rest[i]);
          forall k | 0 <= k < |s| ensures !UniqueAt(s, p, k) {
            if k == 0 {
              assert s[i + 1] == rest[i];
            } else {
              assert p(s[0]);
            }
          }
        }
      } else {
        assert Filter(s, p) == Filter(rest, p);
        if |Filter(s, p)| == 1 {
          var k :| UniqueAt(rest, p, k);
          forall j | 0 <= j < |s| && j != k + 1 ensures !p(s[j]) {
            if j > 0 { assert s[j] == rest[j - 1]; }
          }
          assert s[k + 1] == rest[k];
          assert UniqueAt(s, p, k + 1);
        } else {
          forall k | 0 <= k < |s| ensures !UniqueAt(s, p, k) {
            if k > 0 && UniqueAt(s, p, k) {
              forall j | 0 <= j < |rest| && j != k - 1 ensures !p(rest[j]) {
                assert rest[j] == s[j + 1];
              }
              assert rest[k - 1] == s[k];
              assert UniqueAt(rest, p, k - 1);
            }
          }
        }
      }
    }
  }

  /** Filtering by a condition no element satisfies leaves nothing. */
  lemma {:induction false} FilterNone<T>(s: seq<T>, p: T -> bool)
    requires forall i :: 0 <= i < |s| ==> !p(s[i])
    ensures Filter(s, p) == []
    decreases |s|
  {
    if s != [] {
      FilterNone(s[1..], p);
    }
  }

  /** Filtering distributes over concatenation. */
  lemma {:induction false} FilterConcat<T>(a: seq<T>, b: seq<T>, p: T -> bool)
    ensures Filter(a + b, p) == Filter(a, p) + Filter(b, p)
    decreases |a|
  {
    if a == [] {
      assert a + b == b;
    } else {
      var ab := a + b;
      assert ab != [] && ab[0] == a[0] && ab[1..] == a[1..] + b;
      FilterConcat(a[1..], b, p);
      if p(a[0]) {
        assert Filter(ab, p) == [a[0]] + Filter(a[1..] + b, p);
        assert Filter(a, p) == [a[0]] + Filter(a[1..], p);
      } else {
        assert Filter(ab, p) == Filter(a[1..] + b, p);
        assert Filter(a, p) == Filter(a[1..], p);
      }
    }
  }

  /** The step of a filtering loop: one more element is kept exactly when it
      satisfies `p`. */
  lemma FilterSnoc<T>(s: seq<T>, x: T, p: T -> bool)
    ensures Filter(s + [x], p) == Filter(s, p) + (if p(x) then [x] else [])
  {
    FilterConcat(s, [x], p);
    assert [x][1..] == [];
  }

  /** The pages of a paginated listing, one after the other. */
  function Flatten<T>(pages: seq<seq<T>>): seq<T>
    decreases |pages|
  {
    if pages == [] then [] else Flatten(pages[..|pages| - 1]) + pages[|pages| - 1]
  }

  /** An element is listed exactly when some page holds it. */
  lemma {:induction false} FlattenMembers<T>(pages: seq<seq<T>>)
    ensures forall x :: x in Flatten(pages) <==> exists k :: 0 <= k < |pages| && x in pages[k]
    decreases |pages|
  {
    if pages != [] {
      var init := pages[..|pages| - 1];
      FlattenMembers(init);
      forall x ensures x in Flatten(pages) <==> exists k :: 0 <= k < |pages| && x in pages[k] {
        if x in Flatten(init) {
          var k :| 0 <= k < |init| && x in init[k];
          assert pages[k] == init[k];
        }
        if exists k :: 0 <= k < |pages| && x in pages[k] {
          var k :| 0 <= k < |pages| && x in pages[k];
          if k < |init| {
            assert init[k] == pages[k];
          }
        }
      }
    }
  }

  /** The page loop `items += page["..."]` of a paginated listing. */
  method Collect<T>(pages: seq<seq<T>>) returns (items: seq<T>)
    ensures items == Flatten(pages)
  {
    items := [];
    for i := 0 to |pages|
      invariant items == Flatten(pages[..i])
    {
      assert pages[..i + 1][..i] == pages[..i];
      items := items + pages[i];
    }
    assert pages[..|pages|] == pages;
  }

  /** The index a `for x in s: if p(x): return ...` search stops at, None when
      it runs to the end. */
  function FirstWhere<T>(s: seq<T>, p: T -> bool): (r: Option<nat>)
    ensures r.None? <==> forall k :: 0 <= k < |s| ==> !p(s[k])
    ensures r.Some? ==> r.value < |s| && p(s[r.value]) && forall j :: 0 <= j < r.value ==> !p(s[j])
    decreases |s|
  {
    if s == [] then None
    else if p(s[0]) then Some(0)
    else
      var rest := FirstWhere(s[1..], p);
      assert forall k :: 1 <= k < |s| ==> s[k] == s[1..][k - 1];
      if rest.None? then None else Some(rest.value + 1)
  }
}
