/** The two list operations the engine relies on: List<T>.Remove, which drops
    the first occurrence of an element, and removing a whole batch of elements. */
module Lists {

  /** No two elements of `s` are equal. */
  predicate Distinct<T(==)>(s: seq<T>) {
    forall i, j | 0 <= i < j < |s| :: s[i] != s[j]
  }

  /** List<T>.Remove: `s` without the first occurrence of `x`; `s` itself when `x` does not occur. */
  function RemoveFirst<T(==)>(s: seq<T>, x: T): (r: seq<T>)
    ensures x !in s ==> r == s
    ensures x in s ==> |r| == |s| - 1
  {
    if s == [] then []
    else if s[0] == x then
      assert s == [s[0]] + s[1..];
      s[1..]
    else
      assert s == [s[0]] + s[1..];
      [s[0]] + RemoveFirst(s[1..], x)
  }

  /** The first occurrence of `x` in `s`. */
  function IndexOf<T(==)>(s: seq<T>, x: T): (i: nat)
    requires x in s
    ensures i < |s| && s[i] == x && x !in s[..i]
  {
    if s[0] == x then 0 else
      var i := 1 + IndexOf(s[1..], x);
      assert s[..i] == [s[0]] + s[1..][..i - 1];
      i
  }

  /** List<T>.Remove cuts out exactly the first occurrence and keeps the order of the rest. */
  lemma {:induction false} RemoveFirstSplit<T>(s: seq<T>, x: T)
    requires x in s
    ensures RemoveFirst(s, x) == s[..IndexOf(s, x)] + s[IndexOf(s, x) + 1..]
  {
    if s[0] != x {
      var t := s[1..];
      RemoveFirstSplit(t, x);
      var i := IndexOf(t, x);
      assert IndexOf(s, x) == i + 1;
      assert RemoveFirst(s, x) == [s[0]] + RemoveFirst(t, x);
      assert s[..i + 1] == [s[0]] + t[..i];
      assert s[i + 2..] == t[i + 1..];
    }
  }

  /** The elements of `s` that are not in `xs`, in their order in `s`. */
  function Without<T(==)>(s: seq<T>, xs: seq<T>): (r: seq<T>)
    ensures |r| <= |s|
  {
    if s == [] then []
    else (if s[0] in xs then [] else [s[0]]) + Without(s[1..], xs)
  }

  /** Without keeps exactly the elements of `s` that are not in `xs`. */
  lemma {:induction false} WithoutMembers<T>(s: seq<T>, xs: seq<T>, x: T)
    ensures x in Without(s, xs) <==> x in s && x !in xs
  {
    if s != [] {
      WithoutMembers(s[1..], xs, x);
      assert s == [s[0]] + s[1..];
    }
  }

  lemma {:induction false} WithoutNothing<T>(s: seq<T>)
    ensures Without(s, []) == s
  {
    if s != [] {
      WithoutNothing(s[1..]);
    }
  }

  lemma {:induction false} WithoutAbsent<T>(s: seq<T>, xs: seq<T>, x: T)
    requires x !in s
    ensures Without(s, xs + [x]) == Without(s, xs)
  {
    if s != [] {
      WithoutAbsent(s[1..], xs, x);
    }
  }

  /** On a list without repeated elements, removing the elements of `xs` one
      after another with List<T>.Remove removes every occurrence of each. */
  lemma {:induction false} RemoveFirstWithout<T>(s: seq<T>, xs: seq<T>, x: T)
    requires Distinct(s)
    ensures RemoveFirst(Without(s, xs), x) == Without(s, xs + [x])
  {
    if s != [] {
      var a, t := s[0], s[1..];
      assert Distinct(t) by {
        forall i, j | 0 <= i < j < |t| ensures t[i] != t[j] {
          assert t[i] == s[i + 1] && t[j] == s[j + 1];
        }
      }
      assert a !in t by {
        forall i | 0 <= i < |t| ensures t[i] != a {
          assert t[i] == s[i + 1];
        }
      }
      assert a in xs + [x] <==> a in xs || a == x;
      if a in xs {
        assert Without(s, xs) == Without(t, xs);
        assert Without(s, xs + [x]) == Without(t, xs + [x]);
        RemoveFirstWithout(t, xs, x);
      } else if a == x {
        var w := Without(t, xs);
        assert Without(s, xs) == [a] + w;
        assert ([a] + w)[1..] == w;
        assert Without(s, xs + [x]) == Without(t, xs + [x]);
        WithoutAbsent(t, xs, x);
      } else {
        var w := Without(t, xs);
        assert Without(s, xs) == [a] + w;
        assert ([a] + w)[1..] == w;
        assert RemoveFirst([a] + w, x) == [a] + RemoveFirst(w, x);
        assert Without(s, xs + [x]) == [a] + Without(t, xs + [x]);
        RemoveFirstWithout(t, xs, x);
      }
    }
  }

  /** Cutting one position out of a list without repeats leaves it without repeats. */
  lemma DistinctCut<T>(s: seq<T>, i: nat)
    requires Distinct(s) && i < |s|
    ensures Distinct(s[..i] + s[i + 1..])
  {
    var r := s[..i] + s[i + 1..];
    forall a, b | 0 <= a < b < |r| ensures r[a] != r[b] {
      if b < i {
        assert r[a] == s[a] && r[b] == s[b];
      } else if a < i {
        assert r[a] == s[a] && r[b] == s[b + 1];
      } else {
        assert r[a] == s[a + 1] && r[b] == s[b + 1];
      }
    }
  }

  /** List<T>.Remove keeps a list free of repeated elements. */
  lemma {:induction false} RemoveFirstDistinct<T>(s: seq<T>, x: T)
    requires Distinct(s)
    ensures Distinct(RemoveFirst(s, x))
  {
    if x in s {
      RemoveFirstSplit(s, x);
      DistinctCut(s, IndexOf(s, x));
    }
  }
}
