/** Cutting a list into consecutive groups under a cost limit: filling each group
    as far as it goes uses the fewest groups. */
module Greedy {
  import opened Basics

  function Sum<T>(g: seq<T>, weight: T -> nat): nat {
    if g == [] then 0 else weight(g[0]) + Sum(g[1..], weight)
  }

  /** The cost of a group whose neighbours are joined by a separator of cost `sep`. */
  function Cost<T>(g: seq<T>, weight: T -> nat, sep: nat): int {
    Sum(g, weight) + sep * (|g| - 1)
  }

  lemma {:induction false} SumConcat<T>(a: seq<T>, b: seq<T>, weight: T -> nat)
    ensures Sum(a + b, weight) == Sum(a, weight) + Sum(b, weight)
  {
    if a == [] {
      assert a + b == b;
    } else {
      assert (a + b)[1..] == a[1..] + b;
      SumConcat(a[1..], b, weight);
    }
  }

  lemma ScaleSep(sep: nat, m: int, n: int)
    requires m <= n
    ensures sep * m <= sep * n
  {
  }

  lemma ScaleStep(sep: nat, n: int)
    ensures sep * n == sep * (n - 1) + sep
  {
  }

  /** A stretch inside a group costs no more than the group. */
  lemma StretchCost<T>(pre: seq<T>, mid: seq<T>, post: seq<T>, weight: T -> nat, sep: nat)
    ensures Cost(mid, weight, sep) <= Cost(pre + mid + post, weight, sep)
  {
    SumConcat(pre + mid, post, weight);
    SumConcat(pre, mid, weight);
    ScaleSep(sep, |mid| - 1, |pre + mid + post| - 1);
  }

  ghost predicate Groups<T>(s: seq<seq<T>>) {
    forall k :: 0 <= k < |s| ==> s[k] != []
  }

  ghost predicate Within<T>(s: seq<seq<T>>, weight: T -> nat, sep: nat, limit: int) {
    forall k :: 0 <= k < |s| ==> Cost(s[k], weight, sep) <= limit
  }

  /** No group could also have taken the first element of the next. */
  ghost predicate Filled<T>(s: seq<seq<T>>, weight: T -> nat, sep: nat, limit: int)
    requires Groups(s)
  {
    forall k :: 0 <= k < |s| - 1 ==> Cost(s[k], weight, sep) + sep + weight(s[k + 1][0]) > limit
  }

  /** A filled grouping of a tail of the list never needs more groups than any
      grouping of the whole list. */
  lemma {:induction false} FilledTailIsFewest<T>(filled: seq<seq<T>>, other: seq<seq<T>>, pre: seq<T>,
                                                 weight: T -> nat, sep: nat, limit: int)
    requires Groups(filled) && Groups(other)
    requires Filled(filled, weight, sep, limit) && Within(other, weight, sep, limit)
    requires Flatten(other) == pre + Flatten(filled)
    ensures |filled| <= |other|
    decreases |other|
  {
    if filled != [] && other != [] {
      var m, s := filled[0], other[0];
      var whole := Flatten(other);
      assert whole == s + Flatten(other[1..]);
      if |pre| >= |s| {
        assert s == whole[..|s|] == pre[..|s|];
        assert Flatten(other[1..]) == whole[|s|..];
        assert Flatten(other[1..]) == pre[|s|..] + Flatten(filled);
        FilledTailIsFewest(filled, other[1..], pre[|s|..], weight, sep, limit);
      } else if |pre + m| >= |s| {
        var rest := (pre + m)[|s|..];
        assert whole == (pre + m) + Flatten(filled[1..]);
        assert Flatten(other[1..]) == whole[|s|..] == rest + Flatten(filled[1..]);
        FilledTailIsFewest(filled[1..], other[1..], rest, weight, sep, limit);
      } else {
        LongGroupIsOverfull(filled, s, pre, Flatten(other[1..]), weight, sep, limit);
      }
    }
  }

  /** A group of another cut that reaches past the first filled group is too dear. */
  lemma LongGroupIsOverfull<T>(filled: seq<seq<T>>, s: seq<T>, pre: seq<T>, after: seq<T>, weight: T -> nat, sep: nat,
                          limit: int)
    requires filled != [] && Groups(filled) && Filled(filled, weight, sep, limit)
    requires s + after == pre + Flatten(filled)
    requires |pre + filled[0]| < |s|
    ensures Cost(s, weight, sep) > limit
  {
    var m := filled[0];
    var whole := s + after;
    assert Flatten(filled) == m + Flatten(filled[1..]);
    assert Flatten(filled[1..]) != [];
    var n := filled[1];
    assert Flatten(filled[1..]) == n + Flatten(filled[2..]) by {
      assert filled[1..][1..] == filled[2..];
    }
    var k := |pre + m|;
    assert whole[k] == n[0] && s[k] == whole[k];
    assert s[..k] == whole[..k] == pre + m;
    assert s == pre + (m + [n[0]]) + s[k + 1..];
    StretchCost(pre, m + [n[0]], s[k + 1..], weight, sep);
    SumConcat(m, [n[0]], weight);
    assert Sum([n[0]], weight) == weight(n[0]);
    ScaleStep(sep, |m|);
  }

  lemma FilledIsFewest<T>(filled: seq<seq<T>>, other: seq<seq<T>>, weight: T -> nat, sep: nat, limit: int)
    requires Groups(filled) && Groups(other)
    requires Filled(filled, weight, sep, limit) && Within(other, weight, sep, limit)
    requires Flatten(other) == Flatten(filled)
    ensures |filled| <= |other|
  {
    assert Flatten(other) == [] + Flatten(filled);
    FilledTailIsFewest(filled, other, [], weight, sep, limit);
  }

  /** Filling each group as far as it goes leaves no choice. */
  lemma {:induction false} FilledIsUnique<T>(a: seq<seq<T>>, b: seq<seq<T>>, weight: T -> nat, sep: nat, limit: int)
    requires Groups(a) && Filled(a, weight, sep, limit) && Within(a, weight, sep, limit)
    requires Groups(b) && Filled(b, weight, sep, limit) && Within(b, weight, sep, limit)
    requires Flatten(a) == Flatten(b)
    ensures a == b
  {
    if a != [] && b != [] {
      var whole := Flatten(a);
      assert whole == a[0] + Flatten(a[1..]) == [] + whole;
      assert whole == b[0] + Flatten(b[1..]);
      assert [] + a[0] == a[0] && [] + b[0] == b[0];
      if |a[0]| < |b[0]| {
        LongGroupIsOverfull(a, b[0], [], Flatten(b[1..]), weight, sep, limit);
      } else if |b[0]| < |a[0]| {
        LongGroupIsOverfull(b, a[0], [], Flatten(a[1..]), weight, sep, limit);
      } else {
        assert a[0] == whole[..|a[0]|] == b[0];
        assert Flatten(a[1..]) == whole[|a[0]|..] == Flatten(b[1..]);
        FilledIsUnique(a[1..], b[1..], weight, sep, limit);
        assert a == [a[0]] + a[1..] && b == [b[0]] + b[1..];
      }
    }
  }
}
