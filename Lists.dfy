/** The list operations the pages use: Array.filter and the "first k items, then
    +N more" preview built from slice and a length test. */
module Lists {

  datatype Option<T> = None | Some(value: T)

  /** Array.filter: the elements that satisfy p, in their original order. */
  function Filter<T>(s: seq<T>, p: T -> bool): (r: seq<T>)
    ensures |r| <= |s|
    ensures forall i :: 0 <= i < |r| ==> r[i] in s && p(r[i])
    ensures forall i :: 0 <= i < |s| && p(s[i]) ==> s[i] in r
  {
    if s == [] then []
    else if p(s[0]) then [s[0]] + Filter(s[1..], p)
    else Filter(s[1..], p)
  }

  /** r can be obtained from s by deleting elements, without reordering the rest. */
  ghost predicate IsSubsequence<T>(r: seq<T>, s: seq<T>)
    decreases |s|
  {
    r == [] || (s != [] && ((r[0] == s[0] && IsSubsequence(r[1..], s[1..])) || IsSubsequence(r, s[1..])))
  }

  /** r holds each element that satisfies p exactly as often as s does, and nothing else. */
  ghost predicate SelectsExactly<T(!new)>(r: seq<T>, s: seq<T>, p: T -> bool) {
    forall x :: multiset(r)[x] == if p(x) then multiset(s)[x] else 0
  }

  lemma {:induction false} FilterIsSubsequence<T>(s: seq<T>, p: T -> bool)
    ensures IsSubsequence(Filter(s, p), s)
  {
    if s != [] {
      FilterIsSubsequence(s[1..], p);
      if p(s[0]) {
        assert Filter(s, p)[1..] == Filter(s[1..], p);
      }
    }
  }

  lemma {:induction false} FilterSelectsExactly<T(!new)>(s: seq<T>, p: T -> bool)
    ensures SelectsExactly(Filter(s, p), s, p)
  {
    if s != [] {
      FilterSelectsExactly(s[1..], p);
      assert s == [s[0]] + s[1..];
      assert multiset(s) == multiset{s[0]} + multiset(s[1..]);
    }
  }

  lemma {:induction false} SubsequenceMultiset<T>(r: seq<T>, s: seq<T>)
    requires IsSubsequence(r, s)
    ensures multiset(r) <= multiset(s)
    decreases |s|
  {
    if r != [] {
      assert s == [s[0]] + s[1..];
      if r[0] == s[0] && IsSubsequence(r[1..], s[1..]) {
        SubsequenceMultiset(r[1..], s[1..]);
        assert r == [r[0]] + r[1..];
      } else {
        SubsequenceMultiset(r, s[1..]);
      }
    }
  }

  /** Filter(s, p) is the only subsequence of s that selects exactly the elements
      satisfying p. */
  lemma {:induction false} FilterUnique<T(!new)>(s: seq<T>, p: T -> bool, r: seq<T>)
    requires IsSubsequence(r, s) && SelectsExactly(r, s, p)
    ensures r == Filter(s, p)
    decreases |s|
  {
    if s == [] {
      assert r == [];
    } else {
      var h := s[0];
      assert s == [h] + s[1..];
      assert multiset(s) == multiset{h} + multiset(s[1..]);
      if r != [] && r[0] == h && IsSubsequence(r[1..], s[1..]) {
        assert r == [h] + r[1..];
        assert multiset(r) == multiset{h} + multiset(r[1..]);
        assert p(h) by {
          assert multiset(r)[h] > 0;
        }
        FilterUnique(s[1..], p, r[1..]);
      } else {
        assert IsSubsequence(r, s[1..]);
        SubsequenceMultiset(r, s[1..]);
        assert !p(h) by {
          assert multiset(r)[h] <= multiset(s[1..])[h] < multiset(s)[h];
        }
        FilterUnique(s[1..], p, r);
      }
    }
  }

  /** The filtered list is exactly the in-order selection of the elements satisfying p:
      nothing reordered, duplicated, altered or dropped. */
  lemma FilterCharacterized<T(!new)>(s: seq<T>, p: T -> bool, r: seq<T>)
    ensures r == Filter(s, p) <==> IsSubsequence(r, s) && SelectsExactly(r, s, p)
  {
    FilterIsSubsequence(s, p);
    FilterSelectsExactly(s, p);
    if IsSubsequence(r, s) && SelectsExactly(r, s, p) {
      FilterUnique(s, p, r);
    }
  }

  lemma {:induction false} FilterIdempotent<T>(s: seq<T>, p: T -> bool)
    ensures Filter(Filter(s, p), p) == Filter(s, p)
  {
    if s != [] {
      FilterIdempotent(s[1..], p);
      if p(s[0]) {
        assert Filter(s, p)[0] == s[0] && Filter(s, p)[1..] == Filter(s[1..], p);
      }
    }
  }

  lemma {:induction false} FilterKeepsAll<T>(s: seq<T>, p: T -> bool)
    requires forall i :: 0 <= i < |s| ==> p(s[i])
    ensures Filter(s, p) == s
  {
    if s != [] {
      FilterKeepsAll(s[1..], p);
      assert s == [s[0]] + s[1..];
    }
  }

  lemma {:induction false} FilterCongruent<T>(s: seq<T>, p: T -> bool, q: T -> bool)
    requires forall i :: 0 <= i < |s| ==> p(s[i]) == q(s[i])
    ensures Filter(s, p) == Filter(s, q)
  {
    if s != [] {
      FilterCongruent(s[1..], p, q);
    }
  }

  /** The empty-state message is shown when the filtered list is empty, which happens
      exactly when no element satisfies p. */
  lemma FilterEmptyIff<T>(s: seq<T>, p: T -> bool)
    ensures Filter(s, p) == [] <==> forall i :: 0 <= i < |s| ==> !p(s[i])
  {
    if Filter(s, p) != [] {
      assert Filter(s, p)[0] in Filter(s, p);
    }
  }

  // ---------------------------------------------------------------------------
  // items.slice(0, k) followed by a "+N more" badge when items.length > k

  datatype Preview<T> = Preview(shown: seq<T>, moreBadge: Option<nat>)

  function Truncate<T>(items: seq<T>, limit: nat): (p: Preview<T>)
    ensures p.shown <= items
    ensures |p.shown| == if |items| < limit then |items| else limit
    ensures |items| <= limit ==> p.shown == items
    ensures p.moreBadge.Some? <==> |items| > limit
    ensures p.moreBadge.Some? ==> p.moreBadge.value == |items| - limit
  {
    if |items| > limit then Preview(items[..limit], Some(|items| - limit))
    else Preview(items, None)
  }
}
