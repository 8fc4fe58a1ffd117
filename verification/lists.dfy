/** Sequence operations shared by the pages and hooks: JavaScript's
    `Array.prototype.filter`, the "remove if present, append if absent"
    toggle written inline in several components, and the subsequence
    relation that states order preservation. */
module Lists {

  /** `s.filter(p)`. */
  function Filter<T(!new)>(s: seq<T>, p: T -> bool): (r: seq<T>)
    ensures |r| <= |s|
    ensures forall x :: x in r <==> x in s && p(x)
    ensures forall x :: Occurrences(r, x) == if p(x) then Occurrences(s, x) else 0
    decreases |s|
  {
    if |s| == 0 then []
    else
      var head := if p(s[0]) then [s[0]] else [];
      var rest := Filter(s[1..], p);
      FilterOccurrencesStep(s, p, head, rest);
      head + rest
  }

  /** One step of the multiplicity argument for `Filter`: the head is kept
      exactly when it passes. */
  lemma FilterOccurrencesStep<T(!new)>(s: seq<T>, p: T -> bool, head: seq<T>, rest: seq<T>)
    requires |s| > 0 && head == (if p(s[0]) then [s[0]] else [])
    requires forall x :: Occurrences(rest, x) == if p(x) then Occurrences(s[1..], x) else 0
    ensures forall x :: Occurrences(head + rest, x) == if p(x) then Occurrences(s, x) else 0
  {
    forall x
      ensures Occurrences(head + rest, x) == if p(x) then Occurrences(s, x) else 0
    {
      OccurrencesAppend(head, rest, x);
      if p(s[0]) {
        assert head[1..] == [];
      }
    }
  }

  /** `a` is obtained from `b` by deleting elements, keeping the order of
      the rest (greedy matching decides it). */
  predicate Subseq<T(==)>(a: seq<T>, b: seq<T>)
    decreases |b|
  {
    |a| == 0 || (|b| > 0 && if a[0] == b[0] then Subseq(a[1..], b[1..]) else Subseq(a, b[1..]))
  }

  /** Filtering keeps the surviving elements in their original order. */
  lemma {:induction false} FilterIsSubseq<T(!new)>(s: seq<T>, p: T -> bool)
    ensures Subseq(Filter(s, p), s)
    decreases |s|
  {
    if |s| > 0 {
      FilterIsSubseq(s[1..], p);
      var rest := Filter(s[1..], p);
      if p(s[0]) {
        assert Filter(s, p) == [s[0]] + rest;
        assert ([s[0]] + rest)[1..] == rest;
      } else {
        assert Filter(s, p) == rest;
        if |rest| > 0 {
          assert rest[0] in rest;
          assert rest[0] != s[0];
        }
      }
    }
  }

  /** Filtering a concatenation filters each part. */
  lemma {:induction false} FilterAppend<T(!new)>(a: seq<T>, b: seq<T>, p: T -> bool)
    ensures Filter(a + b, p) == Filter(a, p) + Filter(b, p)
    decreases |a|
  {
    if |a| > 0 {
      assert (a + b)[1..] == a[1..] + b;
      FilterAppend(a[1..], b, p);
    } else {
      assert a + b == b;
    }
  }

  /** A filter every element passes changes nothing. */
  lemma {:induction false} FilterAll<T(!new)>(s: seq<T>, p: T -> bool)
    requires forall k :: 0 <= k < |s| ==> p(s[k])
    ensures Filter(s, p) == s
    decreases |s|
  {
    if |s| > 0 {
      FilterAll(s[1..], p);
    }
  }

  /** Filtering by `p` and then by a stricter `q` is filtering by `q`, so a
      further condition can only shrink a filtered list. */
  lemma {:induction false} FilterStricter<T(!new)>(s: seq<T>, p: T -> bool, q: T -> bool)
    requires forall k :: 0 <= k < |s| && q(s[k]) ==> p(s[k])
    ensures Filter(Filter(s, p), q) == Filter(s, q)
    decreases |s|
  {
    if |s| > 0 {
      FilterStricter(s[1..], p, q);
      var head: seq<T> := if p(s[0]) then [s[0]] else [];
      FilterAppend(head, Filter(s[1..], p), q);
    }
  }

  /** The number of times `x` occurs in `s`. */
  function Occurrences<T(==)>(s: seq<T>, x: T): (n: nat)
    ensures n <= |s|
    ensures n == 0 <==> x !in s
    decreases |s|
  {
    if |s| == 0 then 0
    else (if s[0] == x then 1 else 0) + Occurrences(s[1..], x)
  }

  lemma {:induction false} OccurrencesAppend<T>(a: seq<T>, b: seq<T>, x: T)
    ensures Occurrences(a + b, x) == Occurrences(a, x) + Occurrences(b, x)
    decreases |a|
  {
    if |a| > 0 {
      assert (a + b)[1..] == a[1..] + b;
      OccurrencesAppend(a[1..], b, x);
    } else {
      assert a + b == b;
    }
  }

  /** The inline toggle `s.includes(x) ? s.filter(y => y !== x) : [...s, x]`. */
  function ToggleMember<T(==,!new)>(s: seq<T>, x: T): (r: seq<T>)
    ensures x in s ==> x !in r && forall y :: y != x ==> (y in r <==> y in s)
    ensures x in s ==> Subseq(r, s)
    ensures x in s ==> |r| == |s| - Occurrences(s, x)
    ensures x in s ==> forall y :: Occurrences(r, y) == if y == x then 0 else Occurrences(s, y)
    ensures x !in s ==> |r| == |s| + 1 && r[..|s|] == s && r[|s|] == x
  {
    if x in s then
      FilterIsSubseq(s, y => y != x);
      FilterOutLength(s, x);
      Filter(s, y => y != x)
    else s + [x]
  }

  /** Removing every occurrence shortens the list by the number of occurrences. */
  lemma {:induction false} FilterOutLength<T(!new)>(s: seq<T>, x: T)
    ensures |Filter(s, y => y != x)| == |s| - Occurrences(s, x)
    decreases |s|
  {
    if |s| > 0 {
      FilterOutLength(s[1..], x);
    }
  }

  /** Toggling an absent element twice restores the list. */
  lemma ToggleAbsentTwice<T(!new)>(s: seq<T>, x: T)
    requires x !in s
    ensures ToggleMember(ToggleMember(s, x), x) == s
  {
    var p := (y: T) => y != x;
    FilterAppend(s, [x], p);
    FilterAll(s, p);
    assert Filter([x], p) == [];
  }

  /** Toggling a present element twice does not in general restore the
      list: the element comes back at the end ... */
  lemma TogglePresentTwiceMoves()
    ensures ToggleMember(ToggleMember([1, 2], 1), 1) == [2, 1]
  {
    assert [1, 2][1..] == [2];
    assert Filter([2], (y: int) => y != 1) == [2];
    assert ToggleMember([1, 2], 1) == [2];
    assert 1 !in [2];
  }

  /** ... and only once. */
  lemma TogglePresentTwiceMerges()
    ensures ToggleMember(ToggleMember([1, 1], 1), 1) == [1]
  {
    assert [1, 1][1..] == [1];
    assert Filter([1], (y: int) => y != 1) == [];
    assert ToggleMember([1, 1], 1) == [];
  }
}
