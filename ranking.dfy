/** The ranking step of the search: `snippetsWithSimilarity.sort((a, b) =>
    b.similarity - a.similarity)`, a stable sort on descending similarity.
    `SortDesc` is its specification (insertion sort as a function), and
    `SortBySimilarity` sorts an array in place to exactly that result. */
module Ranking {
  import opened Snippets

  /** A candidate with its embedding removed and its similarity attached. */
  datatype Scored = Scored(snippet: Snippet, similarity: real)

  /** Non-increasing similarity from left to right. */
  predicate SortedDesc(s: seq<Scored>)
  {
    forall i, j :: 0 <= i < j < |s| ==> s[i].similarity >= s[j].similarity
  }

  /** The elements of `s` whose similarity is `c`, in their order in `s`.
      A sort is stable when it keeps each of these subsequences as it was. */
  function WithScore(s: seq<Scored>, c: real): (r: seq<Scored>)
  {
    if s == [] then []
    else (if s[0].similarity == c then [s[0]] else []) + WithScore(s[1..], c)
  }

  /** Places `x` before the first element that scores strictly less than
      it, so after every element that scores at least as much. */
  function Insert(x: Scored, t: seq<Scored>): (r: seq<Scored>)
  {
    if t == [] then [x]
    else if t[0].similarity < x.similarity then [x] + t
    else [t[0]] + Insert(x, t[1..])
  }

  /** The stable descending sort: insert the elements one by one, left to right. */
  function SortDesc(s: seq<Scored>): (r: seq<Scored>)
  {
    if s == [] then [] else Insert(s[|s| - 1], SortDesc(s[..|s| - 1]))
  }

  lemma {:induction false} WithScoreAppend(u: seq<Scored>, v: seq<Scored>, c: real)
    ensures WithScore(u + v, c) == WithScore(u, c) + WithScore(v, c)
  {
    if u != [] {
      assert (u + v)[1..] == u[1..] + v;
      WithScoreAppend(u[1..], v, c);
    } else {
      assert u + v == v;
    }
  }

  /** Nothing in a sequence that scores below `c` everywhere has score `c`. */
  lemma {:induction false} WithScoreNone(t: seq<Scored>, c: real)
    requires forall i :: 0 <= i < |t| ==> t[i].similarity < c
    ensures WithScore(t, c) == []
  {
    if t != [] {
      WithScoreNone(t[1..], c);
    }
  }

  /** Inserting adds exactly `x`. */
  lemma {:induction false} InsertElements(x: Scored, t: seq<Scored>)
    ensures |Insert(x, t)| == |t| + 1
    ensures multiset(Insert(x, t)) == multiset(t) + multiset{x}
  {
    if t != [] && t[0].similarity >= x.similarity {
      InsertElements(x, t[1..]);
      assert t == [t[0]] + t[1..];
    }
  }

  /** A bound on every score survives an insertion that respects it. */
  lemma {:induction false} InsertBelow(x: Scored, t: seq<Scored>, b: real)
    requires x.similarity <= b
    requires forall k :: 0 <= k < |t| ==> t[k].similarity <= b
    ensures forall k :: 0 <= k < |Insert(x, t)| ==> Insert(x, t)[k].similarity <= b
  {
    if t != [] && t[0].similarity >= x.similarity {
      InsertBelow(x, t[1..], b);
    }
  }

  /** Inserting into a sorted sequence keeps it sorted. */
  lemma {:induction false} InsertSorted(x: Scored, t: seq<Scored>)
    requires SortedDesc(t)
    ensures SortedDesc(Insert(x, t))
  {
    if t != [] && t[0].similarity >= x.similarity {
      InsertSorted(x, t[1..]);
      InsertBelow(x, t[1..], t[0].similarity);
    }
  }

  /** Inserting into a sorted sequence is stable: `x` lands after every
      element of its own score. */
  lemma {:induction false} InsertStable(x: Scored, t: seq<Scored>, c: real)
    requires SortedDesc(t)
    ensures WithScore(Insert(x, t), c)
         == WithScore(t, c) + (if x.similarity == c then [x] else [])
  {
    if t == [] {
    } else if t[0].similarity < x.similarity {
      assert ([x] + t)[1..] == t;
      if x.similarity == c {
        WithScoreNone(t, c);
      }
    } else {
      assert ([t[0]] + Insert(x, t[1..]))[1..] == Insert(x, t[1..]);
      InsertStable(x, t[1..], c);
    }
  }

  /** The stable sort keeps the elements, orders them, and keeps the order
      of equal scores. */
  lemma {:induction false} SortDescCorrect(s: seq<Scored>)
    ensures |SortDesc(s)| == |s|
    ensures multiset(SortDesc(s)) == multiset(s)
    ensures SortedDesc(SortDesc(s))
    ensures forall c :: WithScore(SortDesc(s), c) == WithScore(s, c)
  {
    if s != [] {
      var init, last := s[..|s| - 1], s[|s| - 1];
      assert s == init + [last];
      SortDescCorrect(init);
      InsertElements(last, SortDesc(init));
      InsertSorted(last, SortDesc(init));
      forall c ensures WithScore(SortDesc(s), c) == WithScore(s, c) {
        InsertStable(last, SortDesc(init), c);
        WithScoreAppend(init, [last], c);
      }
    }
  }

  /** The first element of a sorted sequence scores at least as much as
      every element. */
  lemma HeadIsMax(t: seq<Scored>, y: Scored)
    requires SortedDesc(t) && y in t
    ensures t[0].similarity >= y.similarity
  {
  }

  /** The first element of a sequence opens its class of equal scores. */
  lemma {:induction false} WithScoreHead(t: seq<Scored>)
    requires t != []
    ensures WithScore(t, t[0].similarity) == [t[0]] + WithScore(t[1..], t[0].similarity)
  {
  }

  /** Membership in a class of equal scores. */
  lemma {:induction false} WithScoreMember(t: seq<Scored>, c: real, y: Scored)
    ensures y in WithScore(t, c) <==> y in t && y.similarity == c
  {
    if t != [] {
      WithScoreMember(t[1..], c, y);
      assert t == [t[0]] + t[1..];
    }
  }

  /** Two sorted sequences that agree on every class of equal scores are
      equal: a stable sort has only one possible result. */
  lemma {:induction false} StableSortUnique(t: seq<Scored>, u: seq<Scored>)
    requires SortedDesc(t) && SortedDesc(u)
    requires forall c :: WithScore(t, c) == WithScore(u, c)
    ensures t == u
  {
    if t == [] && u != [] {
      WithScoreHead(u);
      assert false;
    } else if t != [] && u == [] {
      WithScoreHead(t);
      assert false;
    } else if t != [] {
      var m, n := t[0].similarity, u[0].similarity;
      WithScoreMember(t, m, t[0]);
      WithScoreMember(u, m, t[0]);
      WithScoreMember(u, n, u[0]);
      WithScoreMember(t, n, u[0]);
      HeadIsMax(u, t[0]);
      HeadIsMax(t, u[0]);
      assert m == n;
      WithScoreHead(t);
      WithScoreHead(u);
      assert t[0] == u[0] by {
        assert WithScore(t, m)[0] == t[0];
        assert WithScore(u, m)[0] == u[0];
      }
      forall c ensures WithScore(t[1..], c) == WithScore(u[1..], c) {
        assert WithScore(t, c) == WithScore(u, c);
        if c == m {
          assert WithScore(t, c) == [t[0]] + WithScore(t[1..], c);
          assert WithScore(u, c) == [t[0]] + WithScore(u[1..], c);
          assert WithScore(t[1..], c) == WithScore(t, c)[1..];
          assert WithScore(u[1..], c) == WithScore(u, c)[1..];
        } else {
          assert WithScore(t, c) == [] + WithScore(t[1..], c) == WithScore(t[1..], c);
          assert WithScore(u, c) == [] + WithScore(u[1..], c) == WithScore(u[1..], c);
        }
      }
      StableSortUnique(t[1..], u[1..]);
      assert t == [t[0]] + t[1..] && u == [u[0]] + u[1..];
    }
  }

  /** Any stable descending sort of `s` yields `SortDesc(s)`. */
  lemma StableSortIsSortDesc(s: seq<Scored>, t: seq<Scored>)
    requires SortedDesc(t)
    requires forall c :: WithScore(t, c) == WithScore(s, c)
    ensures t == SortDesc(s)
  {
    SortDescCorrect(s);
    StableSortUnique(t, SortDesc(s));
  }

  /** Where the insertion loop puts `x`: after the prefix of `t` that scores
      at least as much, before the rest, which scores less. */
  lemma {:induction false} InsertAt(x: Scored, t: seq<Scored>, j: nat)
    requires SortedDesc(t) && j <= |t|
    requires j > 0 ==> t[j - 1].similarity >= x.similarity
    requires forall k :: j <= k < |t| ==> t[k].similarity < x.similarity
    ensures Insert(x, t) == t[..j] + [x] + t[j..]
  {
    if j == 0 {
      assert t[j..] == t;
    } else {
      assert t[0].similarity >= x.similarity;
      InsertAt(x, t[1..], j - 1);
      assert t[1..][..j - 1] == t[1..j];
      assert t[1..][j - 1..] == t[j..];
      assert t[..j] == [t[0]] + t[1..j];
    }
  }

  /** The array after the shifting loop and the final store holds the
      insertion of `x` at `j`. */
  lemma ShiftedIsInsert(s: seq<Scored>, sorted: seq<Scored>, x: Scored, i: nat, j: nat)
    requires j <= i == |sorted| < |s| && SortedDesc(sorted)
    requires forall k :: 0 <= k < j ==> s[k] == sorted[k]
    requires s[j] == x
    requires forall k :: j < k <= i ==> s[k] == sorted[k - 1]
    requires j > 0 ==> sorted[j - 1].similarity >= x.similarity
    requires forall k :: j <= k < i ==> sorted[k].similarity < x.similarity
    ensures s[..i + 1] == Insert(x, sorted)
  {
    InsertAt(x, sorted, j);
    var inserted := sorted[..j] + [x] + sorted[j..];
    assert forall k :: 0 <= k <= i ==> s[k] == inserted[k];
  }

  /** One step of the insertion sort: moves `a[i]` left past the elements
      of the sorted prefix `a[..i]` that score strictly less than it. */
  method InsertLeft(a: array<Scored>, i: nat)
    requires i < a.Length && SortedDesc(a[..i])
    modifies a
    ensures a[..i + 1] == Insert(old(a[i]), old(a[..i]))
    ensures forall k :: i < k < a.Length ==> a[k] == old(a[k])
  {
    ghost var sorted := a[..i];
    var x := a[i];
    var j := i;
    while j > 0 && a[j - 1].similarity < x.similarity
      invariant 0 <= j <= i
      invariant forall k :: 0 <= k < j ==> a[k] == sorted[k]
      invariant forall k :: j < k <= i ==> a[k] == sorted[k - 1]
      invariant forall k :: i < k < a.Length ==> a[k] == old(a[k])
      invariant forall k :: j <= k < i ==> sorted[k].similarity < x.similarity
    {
      a[j] := a[j - 1];
      j := j - 1;
    }
    a[j] := x;
    ShiftedIsInsert(a[..], sorted, x, i, j);
  }

  /** `Array.prototype.sort` with the comparator `b.similarity - a.similarity`,
      done in place as an insertion sort. */
  method SortBySimilarity(a: array<Scored>)
    modifies a
    ensures a[..] == SortDesc(old(a[..]))
  {
    ghost var input := a[..];
    for i := 0 to a.Length
      invariant a[..i] == SortDesc(input[..i])
      invariant a[i..] == input[i..]
    {
      SortDescCorrect(input[..i]);
      InsertLeft(a, i);
      assert input[..i + 1][..i] == input[..i];
    }
    assert input[..a.Length] == input;
  }
}
