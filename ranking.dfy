/** Ranking of the collected hits: `results.sort((a, b) => b.matchScore - a.matchScore)`
    followed by `results.slice(0, MAX_RESULTS)`. `Array.prototype.sort` is stable (section
    23.1.3.30 of ECMA-262, 2023 edition), so the sort is specified as the stable descending
    sort by score, and that specification is shown to pin the result down uniquely. */
module Ranking {
  import opened Scoring

  /** `MAX_RESULTS`. */
  const MaxResults: nat := 10

  /** Non-increasing in `matchScore`. */
  ghost predicate SortedByScore(s: seq<Hit>)
  {
    forall i, j :: 0 <= i < j < |s| ==> s[i].matchScore >= s[j].matchScore
  }

  /** The hits of `s` whose score is `k`, in their order in `s`. */
  function WithScore(s: seq<Hit>, k: nat): seq<Hit>
    decreases |s|
  {
    if s == [] then [] else (if s[0].matchScore == k then [s[0]] else []) + WithScore(s[1..], k)
  }

  lemma {:induction false} WithScoreAppend(a: seq<Hit>, b: seq<Hit>, k: nat)
    ensures WithScore(a + b, k) == WithScore(a, k) + WithScore(b, k)
    decreases |a|
  {
    if a == [] {
      assert a + b == b;
    } else {
      var ab := a + b;
      assert ab != [] && ab[0] == a[0];
      assert ab[1..] == a[1..] + b;
      WithScoreAppend(a[1..], b, k);
      assert WithScore(ab, k) == (if a[0].matchScore == k then [a[0]] else []) + WithScore(a[1..] + b, k);
    }
  }

  lemma {:induction false} WithScoreMembers(s: seq<Hit>, k: nat)
    ensures forall h :: h in WithScore(s, k) ==> h in s && h.matchScore == k
    ensures forall h :: h in s && h.matchScore == k ==> h in WithScore(s, k)
    decreases |s|
  {
    if s != [] {
      WithScoreMembers(s[1..], k);
    }
  }

  lemma WithScoreOfHead(s: seq<Hit>)
    requires s != []
    ensures WithScore(s, s[0].matchScore) != []
  {
  }

  /** Insertion of `h` into `s` after every hit whose score is at least `h`'s: the step the
      stable sort takes for each next element of its input. */
  function InsertHit(s: seq<Hit>, h: Hit): seq<Hit>
    decreases |s|
  {
    if s == [] || s[|s| - 1].matchScore >= h.matchScore then s + [h]
    else InsertHit(s[..|s| - 1], h) + [s[|s| - 1]]
  }

  /** The stable sort by descending score, as insertion sort. */
  function SortByScore(s: seq<Hit>): seq<Hit>
    decreases |s|
  {
    if s == [] then [] else InsertHit(SortByScore(s[..|s| - 1]), s[|s| - 1])
  }

  lemma {:induction false} InsertHitPermutes(s: seq<Hit>, h: Hit)
    ensures multiset(InsertHit(s, h)) == multiset(s) + multiset{h}
    decreases |s|
  {
    if s != [] && s[|s| - 1].matchScore < h.matchScore {
      InsertHitPermutes(s[..|s| - 1], h);
      assert s == s[..|s| - 1] + [s[|s| - 1]];
    }
  }

  lemma {:induction false} InsertHitSorted(s: seq<Hit>, h: Hit)
    requires SortedByScore(s)
    ensures SortedByScore(InsertHit(s, h))
    decreases |s|
  {
    if s != [] && s[|s| - 1].matchScore < h.matchScore {
      var init, last := s[..|s| - 1], s[|s| - 1];
      InsertHitSorted(init, h);
      InsertHitPermutes(init, h);
      var t := InsertHit(init, h);
      forall i | 0 <= i < |t| ensures t[i].matchScore >= last.matchScore {
        assert t[i] in multiset(t);
        if t[i] != h {
          assert t[i] in init;
        }
      }
    }
  }

  /** Insertion keeps the order of equal scores: `h` goes after every earlier hit of its
      score. */
  lemma {:induction false} InsertHitStable(s: seq<Hit>, h: Hit, k: nat)
    ensures WithScore(InsertHit(s, h), k) == WithScore(s, k) + WithScore([h], k)
    decreases |s|
  {
    if s == [] || s[|s| - 1].matchScore >= h.matchScore {
      WithScoreAppend(s, [h], k);
    } else {
      var init, last := s[..|s| - 1], s[|s| - 1];
      InsertHitStable(init, h, k);
      WithScoreAppend(InsertHit(init, h), [last], k);
      WithScoreAppend(init, [last], k);
      assert s == init + [last];
    }
  }

  /** The sort permutes its input. */
  lemma {:induction false} SortPermutes(s: seq<Hit>)
    ensures multiset(SortByScore(s)) == multiset(s)
    ensures |SortByScore(s)| == |s|
    decreases |s|
  {
    if s != [] {
      SortPermutes(s[..|s| - 1]);
      InsertHitPermutes(SortByScore(s[..|s| - 1]), s[|s| - 1]);
      assert s == s[..|s| - 1] + [s[|s| - 1]];
    }
    assert |multiset(SortByScore(s))| == |multiset(s)|;
  }

  /** The sort's output is non-increasing in score. */
  lemma {:induction false} SortSorted(s: seq<Hit>)
    ensures SortedByScore(SortByScore(s))
    decreases |s|
  {
    if s != [] {
      SortSorted(s[..|s| - 1]);
      InsertHitSorted(SortByScore(s[..|s| - 1]), s[|s| - 1]);
    }
  }

  /** The sort is stable: for every score, the hits of that score keep their input order. */
  lemma {:induction false} SortStable(s: seq<Hit>, k: nat)
    ensures WithScore(SortByScore(s), k) == WithScore(s, k)
    decreases |s|
  {
    if s != [] {
      var init, last := s[..|s| - 1], s[|s| - 1];
      SortStable(init, k);
      InsertHitStable(SortByScore(init), last, k);
      WithScoreAppend(init, [last], k);
      assert s == init + [last];
    }
  }

  /** Two score-sorted sequences that agree, score by score, on which hits have that score and
      in which order, are equal. */
  lemma {:induction false} SortedStableUnique(t: seq<Hit>, u: seq<Hit>)
    requires SortedByScore(t) && SortedByScore(u)
    requires forall k: nat :: WithScore(t, k) == WithScore(u, k)
    ensures t == u
    decreases |t|
  {
    if t != [] {
      WithScoreOfHead(t);
    }
    if u != [] {
      WithScoreOfHead(u);
    }
    if t != [] && u != [] {
      var a, b := t[0].matchScore, u[0].matchScore;
      WithScoreMembers(u, a);
      WithScoreMembers(t, b);
      assert WithScore(t, a)[0] == t[0];
      assert WithScore(u, b)[0] == u[0];
      var x := WithScore(u, a)[0];
      var y := WithScore(t, b)[0];
      assert x in u && x.matchScore == a;
      assert y in t && y.matchScore == b;
      assert a == b;
      assert t[0] == u[0];
      forall k: nat ensures WithScore(t[1..], k) == WithScore(u[1..], k) {
        var p := if a == k then [t[0]] else [];
        assert WithScore(t, k) == p + WithScore(t[1..], k);
        assert WithScore(u, k) == p + WithScore(u[1..], k);
        assert WithScore(t[1..], k) == WithScore(t, k)[|p|..];
        assert WithScore(u[1..], k) == WithScore(u, k)[|p|..];
      }
      SortedStableUnique(t[1..], u[1..]);
    }
  }

  /** Whatever algorithm performs it, a stable descending sort of `s` produces
      `SortByScore(s)`: the specification leaves no freedom. */
  lemma StableSortIsSortByScore(s: seq<Hit>, t: seq<Hit>)
    requires SortedByScore(t)
    requires forall k: nat :: WithScore(t, k) == WithScore(s, k)
    ensures t == SortByScore(s)
  {
    SortSorted(s);
    forall k: nat ensures WithScore(t, k) == WithScore(SortByScore(s), k) {
      SortStable(s, k);
    }
    SortedStableUnique(t, SortByScore(s));
  }

  /** One shift of the insertion loop: passing over a hit whose score is below `x`'s. */
  lemma InsertHitShift(sorted: seq<Hit>, j: nat, x: Hit)
    requires 0 < j <= |sorted| && sorted[j - 1].matchScore < x.matchScore
    ensures InsertHit(sorted[..j], x) + sorted[j..] == InsertHit(sorted[..j - 1], x) + sorted[j - 1..]
  {
    assert sorted[..j][..j - 1] == sorted[..j - 1];
    assert sorted[j - 1..] == [sorted[j - 1]] + sorted[j..];
  }

  /** The array during the insertion loop: the first `j` sorted hits, a free slot, the
      rest of the sorted prefix and the untouched suffix. Copying `sorted[j - 1]` into the
      slot moves the slot one place to the left. */
  lemma ShiftSlot(sorted: seq<Hit>, rest: seq<Hit>, j: nat, y: Hit)
    requires 0 < j <= |sorted|
    ensures var whole := sorted[..j] + [y] + sorted[j..] + rest;
      && whole[j - 1] == sorted[j - 1]
      && whole[j := sorted[j - 1]] == sorted[..j - 1] + [sorted[j - 1]] + sorted[j - 1..] + rest
  {
    var whole := sorted[..j] + [y] + sorted[j..] + rest;
    var shifted := sorted[..j - 1] + [sorted[j - 1]] + sorted[j - 1..] + rest;
    assert sorted[j - 1..] == [sorted[j - 1]] + sorted[j..];
    assert |whole| == |shifted|;
    forall k | 0 <= k < |whole| ensures whole[j := sorted[j - 1]][k] == shifted[k] {
      if k < j - 1 {
        assert whole[k] == sorted[k] && shifted[k] == sorted[k];
      } else if k > j {
        assert whole[k] == shifted[k];
      }
    }
  }

  /** Filling the slot with `x`. */
  lemma FillSlot(sorted: seq<Hit>, rest: seq<Hit>, j: nat, y: Hit, x: Hit)
    requires j <= |sorted|
    ensures (sorted[..j] + [y] + sorted[j..] + rest)[j := x] == sorted[..j] + [x] + sorted[j..] + rest
  {
  }

  /** Where the insertion loop stops, `x` goes right after the hits already passed over. */
  lemma InsertHitStops(sorted: seq<Hit>, j: nat, x: Hit)
    requires j <= |sorted| && (j == 0 || sorted[j - 1].matchScore >= x.matchScore)
    ensures InsertHit(sorted[..j], x) == sorted[..j] + [x]
  {
  }

  /** Inserts `a[i]` into the sorted prefix `a[..i]`, shifting larger-index hits of smaller
      score one place to the right. */
  method InsertAt(a: array<Hit>, i: nat)
    requires i < a.Length
    modifies a
    ensures a[..] == InsertHit(old(a[..i]), old(a[i])) + old(a[i + 1..])
  {
    ghost var sorted := a[..i];
    ghost var rest := a[i + 1..];
    var x := a[i];
    assert sorted[..i] == sorted && sorted[i..] == [];
    assert a[..] == a[..i] + [a[i]] + a[i + 1..];
    var j := i;
    while j > 0 && a[j - 1].matchScore < x.matchScore
      invariant 0 <= j <= i
      invariant a[..] == sorted[..j] + [a[j]] + sorted[j..] + rest
      invariant InsertHit(sorted, x) == InsertHit(sorted[..j], x) + sorted[j..]
    {
      InsertHitShift(sorted, j, x);
      ShiftSlot(sorted, rest, j, a[j]);
      a[j] := a[j - 1];
      j := j - 1;
    }
    FillSlot(sorted, rest, j, a[j], x);
    InsertHitStops(sorted, j, x);
    a[j] := x;
  }

  /** One round of the outer loop: inserting the next input hit into the sorted prefix
      leaves the sort of one more input hit, followed by the untouched rest. */
  lemma SortLoopStep(input: seq<Hit>, i: nat, before: seq<Hit>, after: seq<Hit>)
    requires i < |input| == |before| && before == SortByScore(input[..i]) + input[i..]
    requires after == InsertHit(before[..i], before[i]) + before[i + 1..]
    ensures after == SortByScore(input[..i + 1]) + input[i + 1..]
  {
    var done := SortByScore(input[..i]);
    SortPermutes(input[..i]);
    SplitAfter(done, input[i..]);
    assert input[i..][1..] == input[i + 1..];
    SortPrefixStep(input, i);
  }

  /** Sorting one more element of a prefix is one insertion. */
  lemma SortPrefixStep(s: seq<Hit>, i: nat)
    requires i < |s|
    ensures SortByScore(s[..i + 1]) == InsertHit(SortByScore(s[..i]), s[i])
  {
    assert s[..i + 1][..i] == s[..i];
  }

  /** The parts of `p + t` around position `|p|`. */
  lemma SplitAfter(p: seq<Hit>, t: seq<Hit>)
    requires t != []
    ensures (p + t)[..|p|] == p && (p + t)[|p|] == t[0] && (p + t)[|p| + 1..] == t[1..]
  {
  }

  /** `results.sort((a, b) => b.matchScore - a.matchScore)`, in place, by insertion sort. */
  method SortInPlace(a: array<Hit>)
    modifies a
    ensures a[..] == SortByScore(old(a[..]))
  {
    ghost var input := a[..];
    var i := 0;
    assert input[..0] == [] && input[0..] == input;
    while i < a.Length
      invariant 0 <= i <= a.Length
      invariant a[..] == SortByScore(input[..i]) + input[i..]
    {
      ghost var before := a[..];
      assert a[..i] == before[..i] && a[i] == before[i] && a[i + 1..] == before[i + 1..];
      InsertAt(a, i);
      SortLoopStep(input, i, before, a[..]);
      i := i + 1;
    }
    assert input[..a.Length] == input && input[a.Length..] == [];
  }

  predicate IsPrefix(p: seq<Hit>, s: seq<Hit>)
  {
    |p| <= |s| && s[..|p|] == p
  }

  /** `results.slice(0, MAX_RESULTS)` after the sort. */
  function Rank(hits: seq<Hit>): seq<Hit>
  {
    var sorted := SortByScore(hits);
    if |sorted| <= MaxResults then sorted else sorted[..MaxResults]
  }

  /** Every ranked hit is one of the input hits. */
  lemma RankMembers(hits: seq<Hit>)
    ensures forall h :: h in Rank(hits) ==> h in hits
  {
    RankProperties(hits);
    forall h | h in Rank(hits) ensures h in hits {
      assert h in multiset(Rank(hits));
    }
  }

  /** Ranking keeps only hits it was given, so a bound on all scores holds of the result. */
  lemma RankPositive(hits: seq<Hit>)
    requires forall h :: h in hits ==> h.matchScore > 0
    ensures forall i :: 0 <= i < |Rank(hits)| ==> Rank(hits)[i].matchScore > 0
  {
    RankMembers(hits);
    forall i | 0 <= i < |Rank(hits)| ensures Rank(hits)[i].matchScore > 0 {
      assert Rank(hits)[i] in Rank(hits);
    }
  }

  /** The ranked list holds the first min(10, n) hits of the stably sorted list: at most 10,
      non-increasing in score, each one of the input hits, and for every score a prefix of
      the input's hits of that score, in input order. */
  lemma RankProperties(hits: seq<Hit>)
    ensures var sorted := SortByScore(hits);
      var n := if |hits| < MaxResults then |hits| else MaxResults;
      |Rank(hits)| == n && Rank(hits) == sorted[..n]
    ensures SortedByScore(Rank(hits))
    ensures multiset(Rank(hits)) <= multiset(hits)
    ensures forall k: nat :: IsPrefix(WithScore(Rank(hits), k), WithScore(hits, k))
  {
    var sorted := SortByScore(hits);
    SortPermutes(hits);
    SortSorted(hits);
    var r := Rank(hits);
    var rest := sorted[|r|..];
    assert sorted == r + rest;
    assert multiset(sorted) == multiset(r) + multiset(rest);
    forall k: nat ensures IsPrefix(WithScore(r, k), WithScore(hits, k)) {
      SortStable(hits, k);
      WithScoreAppend(r, rest, k);
      assert WithScore(hits, k) == WithScore(r, k) + WithScore(rest, k);
    }
  }
}
