/**
 Sentence selection: `heapq.nlargest` over the ranking's keys by score, the
 ascending re-sort of the chosen indices, and the single-space join of the
 chosen sentences. `nlargest(n, keys, key=get)` is specified, as its
 documentation does, as `sorted(keys, key=get, reverse=True)[:n]`: a stable
 sort, so among equal scores the key created first comes first.
 */
module Selector {
  import opened Scorer

  function Min(a: nat, b: nat): (r: nat)
    ensures r <= a && r <= b && (r == a || r == b)
  {
    if a <= b then a else b
  }

  predicate AllKeys(s: seq<nat>, score: map<nat, nat>) {
    forall k :: 0 <= k < |s| ==> s[k] in score
  }

  /** Scores never increase along `s`. */
  predicate Descending(s: seq<nat>, score: map<nat, nat>)
    requires AllKeys(s, score)
  {
    forall p, q :: 0 <= p < q < |s| ==> score[s[p]] >= score[s[q]]
  }

  /** `x` is ranked before `y`: a higher score, or the same score and a
      smaller sentence index. */
  predicate Beats(score: map<nat, nat>, x: nat, y: nat)
    requires x in score && y in score
  {
    score[x] > score[y] || (score[x] == score[y] && x < y)
  }

  /** Along `s` every element beats every later one. */
  predicate RankOrdered(s: seq<nat>, score: map<nat, nat>)
    requires AllKeys(s, score)
  {
    forall p, q :: 0 <= p < q < |s| ==> Beats(score, s[p], s[q])
  }

  // ---------------------------------------------------------------------------
  // The stable descending sort behind `nlargest`.

  /** Inserts `x` in front of the first element whose score it reaches: `x`
      was met before all of `ys`, so it goes before the ones it ties with. */
  function InsertByScore(x: nat, ys: seq<nat>, score: map<nat, nat>): (r: seq<nat>)
    requires x in score && AllKeys(ys, score)
    ensures multiset(r) == multiset(ys) + multiset{x}
    ensures AllKeys(r, score)
    decreases |ys|
  {
    if |ys| == 0 then [x]
    else if score[ys[0]] <= score[x] then [x] + ys
    else
      assert ys == [ys[0]] + ys[1..];
      var rest := InsertByScore(x, ys[1..], score);
      [ys[0]] + rest
  }

  lemma {:induction false} InsertByScoreDescending(x: nat, ys: seq<nat>, score: map<nat, nat>)
    requires x in score && AllKeys(ys, score) && Descending(ys, score)
    ensures Descending(InsertByScore(x, ys, score), score)
    decreases |ys|
  {
    if |ys| > 0 && score[ys[0]] > score[x] {
      var rest := InsertByScore(x, ys[1..], score);
      InsertByScoreDescending(x, ys[1..], score);
      forall k | 0 <= k < |rest|
        ensures score[ys[0]] >= score[rest[k]]
      {
        assert rest[k] in multiset(ys[1..]) + multiset{x};
      }
    }
  }

  /** Inserting a key smaller than all others keeps a ranked list ranked. */
  lemma {:induction false} InsertByScoreRanked(x: nat, ys: seq<nat>, score: map<nat, nat>)
    requires x in score && AllKeys(ys, score) && RankOrdered(ys, score)
    requires forall k :: 0 <= k < |ys| ==> x < ys[k]
    ensures RankOrdered(InsertByScore(x, ys, score), score)
    decreases |ys|
  {
    if |ys| > 0 && score[ys[0]] > score[x] {
      var rest := InsertByScore(x, ys[1..], score);
      InsertByScoreRanked(x, ys[1..], score);
      forall k | 0 <= k < |rest|
        ensures Beats(score, ys[0], rest[k])
      {
        assert rest[k] in multiset(ys[1..]) + multiset{x};
      }
    }
  }

  /** `sorted(keys, key=score.get, reverse=True)`: a permutation of the keys
      with scores in descending order; keys given in ascending order come out
      ranked, ties by smaller index. */
  function SortByScore(xs: seq<nat>, score: map<nat, nat>): (r: seq<nat>)
    requires AllKeys(xs, score)
    ensures multiset(r) == multiset(xs)
    ensures AllKeys(r, score)
    ensures Descending(r, score)
    decreases |xs|
  {
    if |xs| == 0 then []
    else
      assert xs == [xs[0]] + xs[1..];
      var rest := SortByScore(xs[1..], score);
      InsertByScoreDescending(xs[0], rest, score);
      InsertByScore(xs[0], rest, score)
  }

  /** Keys given in ascending order (the order the ranking creates them in)
      come out of the stable sort ranked: ties go to the smaller index. */
  lemma {:induction false} SortByScoreRanked(xs: seq<nat>, score: map<nat, nat>)
    requires AllKeys(xs, score)
    ensures StrictlyIncreasing(xs) ==> RankOrdered(SortByScore(xs, score), score)
    decreases |xs|
  {
    if |xs| > 0 && StrictlyIncreasing(xs) {
      var rest := SortByScore(xs[1..], score);
      SortByScoreRanked(xs[1..], score);
      forall k | 0 <= k < |rest|
        ensures xs[0] < rest[k]
      {
        assert rest[k] in multiset(xs[1..]);
      }
      InsertByScoreRanked(xs[0], rest, score);
    }
  }

  /** `heapq.nlargest` of the ranking's keys by score: the first `n` keys
      of the stable descending sort. */
  function Select(r: Ranking, n: nat): (sel: seq<nat>)
    requires WellFormed(r)
    ensures |sel| == Min(n, |r.order|)
    ensures Distinct(sel) && AllKeys(sel, r.score)
    ensures Descending(sel, r.score)
    ensures forall i, j :: i in sel && j in r.score && j !in sel ==> r.score[i] >= r.score[j]
    ensures StrictlyIncreasing(r.order) ==>
      forall i, j :: i in sel && j in r.score && j !in sel && r.score[i] == r.score[j] ==> i < j
  {
    var s := SortByScore(r.order, r.score);
    SortCoversKeys(r);
    PrefixSeparates(s, r.score, Min(n, |s|));
    s[..Min(n, |s|)]
  }

  /** The sorted keys list every key once. */
  lemma SortCoversKeys(r: Ranking)
    requires WellFormed(r)
    ensures var s := SortByScore(r.order, r.score);
      && |s| == |r.order|
      && Distinct(s)
      && (forall j :: j in r.score ==> j in s)
      && (StrictlyIncreasing(r.order) ==> RankOrdered(s, r.score))
  {
    var s := SortByScore(r.order, r.score);
    DistinctOfSameMultiset(r.order, s);
    SortByScoreRanked(r.order, r.score);
    forall j | j in r.score
      ensures j in s
    {
      assert j in multiset(r.order);
    }
    assert |s| == |multiset(s)| == |multiset(r.order)| == |r.order|;
  }

  /** A prefix of a descending list holds scores at least those of the rest,
      and of a ranked list, wins ties by smaller index. */
  lemma PrefixSeparates(s: seq<nat>, score: map<nat, nat>, m: nat)
    requires AllKeys(s, score) && Descending(s, score)
    requires forall j :: j in score ==> j in s
    requires m <= |s|
    ensures Distinct(s) ==> Distinct(s[..m])
    ensures AllKeys(s[..m], score) && Descending(s[..m], score)
    ensures forall i, j :: i in s[..m] && j in score && j !in s[..m] ==> score[i] >= score[j]
    ensures RankOrdered(s, score) ==>
      forall i, j :: i in s[..m] && j in score && j !in s[..m] && score[i] == score[j] ==> i < j
  {
  }

  // ---------------------------------------------------------------------------
  // The independent meaning of the selection: a key is chosen exactly when
  // fewer than `n` keys beat it.

  /** The keys that are ranked before `i`. */
  function Beaters(score: map<nat, nat>, i: nat): (r: set<nat>)
    requires i in score
  {
    set j | j in score && Beats(score, j, i)
  }

  /** A prefix of length `p` of a list without repetitions holds `p` values. */
  lemma {:induction false} DistinctPrefixCardinality(s: seq<nat>, p: nat)
    requires Distinct(s) && p <= |s|
    ensures |set x: nat | x in s[..p]| == p
    decreases p
  {
    if p > 0 {
      DistinctPrefixCardinality(s, p - 1);
      var init := s[..p - 1];
      var before := set x: nat | x in init;
      assert s[..p] == init + [s[p - 1]];
      assert (set x: nat | x in s[..p]) == before + {s[p - 1]};
      assert s[p - 1] !in before;
    }
  }

  /** In a list without repetitions, an element lies in a prefix exactly when
      its position does. */
  lemma InPrefixIffBefore(s: seq<nat>, p: nat, m: nat)
    requires Distinct(s) && p < |s| && m <= |s|
    ensures s[p] in s[..m] <==> p < m
  {
  }

  /** In a ranked enumeration of all keys, the elements before position `p`
      are exactly the keys that beat the element at `p`. */
  lemma PrefixIsBeaters(s: seq<nat>, score: map<nat, nat>, p: nat)
    requires AllKeys(s, score) && RankOrdered(s, score)
    requires forall j :: j in score ==> j in s
    requires p < |s|
    ensures (set x: nat | x in s[..p]) == Beaters(score, s[p])
  {
  }

  /** A key is selected exactly when fewer than `n` keys are ranked before it.
      This is the top-`n` selection stated without any sorting. */
  lemma SelectIsRankBelow(r: Ranking, n: nat, i: nat)
    requires AscendingKeys(r)
    ensures i in Select(r, n) <==> i in r.score && |Beaters(r.score, i)| < n
  {
    var s := SortByScore(r.order, r.score);
    SortCoversKeys(r);
    var m := Min(n, |s|);
    assert Select(r, n) == s[..m];
    if i in r.score {
      var p :| 0 <= p < |s| && s[p] == i;
      PrefixIsBeaters(s, r.score, p);
      DistinctPrefixCardinality(s, p);
      InPrefixIffBefore(s, p, m);
    } else {
      assert i !in s[..m];
    }
  }

  // ---------------------------------------------------------------------------
  // The ascending re-sort and the join.

  predicate NonDecreasing(s: seq<nat>) {
    forall p, q :: 0 <= p < q < |s| ==> s[p] <= s[q]
  }

  function InsertAscending(x: nat, ys: seq<nat>): (r: seq<nat>)
    ensures multiset(r) == multiset(ys) + multiset{x}
    decreases |ys|
  {
    if |ys| == 0 || x <= ys[0] then [x] + ys
    else
      assert ys == [ys[0]] + ys[1..];
      [ys[0]] + InsertAscending(x, ys[1..])
  }

  lemma {:induction false} InsertAscendingSorted(x: nat, ys: seq<nat>)
    requires NonDecreasing(ys)
    ensures NonDecreasing(InsertAscending(x, ys))
    decreases |ys|
  {
    if |ys| > 0 && x > ys[0] {
      var rest := InsertAscending(x, ys[1..]);
      InsertAscendingSorted(x, ys[1..]);
      forall k | 0 <= k < |rest|
        ensures ys[0] <= rest[k]
      {
        assert rest[k] in multiset(ys[1..]) + multiset{x};
      }
    }
  }

  /** Python's `sorted` on the chosen indices: the same indices in ascending order. */
  function SortAscending(xs: seq<nat>): (r: seq<nat>)
    ensures multiset(r) == multiset(xs)
    ensures NonDecreasing(r)
    decreases |xs|
  {
    if |xs| == 0 then []
    else
      assert xs == [xs[0]] + xs[1..];
      var rest := SortAscending(xs[1..]);
      InsertAscendingSorted(xs[0], rest);
      InsertAscending(xs[0], rest)
  }

  lemma {:induction false} DistinctOccursOnce(a: seq<nat>, v: nat)
    requires Distinct(a)
    ensures multiset(a)[v] <= 1
    decreases |a|
  {
    if |a| > 0 {
      assert a == [a[0]] + a[1..];
      DistinctOccursOnce(a[1..], v);
      if a[0] == v {
        assert v !in a[1..];
      }
    }
  }

  lemma DistinctOfSameMultiset(a: seq<nat>, b: seq<nat>)
    requires Distinct(a) && multiset(a) == multiset(b)
    ensures Distinct(b)
  {
    forall p, q | 0 <= p < q < |b|
      ensures b[p] != b[q]
    {
      if b[p] == b[q] {
        var v := b[p];
        assert b == b[..q] + [v] + b[q + 1..];
        assert v in multiset(b[..q]);
        assert multiset(b)[v] >= 2;
        DistinctOccursOnce(a, v);
        assert false;
      }
    }
  }

  /** Two ascending enumerations of the same indices are the same sequence. */
  lemma {:induction false} AscendingUnique(a: seq<nat>, b: seq<nat>)
    requires StrictlyIncreasing(a) && StrictlyIncreasing(b)
    requires multiset(a) == multiset(b)
    ensures a == b
    decreases |a|
  {
    if |a| == 0 {
      assert |multiset(b)| == 0;
    } else {
      SameHead(a, b);
      AscendingTail(a);
      AscendingTail(b);
      AscendingUnique(a[1..], b[1..]);
      assert a == [a[0]] + a[1..] && b == [b[0]] + b[1..];
    }
  }

  /** Dropping the least element of an ascending enumeration leaves an
      ascending enumeration of the rest. */
  lemma AscendingTail(s: seq<nat>)
    requires StrictlyIncreasing(s) && |s| > 0
    ensures StrictlyIncreasing(s[1..]) && multiset(s[1..]) == multiset(s) - multiset{s[0]}
  {
    assert s == [s[0]] + s[1..];
  }

  /** Two non-empty ascending enumerations of the same indices start with
      their common least element. */
  lemma SameHead(a: seq<nat>, b: seq<nat>)
    requires StrictlyIncreasing(a) && StrictlyIncreasing(b)
    requires multiset(a) == multiset(b) && |a| > 0
    ensures |b| > 0 && a[0] == b[0]
  {
    assert |b| == |multiset(b)| == |a|;
    assert a[0] in multiset(b) && b[0] in multiset(a);
  }

  /** The sentences at the given indices, in the order of the indices. */
  function Pick(sentences: seq<string>, idx: seq<nat>): (r: seq<string>)
    requires forall k :: 0 <= k < |idx| ==> idx[k] < |sentences|
    ensures |r| == |idx|
    ensures forall k :: 0 <= k < |idx| ==> r[k] == sentences[idx[k]]
    decreases |idx|
  {
    if |idx| == 0 then [] else [sentences[idx[0]]] + Pick(sentences, idx[1..])
  }

  /** `' '.join(parts)`: the parts with one space between neighbours. */
  function Join(parts: seq<string>): (r: string)
    ensures |r| == SumLengths(parts) + (if |parts| == 0 then 0 else |parts| - 1)
    ensures |parts| > 0 ==> r[..|parts[0]|] == parts[0]
    ensures |parts| > 1 ==> r[|parts[0]|] == ' '
    decreases |parts|
  {
    if |parts| == 0 then ""
    else if |parts| == 1 then parts[0]
    else parts[0] + " " + Join(parts[1..])
  }

  function SumLengths(parts: seq<string>): (r: nat)
    decreases |parts|
  {
    if |parts| == 0 then 0 else |parts[0]| + SumLengths(parts[1..])
  }

  /** Joining two non-empty lists puts exactly one space between them. */
  lemma {:induction false} JoinAppend(a: seq<string>, b: seq<string>)
    requires |a| > 0 && |b| > 0
    ensures Join(a + b) == Join(a) + " " + Join(b)
    decreases |a|
  {
    if |a| == 1 {
      assert (a + b)[1..] == b;
    } else {
      assert (a + b)[1..] == a[1..] + b;
      JoinAppend(a[1..], b);
    }
  }

  // ---------------------------------------------------------------------------
  // `summarize`.

  datatype SummaryResult =
    | Summary(text: string)
    | InvalidLength(requested: nat, available: nat)

  /** The chosen sentence indices in reading order: exactly the selected keys,
      ascending, however the selection was ordered. */
  function SummaryIndices(r: Ranking, n: nat): (idx: seq<nat>)
    requires WellFormed(r)
    ensures StrictlyIncreasing(idx)
    ensures multiset(idx) == multiset(Select(r, n))
    ensures |idx| == Min(n, |r.order|)
  {
    var sel := Select(r, n);
    var idx := SortAscending(sel);
    DistinctOfSameMultiset(sel, idx);
    idx
  }

  /** `summarize`: a request for more sentences than the document has is
      refused with no summary; otherwise the chosen sentences, in reading
      order, joined by single spaces. */
  function Summarize(r: Ranking, sentences: seq<string>, length: nat): (res: SummaryResult)
    requires WellFormed(r)
    requires forall i :: i in r.score ==> i < |sentences|
    ensures res.InvalidLength? <==> length > |sentences|
    ensures res.InvalidLength? ==> res.requested == length && res.available == |sentences|
    ensures res.Summary? ==>
      var idx := SummaryIndices(r, length);
      (forall k :: 0 <= k < |idx| ==> idx[k] < |sentences|) &&
      res.text == Join(Pick(sentences, idx))
  {
    if length > |sentences| then InvalidLength(length, |sentences|)
    else
      var idx := SummaryIndices(r, length);
      assert forall k :: 0 <= k < |idx| ==> idx[k] in multiset(Select(r, length));
      Summary(Join(Pick(sentences, idx)))
  }

  /** The summary's sentence order never depends on the rank order: any
      ascending listing of the selected indices yields the same text. */
  lemma SummaryInReadingOrder(r: Ranking, sentences: seq<string>, length: nat, idx: seq<nat>)
    requires WellFormed(r)
    requires forall i :: i in r.score ==> i < |sentences|
    requires length <= |sentences|
    requires StrictlyIncreasing(idx) && multiset(idx) == multiset(Select(r, length))
    ensures forall k :: 0 <= k < |idx| ==> idx[k] < |sentences|
    ensures Summarize(r, sentences, length) == Summary(Join(Pick(sentences, idx)))
  {
    assert forall k :: 0 <= k < |idx| ==> idx[k] in multiset(Select(r, length));
    AscendingUnique(idx, SummaryIndices(r, length));
  }
}
