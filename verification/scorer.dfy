/**
 Term-frequency scoring: the frequency table over the significant words, and
 the ranking that gives each sentence the summed frequency of its lower-cased
 tokens. The ranking is Python's insertion-ordered `defaultdict(int)`, so it is
 modelled as a map together with the order in which its keys were created.
 */
module Scorer {
  import opened Tokenizer

  /** Frequency table: token to its number of occurrences. */
  type FreqTable = map<string, nat>

  /** The `FreqDist` over the filtered words: counts the tokens one after another. The
      table holds exactly the tokens that occur, each with its exact,
      case-sensitive count. */
  function Frequencies(words: seq<string>): (m: FreqTable)
    ensures forall w :: w in m <==> w in words
    ensures forall w :: w in m ==> m[w] == multiset(words)[w] && m[w] >= 1
    decreases |words|
  {
    if |words| == 0 then map[]
    else
      var init := words[..|words| - 1];
      var w := words[|words| - 1];
      assert words == init + [w];
      var prev := Frequencies(init);
      prev[w := (if w in prev then prev[w] else 0) + 1]
  }

  /** Two token lists with the same multiset give the same table: the table
      does not depend on the order of the words. */
  lemma FrequenciesDependOnMultisetOnly(a: seq<string>, b: seq<string>)
    requires multiset(a) == multiset(b)
    ensures Frequencies(a) == Frequencies(b)
  {
  }

  /** Frequencies of the filtered words are the document counts of every token
      outside the stop set, and the stop tokens are absent. */
  lemma FrequenciesOfFiltered(words: seq<string>, stop: set<string>, w: string)
    ensures var m := Frequencies(FilterWords(words, stop));
      (w in m <==> w !in stop && w in words) &&
      (w in m ==> m[w] == multiset(words)[w])
  {
  }

  // ---------------------------------------------------------------------------
  // Scoring one sentence.

  /** The tokens a sentence is scored on: its lower-cased text, re-tokenised. */
  function SentenceWords(tk: Toolkit, sentence: string): (r: seq<string>) {
    tk.wordTokenize(tk.lower(sentence))
  }

  /** Some token of the sentence is in the table. */
  predicate HasHit(words: seq<string>, freq: FreqTable) {
    exists k :: 0 <= k < |words| && words[k] in freq
  }

  /** The sum of `freq[w]` over the tokens `w` that are in the table, each
      occurrence counted. Lookups that miss contribute nothing; when every
      table entry is positive, the sum is positive exactly when there is a hit. */
  function HitSum(words: seq<string>, freq: FreqTable): (s: nat)
    ensures (forall w :: w in freq ==> freq[w] >= 1) ==> (s >= 1 <==> HasHit(words, freq))
    ensures !HasHit(words, freq) ==> s == 0
    decreases |words|
  {
    if |words| == 0 then 0
    else
      var init := words[..|words| - 1];
      var w := words[|words| - 1];
      assert forall k :: 0 <= k < |init| ==> init[k] == words[k];
      HitSum(init, freq) + (if w in freq then freq[w] else 0)
  }

  /** A sentence's score is additive over its parts. */
  lemma {:induction false} HitSumAppend(a: seq<string>, b: seq<string>, freq: FreqTable)
    ensures HitSum(a + b, freq) == HitSum(a, freq) + HitSum(b, freq)
    decreases |b|
  {
    if |b| == 0 {
      assert a + b == a;
    } else {
      var b' := b[..|b| - 1];
      assert (a + b)[..|a + b| - 1] == a + b';
      assert (a + b)[|a + b| - 1] == b[|b| - 1];
      HitSumAppend(a, b', freq);
    }
  }

  /** Adding a token to a sentence, a duplicate of one already there or not,
      never lowers its score. */
  lemma AddedTokenNeverLowersScore(a: seq<string>, b: seq<string>, w: string, freq: FreqTable)
    ensures HitSum(a + [w] + b, freq) >= HitSum(a + b, freq)
  {
    HitSumAppend(a + [w], b, freq);
    HitSumAppend(a, [w], freq);
    HitSumAppend(a, b, freq);
  }

  /** Removing one token takes exactly its table entry off the score. */
  lemma HitSumRemove(b: seq<string>, k: nat, freq: FreqTable)
    requires k < |b|
    ensures HitSum(b, freq) == HitSum(b[..k] + b[k + 1..], freq) + (if b[k] in freq then freq[b[k]] else 0)
  {
    assert b == b[..k] + [b[k]] + b[k + 1..];
    HitSumAppend(b[..k] + [b[k]], b[k + 1..], freq);
    HitSumAppend(b[..k], [b[k]], freq);
    HitSumAppend(b[..k], b[k + 1..], freq);
  }

  /** A sentence's score does not depend on the order of its tokens. */
  lemma {:induction false} HitSumPermutation(a: seq<string>, b: seq<string>, freq: FreqTable)
    requires multiset(a) == multiset(b)
    ensures HitSum(a, freq) == HitSum(b, freq)
    decreases |a|
  {
    if |a| > 0 {
      var w := a[|a| - 1];
      var a' := a[..|a| - 1];
      assert a == a' + [w];
      assert w in multiset(b);
      var k :| 0 <= k < |b| && b[k] == w;
      var b' := b[..k] + b[k + 1..];
      RemoveOne(b, k);
      assert multiset(a') == multiset(a) - multiset{w};
      HitSumPermutation(a', b', freq);
      HitSumRemove(b, k, freq);
    }
  }

  /** Taking out the token at `k` takes one copy of it out of the multiset. */
  lemma RemoveOne(b: seq<string>, k: nat)
    requires k < |b|
    ensures multiset(b[..k] + b[k + 1..]) == multiset(b) - multiset{b[k]}
  {
    assert b == b[..k] + [b[k]] + b[k + 1..];
  }

  /** One more token extends the hits and the score by that token alone. */
  lemma HitSumSnoc(words: seq<string>, j: nat, freq: FreqTable)
    requires j < |words|
    ensures HasHit(words[..j + 1], freq) <==> HasHit(words[..j], freq) || words[j] in freq
    ensures HitSum(words[..j + 1], freq) == HitSum(words[..j], freq) + (if words[j] in freq then freq[words[j]] else 0)
  {
    assert words[..j + 1] == words[..j] + [words[j]];
    assert forall k :: 0 <= k < j ==> words[..j + 1][k] == words[..j][k];
  }

  /** A table entry that is not among the tokens contributes nothing: the
      score is the same with the entry removed. */
  lemma {:induction false} HitSumWithout(words: seq<string>, freq: FreqTable, w: string)
    requires w !in words
    ensures HitSum(words, freq) == HitSum(words, freq - {w})
    decreases |words|
  {
    if |words| > 0 {
      var init := words[..|words| - 1];
      assert forall k :: 0 <= k < |init| ==> init[k] == words[k];
      HitSumWithout(init, freq, w);
    }
  }

  /** A table entry that lower-cased text never produces as a token, such as a
      capitalised word counted in the table, never adds to any sentence's
      score. */
  lemma UnmatchedEntryNeverScores(tk: Toolkit, sentence: string, freq: FreqTable, w: string)
    requires forall s :: w !in tk.wordTokenize(tk.lower(s))
    ensures HitSum(SentenceWords(tk, sentence), freq) == HitSum(SentenceWords(tk, sentence), freq - {w})
  {
    HitSumWithout(SentenceWords(tk, sentence), freq, w);
  }

  /** A table whose entries are each at least as large gives every sentence at
      least as high a score. */
  lemma {:induction false} HitSumMonotoneInTable(words: seq<string>, f: FreqTable, g: FreqTable)
    requires forall w :: w in f ==> w in g && f[w] <= g[w]
    ensures HitSum(words, f) <= HitSum(words, g)
    decreases |words|
  {
    if |words| > 0 {
      HitSumMonotoneInTable(words[..|words| - 1], f, g);
    }
  }

  /** A document with more of every token has every table entry at least as
      large. */
  lemma FrequenciesMonotone(a: seq<string>, b: seq<string>)
    requires multiset(a) <= multiset(b)
    ensures forall w :: w in Frequencies(a) ==> w in Frequencies(b) && Frequencies(a)[w] <= Frequencies(b)[w]
  {
    forall w | w in Frequencies(a)
      ensures w in Frequencies(b) && Frequencies(a)[w] <= Frequencies(b)[w]
    {
      assert w in multiset(b);
    }
  }

  /** Adding a word to a sentence of the document, a duplicate of one already
      there or not, never lowers that sentence's score: the sentence gains a
      token, and the table built from the grown document has no smaller entry. */
  lemma AddedWordNeverLowersScore(docOld: seq<string>, docNew: seq<string>, stop: set<string>,
                                  a: seq<string>, b: seq<string>, w: string)
    requires multiset(docOld) <= multiset(docNew)
    ensures HitSum(a + b, Frequencies(FilterWords(docOld, stop)))
         <= HitSum(a + [w] + b, Frequencies(FilterWords(docNew, stop)))
  {
    var fOld, fNew := FilterWords(docOld, stop), FilterWords(docNew, stop);
    assert multiset(fOld) <= multiset(fNew) by {
      assert forall x :: multiset(fOld)[x] <= multiset(fNew)[x];
    }
    FrequenciesMonotone(fOld, fNew);
    HitSumMonotoneInTable(a + b, Frequencies(fOld), Frequencies(fNew));
    AddedTokenNeverLowersScore(a, b, w, Frequencies(fNew));
  }

  // ---------------------------------------------------------------------------
  // The ranking table.

  /** An insertion-ordered dictionary from sentence index to score: `order`
      lists the keys in the order they were created. */
  datatype Ranking = Ranking(order: seq<nat>, score: map<nat, nat>)

  predicate StrictlyIncreasing(s: seq<nat>) {
    forall p, q :: 0 <= p < q < |s| ==> s[p] < s[q]
  }

  predicate Distinct<T(==)>(s: seq<T>) {
    forall p, q :: 0 <= p < q < |s| ==> s[p] != s[q]
  }

  /** What every dictionary satisfies: `order` lists each key of `score` once. */
  predicate WellFormed(r: Ranking) {
    && Distinct(r.order)
    && (forall i :: i in r.order ==> i in r.score)
    && (forall i :: i in r.score ==> i in r.order)
  }

  /** The keys were created in ascending index order. */
  predicate AscendingKeys(r: Ranking) {
    WellFormed(r) && StrictlyIncreasing(r.order)
  }

  /** The ranking `score_tokens` builds: a key for exactly the sentences with at
      least one hit, mapped to the sum of their hits. */
  ghost predicate IsRankingOf(r: Ranking, sentences: seq<string>, freq: FreqTable, tk: Toolkit) {
    && (forall i: nat :: i in r.score <==> i < |sentences| && HasHit(SentenceWords(tk, sentences[i]), freq))
    && (forall i :: i in r.score ==> r.score[i] == HitSum(SentenceWords(tk, sentences[i]), freq))
  }

  /** The dictionary bookkeeping shared by both loops of `score_tokens`: a
      well-formed ranking with ascending keys, all below `bound`. */
  ghost predicate OrderedBelow(order: seq<nat>, score: map<nat, nat>, bound: nat) {
    && AscendingKeys(Ranking(order, score))
    && (forall k :: k in order ==> k < bound)
  }

  /** The inner loop of `score_tokens` for sentence `i`: every token of the
      sentence that hits the table adds its entry to slot `i`, which is
      created on the first hit. Slot `i` ends up present exactly when there is
      a hit, holding the sum of the hits; no other slot changes. */
  method ScoreSentence(i: nat, words: seq<string>, freq: FreqTable, order0: seq<nat>, score0: map<nat, nat>)
    returns (order: seq<nat>, score: map<nat, nat>)
    requires OrderedBelow(order0, score0, i)
    ensures OrderedBelow(order, score, i + 1)
    ensures forall k :: k != i ==> (k in score <==> k in score0)
    ensures forall k :: k != i && k in score ==> score[k] == score0[k]
    ensures i in score <==> HasHit(words, freq)
    ensures i in score ==> score[i] == HitSum(words, freq)
  {
    order, score := order0, score0;
    var j := 0;
    while j < |words|
      invariant 0 <= j <= |words|
      invariant forall k :: k != i ==> (k in score <==> k in score0)
      invariant forall k :: k != i && k in score ==> score[k] == score0[k]
      invariant i in score <==> HasHit(words[..j], freq)
      invariant i in score ==> score[i] == HitSum(words[..j], freq)
      invariant order == order0 || order == order0 + [i]
      invariant OrderedBelow(order, score, i + 1)
    {
      var w := words[j];
      HitSumSnoc(words, j, freq);
      if w in freq {
        // an in-place add on a defaultdict: a missing slot starts at zero
        var current := if i in score then score[i] else 0;
        if i !in score {
          assert order == order0;
          assert forall p :: 0 <= p < |order| ==> order[p] in order0;
          order := order + [i];
        }
        score := score[i := current + freq[w]];
      }
      j := j + 1;
    }
    assert words[..j] == words;
  }

  /** `score_tokens`: builds the frequency table over the filtered words, then,
      sentence by sentence and token by token, adds the table entry of every
      lower-cased token that hits it to that sentence's slot, creating the slot
      (at zero) on the first hit. Sentences without hits get no key; every key
      is a sentence index with a positive score; keys are created in ascending
      order. */
  method ScoreTokens(filtered: seq<string>, sentences: seq<string>, tk: Toolkit)
    returns (ranking: Ranking)
    ensures IsRankingOf(ranking, sentences, Frequencies(filtered), tk)
    ensures AscendingKeys(ranking)
    ensures forall i :: i in ranking.score ==> i < |sentences| && ranking.score[i] >= 1
  {
    var freq := Frequencies(filtered);
    var order: seq<nat> := [];
    var score: map<nat, nat> := map[];
    var i := 0;
    while i < |sentences|
      invariant 0 <= i <= |sentences|
      invariant forall k: nat :: k in score <==> k < i && HasHit(SentenceWords(tk, sentences[k]), freq)
      invariant forall k :: k in score ==> score[k] == HitSum(SentenceWords(tk, sentences[k]), freq)
      invariant OrderedBelow(order, score, i)
    {
      order, score := ScoreSentence(i, SentenceWords(tk, sentences[i]), freq, order, score);
      i := i + 1;
    }
    ranking := Ranking(order, score);
  }
}
