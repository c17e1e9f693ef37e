/**
 The summariser end to end, as its driver strings the stages together:
 normalise, tokenise, score, select. File reading and argument parsing stay
 outside; the raw text and the requested length are inputs.
 */
module Pipeline {
  import opened Normalizer
  import opened Tokenizer
  import opened Scorer
  import opened Selector

  /** Number of sentences with at least one scored token: the length of the
      key list, which is the number of keys. */
  function ScoredCount(r: Ranking): (n: nat) {
    |r.order|
  }

  /** The key list of a dictionary has one entry per key. */
  lemma ScoredCountIsKeyCount(r: Ranking)
    requires WellFormed(r)
    ensures ScoredCount(r) == |r.score.Keys|
  {
    DistinctPrefixCardinality(r.order, |r.order|);
    assert r.order[..|r.order|] == r.order;
    assert (set x: nat | x in r.order) == r.score.Keys;
  }

  /** The driver: `sanitize_input`, `tokenize_content`, `score_tokens` and
      `summarize` in turn. The run is refused exactly when more sentences are
      requested than the normalised text has; otherwise the summary joins,
      in reading order, `min(length, sentences with a hit)` sentences. */
  method SummarizeText(raw: string, tk: Toolkit, length: nat)
    returns (ranking: Ranking, res: SummaryResult)
    ensures var text := Sanitize(raw);
      var sentences := tk.sentTokenize(text);
      var words := FilterWords(tk.wordTokenize(text), StopSet(tk.stopwords));
      && IsRankingOf(ranking, sentences, Frequencies(words), tk)
      && AscendingKeys(ranking)
      && (res.InvalidLength? <==> length > |sentences|)
      && (res.Summary? ==>
            var idx := SummaryIndices(ranking, length);
            && |idx| == Min(length, ScoredCount(ranking))
            && (forall k :: 0 <= k < |idx| ==> idx[k] < |sentences|)
            && res.text == Join(Pick(sentences, idx)))
  {
    var text := Sanitize(raw);
    var (sentences, words) := TokenizeContent(text, tk);
    ranking := ScoreTokens(words, sentences, tk);
    res := Summarize(ranking, sentences, length);
  }

  /** Only sentences with at least one token in the frequency table can be
      chosen: a sentence without hits has no key in the ranking. */
  lemma ChosenSentencesHaveHits(r: Ranking, sentences: seq<string>, freq: FreqTable, tk: Toolkit, n: nat, i: nat)
    requires WellFormed(r) && IsRankingOf(r, sentences, freq, tk)
    requires i in Select(r, n)
    ensures i < |sentences| && HasHit(SentenceWords(tk, sentences[i]), freq)
  {
  }

  /** A one-sentence document asked for one sentence gives back that sentence
      verbatim when one of its tokens is scored, and the empty text when none
      is (the ranking then has no key to choose). */
  lemma SingleSentence(r: Ranking, sentence: string, freq: FreqTable, tk: Toolkit)
    requires WellFormed(r) && IsRankingOf(r, [sentence], freq, tk)
    ensures Summarize(r, [sentence], 1) ==
      if HasHit(SentenceWords(tk, sentence), freq) then Summary(sentence) else Summary("")
  {
    OnlyKeyZero(r);
    var idx := SummaryIndices(r, 1);
    if HasHit(SentenceWords(tk, sentence), freq) {
      assert 0 in r.score;
      assert idx[0] in multiset(Select(r, 1));
      assert idx == [0];
    } else {
      assert 0 !in r.score;
      assert idx == [];
    }
  }

  /** A dictionary whose only possible key is 0 lists 0 or nothing. */
  lemma OnlyKeyZero(r: Ranking)
    requires WellFormed(r) && forall i :: i in r.score ==> i == 0
    ensures r.order == if 0 in r.score then [0] else []
  {
    if |r.order| > 0 {
      assert r.order[0] in r.score;
      if |r.order| > 1 {
        assert r.order[1] in r.score;
      }
    }
  }

  /** Asking for no sentences gives the empty summary. */
  lemma ZeroLength(r: Ranking, sentences: seq<string>)
    requires WellFormed(r)
    requires forall i :: i in r.score ==> i < |sentences|
    ensures Summarize(r, sentences, 0) == Summary("")
  {
  }
}
