/**
 A worked document showing the visible effect of the case mismatch between
 the frequency table and the lower-cased lookups:

   "Cats are great. Dogs are great too. Cats and dogs are both popular pets."

 The significant words keep the capitalised "Cats" and "Dogs", so the table
 counts "Cats" twice, but the scorer only ever looks up "cats". The sentences
 score 2, 3 and 3, and a two-sentence summary leaves out the first sentence.
 */
module Scenario {
  import opened Normalizer
  import opened Tokenizer
  import opened Scorer
  import opened Selector
  import opened Pipeline

  const First: string := "Cats are great."
  const Second: string := "Dogs are great too."
  const Third: string := "Cats and dogs are both popular pets."

  /** The document's word tokens, sentence by sentence, cut into small
      pieces so that each filtering step stays small. */
  const FirstTokens: seq<string> := ["Cats", "are", "great", "."]
  const SecondHead: seq<string> := ["Dogs", "are", "great"]
  const SecondTail: seq<string> := ["too", "."]
  const ThirdTokensHead: seq<string> := ["Cats", "and", "dogs", "are"]
  const ThirdTokensTail: seq<string> := ["both", "popular", "pets", "."]

  /** The significant words, the same pieces filtered. */
  const Significant: seq<string> := ["Cats", "great"] + ["Dogs", "great"] + ["Cats", "dogs"] + ["popular", "pets"]

  /** The tokens each sentence is scored on, after lower-casing. */
  const FirstWords: seq<string> := ["cats", "are", "great", "."]
  const SecondWords: seq<string> := ["dogs", "are", "great", "too", "."]
  const ThirdHead: seq<string> := ["cats", "and", "dogs", "are"]
  const ThirdTail: seq<string> := ["both", "popular", "pets", "."]

  /** The frequency table of the significant words. */
  const Table: FreqTable := map["Cats" := 2, "great" := 2, "Dogs" := 1, "dogs" := 1, "popular" := 1, "pets" := 1]

  /** A front token outside the stop set is kept ahead of the rest. */
  lemma Keep(ws: seq<string>, stop: set<string>, rest: seq<string>)
    requires |ws| > 0 && ws[0] !in stop && FilterWords(ws[1..], stop) == rest
    ensures FilterWords(ws, stop) == [ws[0]] + rest
  {
  }

  /** A front token in the stop set is dropped. */
  lemma Drop(ws: seq<string>, stop: set<string>, rest: seq<string>)
    requires |ws| > 0 && ws[0] in stop && FilterWords(ws[1..], stop) == rest
    ensures FilterWords(ws, stop) == rest
  {
  }

  /** Which of the document's tokens the filter drops. */
  predicate StopFacts(stop: set<string>) {
    && "are" in stop && "too" in stop && "and" in stop && "both" in stop && "." in stop
    && "Cats" !in stop && "Dogs" !in stop && "great" !in stop && "dogs" !in stop
    && "popular" !in stop && "pets" !in stop
  }

  /** What the English stopword list says about the document's words: it
      holds "are", "too", "and" and "both" and none of the content words. */
  predicate StopwordFacts(stopwords: set<string>) {
    && "are" in stopwords && "too" in stopwords && "and" in stopwords && "both" in stopwords
    && "Cats" !in stopwords && "Dogs" !in stopwords && "great" !in stopwords && "dogs" !in stopwords
    && "popular" !in stopwords && "pets" !in stopwords
  }

  /** Adding the punctuation tokens to such a list filters the full stop too,
      and still none of the content words, which are longer than one
      character. */
  lemma StopwordsFilter(stopwords: set<string>)
    requires StopwordFacts(stopwords)
    ensures StopFacts(StopSet(stopwords))
  {
    assert "."[0] in Punctuation;
    forall w | w in ["Cats", "Dogs", "great", "dogs", "popular", "pets"]
      ensures w !in StopSet(stopwords)
    {
      assert |w| > 1 && w !in stopwords;
    }
  }

  lemma FirstFiltered(stop: set<string>)
    requires StopFacts(stop)
    ensures FilterWords(FirstTokens, stop) == ["Cats", "great"]
  {
    Drop(["."], stop, []);
    Keep(["great", "."], stop, []);
    Drop(["are", "great", "."], stop, ["great"]);
    Keep(FirstTokens, stop, ["great"]);
  }

  lemma SecondFiltered(stop: set<string>)
    requires StopFacts(stop)
    ensures FilterWords(SecondHead, stop) == ["Dogs", "great"]
    ensures FilterWords(SecondTail, stop) == []
  {
    Drop(["."], stop, []);
    Drop(SecondTail, stop, []);
    Keep(["great"], stop, []);
    Drop(["are", "great"], stop, ["great"]);
    Keep(SecondHead, stop, ["great"]);
  }

  lemma ThirdHeadFiltered(stop: set<string>)
    requires StopFacts(stop)
    ensures FilterWords(ThirdTokensHead, stop) == ["Cats", "dogs"]
  {
    Drop(["are"], stop, []);
    Keep(["dogs", "are"], stop, []);
    Drop(["and", "dogs", "are"], stop, ["dogs"]);
    Keep(ThirdTokensHead, stop, ["dogs"]);
  }

  lemma ThirdTailFiltered(stop: set<string>)
    requires StopFacts(stop)
    ensures FilterWords(ThirdTokensTail, stop) == ["popular", "pets"]
  {
    Drop(["."], stop, []);
    Keep(["pets", "."], stop, []);
    Keep(["popular", "pets", "."], stop, ["pets"]);
    Drop(ThirdTokensTail, stop, ["popular", "pets"]);
  }

  /** Filtering distributes over the pieces of the document. */
  lemma FilterPieces(a: seq<string>, b: seq<string>, stop: set<string>, ka: seq<string>, kb: seq<string>)
    requires FilterWords(a, stop) == ka && FilterWords(b, stop) == kb
    ensures FilterWords(a + b, stop) == ka + kb
  {
    FilterWordsAppend(a, b, stop);
  }

  /** The document's word tokens. */
  function DocTokens(): (r: seq<string>) {
    FirstTokens + SecondHead + SecondTail + ThirdTokensHead + ThirdTokensTail
  }

  /** Filtering the document's tokens keeps the capitalised "Cats" and
      "Dogs" as written. */
  lemma SignificantWords(stop: set<string>)
    requires StopFacts(stop)
    ensures FilterWords(DocTokens(), stop) == Significant
  {
    FirstFiltered(stop);
    SecondFiltered(stop);
    ThirdHeadFiltered(stop);
    ThirdTailFiltered(stop);
    var k1: seq<string>, k2: seq<string> := ["Cats", "great"], ["Dogs", "great"];
    var k4: seq<string>, k5: seq<string> := ["Cats", "dogs"], ["popular", "pets"];
    FilterPieces(FirstTokens, SecondHead, stop, k1, k2);
    FilterPieces(FirstTokens + SecondHead, SecondTail, stop, k1 + k2, []);
    assert k1 + k2 + [] == k1 + k2;
    FilterPieces(FirstTokens + SecondHead + SecondTail, ThirdTokensHead, stop, k1 + k2, k4);
    FilterPieces(FirstTokens + SecondHead + SecondTail + ThirdTokensHead, ThirdTokensTail, stop, k1 + k2 + k4, k5);
  }

  lemma TableKeys()
    ensures forall w :: w in Frequencies(Significant) ==> w in Table
  {
    forall w | w in Frequencies(Significant)
      ensures w in Table
    {
      assert w in Significant;
    }
  }

  lemma TableValues()
    ensures forall w :: w in Table ==> w in Frequencies(Significant) && Frequencies(Significant)[w] == Table[w]
  {
    forall w | w in Table
      ensures w in Frequencies(Significant) && Frequencies(Significant)[w] == Table[w]
    {
      assert w in Significant;
      assert multiset(Significant)[w] == Table[w];
    }
  }

  /** `FreqDist` of the significant words: "Cats" is counted, "cats" is not. */
  lemma TableIsFrequencies()
    ensures Frequencies(Significant) == Table
  {
    TableKeys();
    TableValues();
  }

  lemma FirstScore()
    ensures HitSum(FirstWords, Table) == 2
  {
    HitSumSnoc(FirstWords, 0, Table);
    HitSumSnoc(FirstWords, 1, Table);
    HitSumSnoc(FirstWords, 2, Table);
    HitSumSnoc(FirstWords, 3, Table);
    assert FirstWords[..4] == FirstWords;
  }

  lemma SecondScore()
    ensures HitSum(SecondWords, Table) == 3
  {
    HitSumSnoc(SecondWords, 0, Table);
    HitSumSnoc(SecondWords, 1, Table);
    HitSumSnoc(SecondWords, 2, Table);
    HitSumSnoc(SecondWords, 3, Table);
    HitSumSnoc(SecondWords, 4, Table);
    assert SecondWords[..5] == SecondWords;
  }

  lemma ThirdHeadScore()
    ensures HitSum(ThirdHead, Table) == 1
  {
    HitSumSnoc(ThirdHead, 0, Table);
    HitSumSnoc(ThirdHead, 1, Table);
    HitSumSnoc(ThirdHead, 2, Table);
    HitSumSnoc(ThirdHead, 3, Table);
    assert ThirdHead[..4] == ThirdHead;
  }

  lemma ThirdTailScore()
    ensures HitSum(ThirdTail, Table) == 2
  {
    HitSumSnoc(ThirdTail, 0, Table);
    HitSumSnoc(ThirdTail, 1, Table);
    HitSumSnoc(ThirdTail, 2, Table);
    HitSumSnoc(ThirdTail, 3, Table);
    assert ThirdTail[..4] == ThirdTail;
  }

  /** The third sentence scores "dogs", "popular" and "pets", but not its
      "cats". */
  lemma ThirdScore()
    ensures HitSum(ThirdHead + ThirdTail, Table) == 3
  {
    ThirdHeadScore();
    ThirdTailScore();
    HitSumAppend(ThirdHead, ThirdTail, Table);
  }

  /** Every ranking the scorer can build for the document: the splitter
      yields the three sentences and the word splitter the tokens above. */
  lemma Scores(tk: Toolkit, r: Ranking)
    requires SentenceWords(tk, First) == FirstWords
    requires SentenceWords(tk, Second) == SecondWords
    requires SentenceWords(tk, Third) == ThirdHead + ThirdTail
    requires IsRankingOf(r, [First, Second, Third], Frequencies(Significant), tk)
    ensures r.score == map[0 := 2, 1 := 3, 2 := 3]
  {
    TableIsFrequencies();
    ScoresOverTable(tk, r);
  }

  lemma ScoresOverTable(tk: Toolkit, r: Ranking)
    requires SentenceWords(tk, First) == FirstWords
    requires SentenceWords(tk, Second) == SecondWords
    requires SentenceWords(tk, Third) == ThirdHead + ThirdTail
    requires IsRankingOf(r, [First, Second, Third], Table, tk)
    ensures r.score == map[0 := 2, 1 := 3, 2 := 3]
  {
    FirstScore();
    SecondScore();
    ThirdScore();
    var sentences := [First, Second, Third];
    forall i: nat
      ensures i in r.score <==> i < 3
    {
      if i == 0 {
        assert sentences[i] == First && FirstWords[2] in Table;
      } else if i == 1 {
        assert sentences[i] == Second && SecondWords[0] in Table;
      } else if i == 2 {
        assert sentences[i] == Third && (ThirdHead + ThirdTail)[2] in Table;
      }
    }
    assert sentences[0] == First && sentences[1] == Second && sentences[2] == Third;
    ThreeKeys(r.score);
  }

  /** A map whose keys are 0, 1 and 2 is the display of its three entries. */
  lemma ThreeKeys(m: map<nat, nat>)
    requires forall i: nat :: i in m <==> i < 3
    ensures m == map[0 := m[0], 1 := m[1], 2 := m[2]]
  {
  }

  /** A dictionary with keys 0, 1 and 2 lists three keys. */
  lemma ThreeListed(r: Ranking)
    requires WellFormed(r) && r.score == map[0 := 2, 1 := 3, 2 := 3]
    ensures |r.order| == 3
  {
    ScoredCountIsKeyCount(r);
    assert r.score.Keys == {0, 1, 2};
  }

  /** The first sentence, scoring below both others, is not among the two
      best. */
  lemma TopTwoSelected(r: Ranking)
    requires WellFormed(r) && r.score == map[0 := 2, 1 := 3, 2 := 3] && |r.order| == 3
    ensures 1 in Select(r, 2) && 2 in Select(r, 2)
  {
    var sel := Select(r, 2);
    assert forall x :: x in sel <==> x == sel[0] || x == sel[1];
    assert !(0 in sel && 1 in sel && 2 in sel);
    assert 0 in sel ==> 1 in sel && 2 in sel;
    assert sel[0] in r.score && sel[1] in r.score && sel[0] != sel[1];
  }

  /** With scores 2, 3 and 3, the two best sentences are the second and the
      third, whatever order the keys were created in. */
  lemma TopTwo(r: Ranking)
    requires WellFormed(r) && r.score == map[0 := 2, 1 := 3, 2 := 3]
    ensures SummaryIndices(r, 2) == [1, 2]
  {
    ThreeListed(r);
    TopTwoSelected(r);
    var sel := Select(r, 2);
    var idx := SummaryIndices(r, 2);
    assert 1 in multiset(idx) && 2 in multiset(idx);
    assert idx[0] in multiset(sel) && idx[1] in multiset(sel);
  }

  /** The driver on the document, asked for two sentences: whenever the
      splitters yield the sentences and tokens above and the stopword list
      holds "are", "too", "and" and "both" but none of the content words, the
      scores are 2, 3 and 3 and the summary is the second and the third
      sentence, although the first mentions cats: with "dogs" and "great", one of
      the document's most frequent content words, and counted in the table
      under "Cats" as often as "great". */
  method SummarizeDocument(raw: string, tk: Toolkit) returns (ranking: Ranking, res: SummaryResult)
    requires tk.sentTokenize(Sanitize(raw)) == [First, Second, Third]
    requires tk.wordTokenize(Sanitize(raw)) == DocTokens()
    requires StopwordFacts(tk.stopwords)
    requires SentenceWords(tk, First) == FirstWords
    requires SentenceWords(tk, Second) == SecondWords
    requires SentenceWords(tk, Third) == ThirdHead + ThirdTail
    ensures ranking.score == map[0 := 2, 1 := 3, 2 := 3]
    ensures res == Summary(Second + " " + Third)
  {
    ranking, res := SummarizeText(raw, tk, 2);
    StopwordsFilter(tk.stopwords);
    SignificantWords(StopSet(tk.stopwords));
    Scores(tk, ranking);
    TopTwo(ranking);
    LastTwoJoined([First, Second, Third]);
  }

  /** Picking indices 1 and 2 of three sentences and joining them puts one
      space between the two. */
  lemma LastTwoJoined(sentences: seq<string>)
    requires |sentences| == 3
    ensures Join(Pick(sentences, [1, 2])) == sentences[1] + " " + sentences[2]
  {
    assert Pick(sentences, [1, 2]) == [sentences[1], sentences[2]];
    assert Join([sentences[1], sentences[2]]) == sentences[1] + " " + Join([sentences[2]]);
  }
}
