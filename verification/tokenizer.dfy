/**
 Tokenisation of normalised text into sentences and significant words. The
 natural-language toolkit's sentence splitter, word splitter and English
 stopword list, and Python's `str.lower`, are not modelled; they are passed
 in as a `Toolkit` value, so the rest of the pipeline is a pure function of
 its inputs.
 */
module Tokenizer {

  /** The foreign collaborators of the pipeline. */
  datatype Toolkit = Toolkit(
    sentTokenize: string -> seq<string>,
    wordTokenize: string -> seq<string>,
    lower: string -> string,
    stopwords: set<string>)

  /** Python's `string.punctuation`: the 32 ASCII punctuation characters. */
  const Punctuation: string := "!\"#$%&'()*+,-./:;<=>?@[\\]^_`{|}~"

  /** Each punctuation character as a one-character token. */
  function PunctuationTokens(): (p: set<string>)
    ensures forall t :: t in p <==> |t| == 1 && t[0] in Punctuation
  {
    var p := set c | c in Punctuation :: [c];
    assert forall t: string :: |t| == 1 ==> t == [t[0]];
    p
  }

  /** The filter set: the stopwords together with every punctuation token. */
  function StopSet(stopwords: set<string>): (stop: set<string>)
    ensures forall w :: w in stop <==> w in stopwords || (|w| == 1 && w[0] in Punctuation)
  {
    stopwords + PunctuationTokens()
  }

  /** `a` can be obtained from `b` by deleting elements. */
  predicate IsSubsequence<T(==)>(a: seq<T>, b: seq<T>)
    decreases |b|
  {
    if |a| == 0 then true
    else if |b| == 0 then false
    else if a[0] == b[0] then IsSubsequence(a[1..], b[1..])
    else IsSubsequence(a, b[1..])
  }

  /** The list comprehension that drops filtered tokens: an order-preserving
      subsequence of the tokens that contains no member of the stop set and
      every other token as often as the input does. */
  function FilterWords(words: seq<string>, stop: set<string>): (r: seq<string>)
    ensures IsSubsequence(r, words)
    ensures forall k :: 0 <= k < |r| ==> r[k] !in stop
    ensures forall w :: multiset(r)[w] == if w in stop then 0 else multiset(words)[w]
    decreases |words|
  {
    if |words| == 0 then []
    else
      assert words == [words[0]] + words[1..];
      var rest := FilterWords(words[1..], stop);
      if words[0] in stop then rest
      else
        assert ([words[0]] + rest)[1..] == rest;
        [words[0]] + rest
  }

  /** `tokenize_content`: the sentences of the text, unfiltered, and the
      significant words of the whole text: every word token that is neither a
      stopword nor punctuation, in document order, as often as it occurs. */
  function TokenizeContent(data: string, tk: Toolkit): (r: (seq<string>, seq<string>))
    ensures r.0 == tk.sentTokenize(data)
    ensures forall k :: 0 <= k < |r.1| ==> r.1[k] !in tk.stopwords && r.1[k] !in PunctuationTokens()
    ensures IsSubsequence(r.1, tk.wordTokenize(data))
    ensures forall w ::
      multiset(r.1)[w] == if w in StopSet(tk.stopwords) then 0 else multiset(tk.wordTokenize(data))[w]
  {
    (tk.sentTokenize(data), FilterWords(tk.wordTokenize(data), StopSet(tk.stopwords)))
  }

  // ---------------------------------------------------------------------------
  // The filtered list is THE subsequence of non-stop tokens: nothing else has
  // its three properties.

  lemma {:induction false} SubsequenceMultiset<T>(a: seq<T>, b: seq<T>)
    requires IsSubsequence(a, b)
    ensures multiset(a) <= multiset(b)
    decreases |b|
  {
    if |a| > 0 {
      assert b == [b[0]] + b[1..];
      if a[0] == b[0] {
        assert a == [a[0]] + a[1..];
        SubsequenceMultiset(a[1..], b[1..]);
      } else {
        SubsequenceMultiset(a, b[1..]);
      }
    }
  }

  /** A subsequence that skips a surviving first token cannot keep it as often
      as the filter does. */
  lemma SkippedTokenIsMissed(words: seq<string>, stop: set<string>, r: seq<string>)
    requires |words| > 0 && words[0] !in stop
    requires IsSubsequence(r, words[1..])
    ensures multiset(r) != multiset(FilterWords(words, stop))
  {
    var w := words[0];
    assert words == [w] + words[1..];
    assert multiset(FilterWords(words, stop))[w] == multiset(words)[w] == multiset(words[1..])[w] + 1;
    SubsequenceMultiset(r, words[1..]);
  }

  /** Any subsequence of the tokens that avoids the stop set and keeps each
      surviving token as often as the filter does is the filter's result. */
  lemma {:induction false} FilterWordsUnique(words: seq<string>, stop: set<string>, r: seq<string>)
    requires IsSubsequence(r, words)
    requires forall k :: 0 <= k < |r| ==> r[k] !in stop
    requires multiset(r) == multiset(FilterWords(words, stop))
    ensures r == FilterWords(words, stop)
    decreases |words|
  {
    if |r| == 0 {
      assert |multiset(FilterWords(words, stop))| == 0;
    } else {
      assert |words| > 0;
      var w, rest := words[0], words[1..];
      if w in stop {
        DroppedHead(words, stop, r);
        FilterWordsUnique(rest, stop, r);
      } else if r[0] == w {
        var t := r[1..];
        assert r == [w] + t && IsSubsequence(t, rest);
        KeptHead(words, stop);
        ConsCancel(w, t, FilterWords(rest, stop));
        FilterWordsUnique(rest, stop, t);
      } else {
        assert IsSubsequence(r, rest);
        SkippedTokenIsMissed(words, stop, r);
        assert false;
      }
    }
  }

  /** A filtered first token is matched by nothing in a stop-free list. */
  lemma DroppedHead(words: seq<string>, stop: set<string>, r: seq<string>)
    requires |words| > 0 && words[0] in stop && |r| > 0
    requires IsSubsequence(r, words) && r[0] !in stop
    requires multiset(r) == multiset(FilterWords(words, stop))
    ensures IsSubsequence(r, words[1..])
    ensures FilterWords(words, stop) == FilterWords(words[1..], stop)
  {
  }

  /** A kept first token stays at the front of the filtered list. */
  lemma KeptHead(words: seq<string>, stop: set<string>)
    requires |words| > 0 && words[0] !in stop
    ensures FilterWords(words, stop) == [words[0]] + FilterWords(words[1..], stop)
  {
    assert words == [words[0]] + words[1..];
  }

  /** Equal multisets stay equal once a common first element is removed. */
  lemma ConsCancel<T>(w: T, x: seq<T>, y: seq<T>)
    requires multiset([w] + x) == multiset([w] + y)
    ensures multiset(x) == multiset(y)
  {
    assert multiset(x) == multiset([w] + x) - multiset{w};
    assert multiset(y) == multiset([w] + y) - multiset{w};
  }

  /** Filtering distributes over concatenation: the tokens of one part never
      affect which tokens of another part survive. */
  lemma {:induction false} FilterWordsAppend(a: seq<string>, b: seq<string>, stop: set<string>)
    ensures FilterWords(a + b, stop) == FilterWords(a, stop) + FilterWords(b, stop)
    decreases |a|
  {
    if |a| == 0 {
      assert a + b == b;
    } else {
      assert (a + b)[0] == a[0];
      assert (a + b)[1..] == a[1..] + b;
      FilterWordsAppend(a[1..], b, stop);
    }
  }

  /** The significant words of `tokenize_content` are the only list of word
      tokens that keeps their order, holds no stopword or punctuation token,
      and holds every other token as often as it occurs. */
  lemma TokenizeContentIsTheFilter(data: string, tk: Toolkit, words: seq<string>)
    requires IsSubsequence(words, tk.wordTokenize(data))
    requires forall w :: w in multiset(words) ==>
      w !in StopSet(tk.stopwords) && multiset(words)[w] == multiset(tk.wordTokenize(data))[w]
    requires forall w :: w in multiset(tk.wordTokenize(data)) && w !in StopSet(tk.stopwords) ==>
      w in multiset(words)
    ensures words == TokenizeContent(data, tk).1
  {
    var all, stop := tk.wordTokenize(data), StopSet(tk.stopwords);
    assert words == FilterWords(all, stop) by {
      FilterWordsByCounts(all, stop, words);
    }
  }

  /** `words` holds no token of the stop set and every other token of `all`
      as often as `all` does. */
  ghost predicate SurvivorCounts(words: seq<string>, all: seq<string>, stop: set<string>) {
    && (forall w :: w in multiset(words) ==> w !in stop && multiset(words)[w] == multiset(all)[w])
    && (forall w :: w in multiset(all) && w !in stop ==> w in multiset(words))
  }

  /** `FilterWordsUnique` with the counts given token by token. */
  lemma FilterWordsByCounts(all: seq<string>, stop: set<string>, words: seq<string>)
    requires IsSubsequence(words, all)
    requires SurvivorCounts(words, all, stop)
    ensures words == FilterWords(all, stop)
  {
    forall k | 0 <= k < |words|
      ensures words[k] !in stop
    {
      assert words[k] in multiset(words);
    }
    forall w
      ensures multiset(words)[w] == multiset(FilterWords(all, stop))[w]
    {
      if w !in multiset(words) && w !in stop {
        assert w !in multiset(all);
      }
    }
    SameCounts(multiset(words), multiset(FilterWords(all, stop)));
    FilterWordsUnique(all, stop, words);
  }

  /** Multisets with the same count for every element are equal. */
  lemma SameCounts<T>(a: multiset<T>, b: multiset<T>)
    requires forall x :: a[x] == b[x]
    ensures a == b
  {
  }

  /** Every token is either kept or counted as a stop token. */
  lemma {:induction false} FilterWordsLength(words: seq<string>, stop: set<string>)
    ensures |FilterWords(words, stop)| + |StopTokens(words, stop)| == |words|
    decreases |words|
  {
    if |words| > 0 {
      FilterWordsLength(words[1..], stop);
    }
  }

  /** The tokens a filter removes, in order. */
  function StopTokens(words: seq<string>, stop: set<string>): (r: seq<string>)
    decreases |words|
  {
    if |words| == 0 then []
    else if words[0] in stop then [words[0]] + StopTokens(words[1..], stop)
    else StopTokens(words[1..], stop)
  }
}
