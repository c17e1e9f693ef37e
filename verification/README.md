# simple-summarizer in Dafny

A model of the extractive summariser in `Summarizer/Summarizer.py`. The
summariser reads a text and keeps the sentences whose words carry the most
term-frequency weight. It has four pure stages, and each is a module here:

- `Normalizer` (normalizer.dfy) models `sanitize_input`. It is the
  `str.translate` table that turns form feed, tab and newline into a space and
  deletes carriage returns.
- `Tokenizer` (tokenizer.dfy) models `tokenize_content`. It produces the
  sentences and the word tokens that are not stopwords or punctuation, in
  their original order.
- `Scorer` (scorer.dfy) models `score_tokens`. It builds the `FreqDist`
  frequency table and the `defaultdict` ranking of sentence index to summed
  frequency of its lower-cased tokens.
- `Selector` (selector.dfy) models `summarize`. It covers the length check,
  `heapq.nlargest` by score, `sorted` of the chosen indices and `' '.join`.
- `Pipeline` (pipeline.dfy) strings the stages together as `main` does.
- `Scenario` (scenario.dfy) works one document through the stages and shows
  the effect of the case mismatch described below.

The natural-language toolkit's sentence splitter, word splitter and English
stopword list, and Python's `str.lower`, are not modelled. They are the four
fields of a `Toolkit` value that the tokenizer and the scorer receive. Python's
`string.punctuation` is written out as a constant.

A Python `dict` remembers the order its keys were inserted, and
`nlargest`'s tie-break depends on that order. So the ranking is
`Ranking(order, score)`: a map plus its key-creation order. `ScoreTokens`
proves that keys are created in ascending sentence order. `nlargest(n, keys,
key=get)` is modelled by its documented meaning `sorted(keys, key=get,
reverse=True)[:n]`, a stable insertion sort. Equal scores therefore go to the
smaller sentence index.

Two behaviours of the code are easy to miss. The model follows the code:

- One might expect every sentence to get a ranking key, with score 0 when
  nothing hits. Instead a sentence gets a key only when one of its tokens hits
  the frequency table: the key is created by the `+=` on line 74. As a result the
  summary holds `min(length, sentences with a hit)` sentences, not `min(length, sentences)`.
  A one-sentence text with no scored token summarises to the empty string
  (`Pipeline.SingleSentence`).
- The frequency table counts tokens case-sensitively. The ranker looks up
  lower-cased tokens. So a capitalised word (a sentence-initial "Cats")
  counts in the table under "Cats", while lookups only ever ask for "cats".
  The model keeps this mismatch: lower-casing is the toolkit's `lower`
  field, applied only in `SentenceWords`. For "Cats are great. Dogs are great
  too. Cats and dogs are both popular pets." the sentences score 2, 3 and 3,
  and a summary of length 2 is the second and third sentence, although "cats"
  is, with "dogs" and "great", one of the document's most frequent content
  words, and the table counts "Cats" as often as "great"
  (`Scenario.SummarizeDocument`).

## Model

| member | source | states |
|---|---|---|
| Normalizer.Rule | Summarizer/Summarizer.py:45-50 | The translate table deletes exactly the carriage return, keeps exactly the characters that are not form feed, tab, newline or carriage return, and substitutes only a space. |
| Normalizer.Sanitize | Summarizer/Summarizer.py:44-52 | The one-pass translation equals an independent two-pass reference: drop every carriage return, then map form feed, tab and newline to a space. Every other character therefore keeps its relative order. |
| Normalizer.SanitizeRemovesControlWhitespace | Summarizer/Summarizer.py:44-52 | No form feed, tab, newline or carriage return is left. The output is shorter than the input by exactly the number of carriage returns. |
| Normalizer.SanitizeOfClean | Summarizer/Summarizer.py:45-52 | Text with no form feed, tab, newline or carriage return passes through unchanged. |
| Normalizer.SanitizeIdempotent | Summarizer/Summarizer.py:45-52 | Normalising already-normalised text changes nothing. |
| Normalizer.SanitizeAppend | Summarizer/Summarizer.py:52 | The translation works character by character: normalising a concatenation concatenates the normalised parts. |
| Tokenizer.PunctuationTokens | Summarizer/Summarizer.py:56 | The punctuation part of the filter list is exactly the one-character tokens made of a `string.punctuation` character. |
| Tokenizer.StopSet | Summarizer/Summarizer.py:56 | A token is filtered exactly when it is a stopword or a single punctuation character. |
| Tokenizer.FilterWords | Summarizer/Summarizer.py:59-61 | The kept words form a subsequence of the tokens, in their original order. No kept word is in the stop set. Every other token is kept as often as it occurs. |
| Tokenizer.FilterWordsUnique | Summarizer/Summarizer.py:61 | The filter result is the only order-preserving subsequence that avoids the stop set and keeps all surviving tokens. |
| Tokenizer.FilterWordsAppend | Summarizer/Summarizer.py:61 | Filtering a concatenation concatenates the filtered parts, so whether one token is kept never depends on the other tokens. |
| Tokenizer.FilterWordsLength | Summarizer/Summarizer.py:61 | Every token is either kept or removed as a stop token: the two counts add up to the token count. |
| Tokenizer.TokenizeContent | Summarizer/Summarizer.py:55-62 | The sentences are the splitter's output and are never filtered. The significant words are a subsequence of the document's word tokens, in document order. They contain no stopword and no punctuation token, and every other token is kept as often as it occurs. |
| Tokenizer.TokenizeContentIsTheFilter | Summarizer/Summarizer.py:57-61 | Any list of word tokens that keeps their order, holds no stopword or punctuation token, and holds every other token as often as the document does is exactly the significant-word list. |
| Scorer.Frequencies | Summarizer/Summarizer.py:67 | The table's keys are exactly the tokens that occur. Each maps to its exact case-sensitive count, which is at least 1. |
| Scorer.FrequenciesDependOnMultisetOnly | Summarizer/Summarizer.py:67 | Two word lists with the same multiset give the same table, so word order does not matter. |
| Scorer.FrequenciesOfFiltered | Summarizer/Summarizer.py:61-67 | The table over the filtered words has a key exactly for each non-stop token of the document, valued at its document count. |
| Scorer.SentenceWords | Summarizer/Summarizer.py:72 | A sentence is scored on the word tokens of its lower-cased text, `word_tokenize(sentence.lower())`; the table lookups only ever see those tokens. |
| Scorer.HitSum | Summarizer/Summarizer.py:72-74 | A sentence's score sums the table entries of its tokens that hit, counting repeats. Misses add nothing. When all entries are positive, the score is positive exactly when some token hits. |
| Scorer.HitSumAppend | Summarizer/Summarizer.py:72-74 | The score of a token list is the sum of the scores of its parts. |
| Scorer.AddedTokenNeverLowersScore | Summarizer/Summarizer.py:72-74 | With the frequency table held fixed, inserting a token anywhere in a sentence never lowers the sentence's score. |
| Scorer.HitSumMonotoneInTable | Summarizer/Summarizer.py:72-74 | A table whose entries are each at least as large gives every token list at least as high a score. |
| Scorer.FrequenciesMonotone | Summarizer/Summarizer.py:67 | A word list with at least as many of every token has every table key, each with at least as large a count. |
| Scorer.AddedWordNeverLowersScore | Summarizer/Summarizer.py:61-74 | Adding a word to a sentence and to the document, a duplicate or a new word, never lowers that sentence's score: the sentence gains a token and the table of the grown document has no smaller entry. |
| Scorer.HitSumPermutation | Summarizer/Summarizer.py:72-74 | Reordering a sentence's tokens leaves its score unchanged. |
| Scorer.UnmatchedEntryNeverScores | Summarizer/Summarizer.py:67-74 | A table entry that lower-cased text never yields as a token, such as a capitalised word counted in the table, adds nothing to any sentence's score: removing it changes no score. |
| Scorer.ScoreSentence | Summarizer/Summarizer.py:72-74 | After one sentence's tokens are processed, its slot exists exactly when one of them hits the table and then holds the sum of the hits. No other slot changes, and the key list stays ascending. |
| Scorer.ScoreTokens | Summarizer/Summarizer.py:65-77 | Keys lie in `[0, number of sentences)`. A key is present exactly when some lower-cased token of that sentence is in the table, and its value is the sum of those hits, at least 1. Keys are created in ascending index order. |
| Selector.InsertByScoreDescending | Summarizer/Summarizer.py:85 | Inserting a key into a list sorted by descending score keeps it sorted. |
| Selector.InsertByScoreRanked | Summarizer/Summarizer.py:85 | Inserting a key smaller than all others into a ranked list keeps it ranked: higher score first, ties by smaller index. |
| Selector.SortByScore | Summarizer/Summarizer.py:85 | The stable sort behind `nlargest` returns a permutation of the keys with scores in descending order. |
| Selector.SortByScoreRanked | Summarizer/Summarizer.py:85 | Keys given in ascending index order come out of the stable sort with equal scores ordered by smaller index. |
| Selector.Select | Summarizer/Summarizer.py:85 | The selection is `min(length, number of keys)` distinct keys in descending score order. Every selected score is at least every unselected score. When keys were created in ascending order, an unselected key that ties a selected one has the larger index. |
| Selector.SelectIsRankBelow | Summarizer/Summarizer.py:85 | Stated without sorting: a key is selected exactly when fewer than `length` keys outrank it, by higher score or by equal score and smaller index. |
| Selector.SortAscending | Summarizer/Summarizer.py:86 | Python's `sorted` on the chosen indices returns a permutation of the indices in non-decreasing order. |
| Selector.AscendingUnique | Summarizer/Summarizer.py:86 | Two strictly ascending lists of the same indices are equal, so the sorted order does not depend on the order the indices were chosen in. |
| Selector.Pick | Summarizer/Summarizer.py:86 | The picked list has one entry per index, and entry k is the sentence at the k-th index. |
| Selector.Join | Summarizer/Summarizer.py:88 | The joined text starts with the first sentence, has a single space after it when more follow, and is as long as all sentences plus one space between each neighbouring pair. |
| Selector.JoinAppend | Summarizer/Summarizer.py:88 | Joining two non-empty lists puts exactly one space between their joins. |
| Selector.SummaryIndices | Summarizer/Summarizer.py:85-86 | The chosen indices are strictly ascending and are exactly the selected keys, `min(length, number of keys)` of them. |
| Selector.Summarize | Summarizer/Summarizer.py:80-88 | The result is refused exactly when `length` exceeds the number of sentences, and the refusal carries both numbers. Otherwise it is the chosen sentences in ascending index order, joined by single spaces. |
| Selector.SummaryInReadingOrder | Summarizer/Summarizer.py:86-88 | Any ascending listing of the selected indices yields the same summary, so rank order never shows in the output. |
| Pipeline.SummarizeText | Summarizer/Summarizer.py:17-24 | End to end, the ranking is the one `score_tokens` builds, as `IsRankingOf` defines it, with keys in ascending order. The run is refused exactly when `length` exceeds the sentence count of the normalised text. Otherwise the summary joins `min(length, scored sentences)` sentences in reading order. |
| Pipeline.ScoredCountIsKeyCount | Summarizer/Summarizer.py:74-85 | The count of scored sentences used in the summary length is the number of keys in the ranking, since the key list names each key once. |
| Pipeline.ChosenSentencesHaveHits | Summarizer/Summarizer.py:71-85 | A chosen index is a sentence with at least one token in the frequency table. |
| Pipeline.SingleSentence | Summarizer/Summarizer.py:71-88 | For a one-sentence document with length 1, the summary is that sentence verbatim if one of its tokens is scored, and the empty text otherwise. |
| Pipeline.ZeroLength | Summarizer/Summarizer.py:85-88 | Asking for zero sentences gives the empty summary. |
| Scenario.SummarizeDocument | Summarizer/Summarizer.py:17-24 | The driver on the three-sentence cats and dogs document with length 2: under any splitters and lower-casing that yield its sentences and tokens, and any stopword list that holds "are", "too", "and" and "both" but none of its content words, the ranking is {0: 2, 1: 3, 2: 3} and the summary is the second and third sentence, because the table's capitalised "Cats" is never looked up. |
| Scenario.SignificantWords | Summarizer/Summarizer.py:59-61 | Filtering the document's tokens keeps "Cats" and "Dogs" capitalised, as written. |
| Scenario.TableIsFrequencies | Summarizer/Summarizer.py:67 | The document's table counts "Cats" twice and has no entry for "cats". |

## Left out

- `parse_arguments` and the `int(length)` conversion: the length is a `nat`. A negative length, which Python would let through the check and then turn into an empty selection, is not modelled.
- `read_file` and the URL/HTML acquisition: file and network I/O. The raw text is an input.
- `print` and `exit()`: the refusal is the `InvalidLength` value of `SummaryResult`, not a process exit.
- NLTK's `sent_tokenize`, `word_tokenize`, the English stopword corpus and Python's `str.lower`: foreign library behaviour. They are the uninterpreted fields of `Toolkit`.
- The heap inside `heapq.nlargest`: it is modelled by its documented sorted-prefix meaning.
- Selector.Select: the tie-break to the smaller index is proved only for rankings whose keys were created in ascending order. That is the only kind `ScoreTokens` builds. For other insertion orders the stable sort keeps insertion order, and only the score ordering is proved.
- Selector.Summarize: requires every ranking key to be a sentence index. Python would raise `IndexError` otherwise, which cannot happen with a ranking from `score_tokens`.
