/**
 The text normaliser of the summariser: a character-by-character translation
 that turns form feeds, tabs and newlines into spaces and deletes carriage
 returns, as Python's `str.translate` does with a four-entry table.
 */
module Normalizer {

  const FormFeed: char := '\U{000C}'

  /** What the translate table says about one character. */
  datatype Translation = Keep | Substitute(replacement: char) | Delete

  /** The translate table: three entries map to a space, carriage return maps to
      `None` (deletion), every other character is absent from the table and kept. */
  function Rule(c: char): (t: Translation)
    ensures t == Delete <==> c == '\r'
    ensures t == Keep <==> !IsControlWhitespace(c)
    ensures t.Substitute? ==> t.replacement == ' '
  {
    if c == FormFeed || c == '\t' || c == '\n' then Substitute(' ')
    else if c == '\r' then Delete
    else Keep
  }

  /** The control whitespace characters the normaliser removes. */
  predicate IsControlWhitespace(c: char) {
    c == FormFeed || c == '\t' || c == '\n' || c == '\r'
  }

  /** A string with no control whitespace in it. */
  predicate IsClean(s: string) {
    forall i :: 0 <= i < |s| ==> !IsControlWhitespace(s[i])
  }

  // ---------------------------------------------------------------------------
  // An independent two-pass reference: first drop every carriage return, then
  // replace each remaining form feed, tab and newline by a space.

  function DropCarriageReturns(s: string): (r: string)
    ensures |r| == |s| - multiset(s)['\r']
    ensures forall i :: 0 <= i < |r| ==> r[i] != '\r'
    decreases |s|
  {
    if |s| == 0 then []
    else
      assert s == [s[0]] + s[1..];
      if s[0] == '\r' then DropCarriageReturns(s[1..])
      else [s[0]] + DropCarriageReturns(s[1..])
  }

  function Spaced(c: char): (r: char) {
    if c == FormFeed || c == '\t' || c == '\n' then ' ' else c
  }

  /** `sanitize_input`: one pass applying the translate table. Its result is the
      two-pass reference, so it keeps every other character in order, has no
      control whitespace left, and is shorter by the number of carriage returns. */
  function Sanitize(s: string): (r: string)
    ensures |r| == |DropCarriageReturns(s)|
    ensures forall i :: 0 <= i < |r| ==> r[i] == Spaced(DropCarriageReturns(s)[i])
    decreases |s|
  {
    if |s| == 0 then []
    else
      var rest := Sanitize(s[1..]);
      match Rule(s[0])
      case Keep => [s[0]] + rest
      case Substitute(c) => [c] + rest
      case Delete => rest
  }

  /** What the translation promises on its own terms: no control whitespace is
      left, and the text shrinks by exactly the number of carriage returns. */
  lemma SanitizeRemovesControlWhitespace(s: string)
    ensures IsClean(Sanitize(s))
    ensures |Sanitize(s)| == |s| - multiset(s)['\r']
  {
  }

  /** The normaliser leaves text without control whitespace untouched. */
  lemma SanitizeOfClean(s: string)
    requires IsClean(s)
    ensures Sanitize(s) == s
  {
  }

  /** Normalising already-normalised text is a no-op. */
  lemma SanitizeIdempotent(s: string)
    ensures Sanitize(Sanitize(s)) == Sanitize(s)
  {
  }

  /** The translation works character by character, so it distributes over
      concatenation. */
  lemma {:induction false} SanitizeAppend(a: string, b: string)
    ensures Sanitize(a + b) == Sanitize(a) + Sanitize(b)
    decreases |a|
  {
    if |a| > 0 {
      assert (a + b)[0] == a[0];
      assert (a + b)[1..] == a[1..] + b;
      SanitizeAppend(a[1..], b);
    } else {
      assert a + b == b;
    }
  }
}
