/**
 * Model of poet/utils.py: the orthographic syllable estimator `syllable_counter`.
 *
 * A word is reduced to its letter sequence (alphabetic characters only,
 * lower-cased, in order).  Words of 0 letters have 0 syllables, words of 1 or 2
 * letters have 1.  Longer words are scanned once: every consonant that directly
 * follows a vowel closes a vowel run and counts one syllable (a "boundary"), and
 * a final vowel counts one more unless it is an `e` standing right after the
 * last boundary.  The total is floored to 1.
 *
 * The specification is declarative (boundary indices, the last boundary, the
 * final-vowel bonus); the method `SyllableCounter` is the source's loop, proved
 * to compute it.
 */
module Utils {

  /** The vowel letters; `y` counts as a vowel. */
  const Vowels: string := "aeiouy"

  /** Membership in the vowel letters, spelled out letter by letter (see
    * VowelsSpelledOut). */
  predicate IsVowel(c: char) {
    c == 'a' || c == 'e' || c == 'i' || c == 'o' || c == 'u' || c == 'y'
  }

  // ---------------------------------------------------------------------------
  // Letters: the alphabetic characters of the lower-cased word, in order
  // (ASCII model)
  // ---------------------------------------------------------------------------

  /** ASCII model of `str.isalpha` on one character: exactly the characters
    * whose lower-cased form is one of the 26 lower-case letters. */
  predicate IsAlpha(c: char)
    ensures IsAlpha(c) <==> 'a' <= LowerLetter(c) <= 'z'
  {
    'a' <= c <= 'z' || 'A' <= c <= 'Z'
  }

  /** Shifts an upper-case ASCII letter to lower case.  This is the body of
    * `Lower`, kept apart so that the contracts of `IsAlpha` and `Lower` can
    * each be stated without referring to the other. */
  function LowerLetter(c: char): char {
    if 'A' <= c <= 'Z' then (c as int + 32) as char else c
  }

  /** ASCII model of `str.lower` on one character. */
  function Lower(c: char): (r: char)
    ensures IsAlpha(c) ==> 'a' <= r <= 'z'
    ensures IsAlpha(r) == IsAlpha(c)
    ensures !('A' <= c <= 'Z') ==> r == c
  {
    LowerLetter(c)
  }

  /** ASCII model of `str.upper` on one character. */
  function Upper(c: char): (r: char)
    ensures IsAlpha(r) == IsAlpha(c)
    ensures Lower(r) == Lower(c)
  {
    if 'a' <= c <= 'z' then (c as int - 32) as char else c
  }

  /** The lower-cased word: as long as the word, with no upper-case letter
    * left, and alphabetic at exactly the positions where the word is. */
  function LowerString(w: string): (r: string)
    ensures |r| == |w|
    ensures forall k :: 0 <= k < |r| ==> !('A' <= r[k] <= 'Z')
    ensures forall k :: 0 <= k < |r| ==> IsAlpha(r[k]) == IsAlpha(w[k])
  {
    seq(|w|, i requires 0 <= i < |w| => Lower(w[i]))
  }

  /** The upper-cased word. */
  function UpperString(w: string): string {
    seq(|w|, i requires 0 <= i < |w| => Upper(w[i]))
  }

  /** The alphabetic characters of `w`, in order. */
  function AlphaFilter(w: string): (r: string)
    ensures |r| <= |w|
    ensures forall k :: 0 <= k < |r| ==> IsAlpha(r[k])
  {
    if w == [] then []
    else (if IsAlpha(w[0]) then [w[0]] else []) + AlphaFilter(w[1..])
  }

  /** The letter sequence the estimator works on. */
  function Letters(word: string): (r: string)
    ensures |r| <= |word|
    ensures forall k :: 0 <= k < |r| ==> 'a' <= r[k] <= 'z'
  {
    LoweredLettersAreLowercase(LowerString(word));
    AlphaFilter(LowerString(word))
  }

  /** The alphabetic characters of a lower-cased string are lower-case. */
  lemma {:induction false} LoweredLettersAreLowercase(w: string)
    requires forall k :: 0 <= k < |w| ==> !('A' <= w[k] <= 'Z')
    ensures forall k :: 0 <= k < |AlphaFilter(w)| ==> 'a' <= AlphaFilter(w)[k] <= 'z'
  {
    if w != [] {
      LoweredLettersAreLowercase(w[1..]);
    }
  }

  /** No character of `w` is alphabetic. */
  predicate NoLetters(w: string) {
    forall k :: 0 <= k < |w| ==> !IsAlpha(w[k])
  }

  // ---------------------------------------------------------------------------
  // The declarative specification of the count
  // ---------------------------------------------------------------------------

  /** Index `i` holds a consonant that directly follows a vowel: a letter not
    * in `Vowels` whose predecessor is in `Vowels`. */
  predicate IsBoundary(s: string, i: int)
    requires 0 <= i < |s|
  {
    i > 0 && !IsVowel(s[i]) && IsVowel(s[i - 1])
  }

  /** The boundary indices of `s` below `i`. */
  ghost function BoundarySet(s: string, i: nat): set<int>
    requires i <= |s|
  {
    set j | 0 <= j < i && IsBoundary(s, j)
  }

  /** The number of boundaries of `s` below index `i` (see
    * BoundaryCountIsCardinality). */
  function BoundariesBelow(s: string, i: nat): nat
    requires i <= |s|
  {
    if i < 2 then 0
    else BoundariesBelow(s, i - 1) + (if IsBoundary(s, i - 1) then 1 else 0)
  }

  /** The number of boundaries of `s`: the number of indices where a consonant
    * directly follows a vowel. */
  function BoundaryCount(s: string): nat {
    BoundariesBelow(s, |s|)
  }

  /** The last boundary of `s` below index `i`, or 0 when there is none. */
  function LastBoundaryBelow(s: string, i: nat): (r: nat)
    requires i <= |s|
    ensures r == 0 || (r < i && IsBoundary(s, r))
    ensures forall j :: r < j < i ==> !IsBoundary(s, j)
  {
    if i < 2 then 0
    else if IsBoundary(s, i - 1) then i - 1
    else LastBoundaryBelow(s, i - 1)
  }

  /** The last boundary of `s`, or 0 when there is none. */
  function LastBoundary(s: string): nat {
    LastBoundaryBelow(s, |s|)
  }

  /** What the final letter adds: 1 for a final vowel other than `e`, and 1 for
    * a final `e` at least two positions after the last boundary. */
  function FinalVowelBonus(s: string): (r: nat)
    requires |s| > 0
    ensures r <= 1
    ensures r == 1 ==> IsVowel(s[|s| - 1])
    ensures IsVowel(s[|s| - 1]) && s[|s| - 1] != 'e' ==> r == 1
  {
    var i := |s| - 1;
    if !IsVowel(s[i]) then 0
    else if s[i] != 'e' then 1
    else if i - LastBoundary(s) >= 2 then 1
    else 0
  }

  /** The estimate for a letter sequence: 0 for no letters, 1 for one or two,
    * otherwise the boundaries plus the final-vowel bonus, but at least 1. */
  function Estimate(letters: string): (r: nat)
    ensures r == 0 <==> |letters| == 0
    ensures 1 <= |letters| <= 2 ==> r == 1
    ensures |letters| >= 3 ==> r >= 1 && r >= BoundaryCount(letters)
  {
    if |letters| == 0 then 0
    else if |letters| <= 2 then 1
    else
      var raw := BoundaryCount(letters) + FinalVowelBonus(letters);
      if raw > 0 then raw else 1
  }

  /** The estimate for a word: that of its letter sequence, so 0 exactly when
    * the word has no letters. */
  function SyllableCount(word: string): (r: nat)
    ensures r == 0 <==> Letters(word) == []
    ensures 1 <= |Letters(word)| <= 2 ==> r == 1
  {
    Estimate(Letters(word))
  }

  /** At most every second index is a boundary: the letter before a boundary
    * is a vowel, so it is not a boundary itself. */
  lemma {:induction false} BoundariesBelowHalf(s: string, i: nat)
    requires i <= |s|
    ensures 2 * BoundariesBelow(s, i) <= i
    decreases i
  {
    if i >= 2 {
      BoundariesBelowHalf(s, i - 1);
      if i >= 3 && IsBoundary(s, i - 1) {
        BoundariesBelowHalf(s, i - 2);
        assert !IsBoundary(s, i - 2);
      }
    }
  }

  /** The number of vowels of `s` below index `i`. */
  function VowelsBelow(s: string, i: nat): nat
    requires i <= |s|
  {
    if i == 0 then 0
    else VowelsBelow(s, i - 1) + (if IsVowel(s[i - 1]) then 1 else 0)
  }

  /** The number of vowels of `s`. */
  function VowelCount(s: string): nat {
    VowelsBelow(s, |s|)
  }

  // ---------------------------------------------------------------------------
  // The source's loop
  // ---------------------------------------------------------------------------

  /** `syllable_counter(word)`: the short-word shortcuts, then one left-to-right
    * scan keeping the running count and the position of the last boundary. */
  method SyllableCounter(word: string) returns (count: nat)
    ensures count == SyllableCount(word)
  {
    var letters := Letters(word);
    if |letters| == 0 {
      return 0;
    }
    if |letters| == 1 || |letters| == 2 {
      return 1;
    }
    var numSyllables := 0;
    var lastSyllablePos := 0;
    for i := 0 to |letters|
      invariant numSyllables == BoundariesBelow(letters, i) + (if i == |letters| then FinalVowelBonus(letters) else 0)
      invariant lastSyllablePos == LastBoundaryBelow(letters, i)
    {
      var letter := letters[i];
      if !IsVowel(letter) {
        if i != 0 && IsVowel(letters[i - 1]) {
          numSyllables := numSyllables + 1;
          lastSyllablePos := i;
        }
      } else if i == |letters| - 1 {
        if letter != 'e' {
          numSyllables := numSyllables + 1;
        } else if i - lastSyllablePos >= 2 {
          numSyllables := numSyllables + 1;
        }
      }
    }
    count := if numSyllables > 0 then numSyllables else 1;
  }

  // ---------------------------------------------------------------------------
  // Letters: properties
  // ---------------------------------------------------------------------------

  /** Lower-casing an upper-case letter gives the lower-case letter that
    * upper-cases back to it, and conversely. */
  lemma CaseRoundTrip(c: char)
    ensures 'A' <= c <= 'Z' ==> 'a' <= Lower(c) <= 'z' && Upper(Lower(c)) == c
    ensures 'a' <= c <= 'z' ==> 'A' <= Upper(c) <= 'Z' && Lower(Upper(c)) == c
  {
  }

  /** Filtering distributes over concatenation. */
  lemma {:induction false} AlphaFilterAppend(a: string, b: string)
    ensures AlphaFilter(a + b) == AlphaFilter(a) + AlphaFilter(b)
  {
    if a == [] {
      assert a + b == b;
    } else {
      assert (a + b)[1..] == a[1..] + b;
      AlphaFilterAppend(a[1..], b);
    }
  }

  /** The filter is empty exactly when no character is alphabetic. */
  lemma {:induction false} AlphaFilterEmpty(w: string)
    ensures AlphaFilter(w) == [] <==> NoLetters(w)
  {
    if w != [] {
      AlphaFilterEmpty(w[1..]);
      if NoLetters(w[1..]) && !IsAlpha(w[0]) {
        forall k | 0 <= k < |w| ensures !IsAlpha(w[k]) {
          if k > 0 { assert w[k] == w[1..][k - 1]; }
        }
      }
    }
  }

  /** The letters of a concatenation are the concatenation of the letters. */
  lemma LettersAppend(a: string, b: string)
    ensures Letters(a + b) == Letters(a) + Letters(b)
  {
    assert LowerString(a + b) == LowerString(a) + LowerString(b);
    AlphaFilterAppend(LowerString(a), LowerString(b));
  }

  /** The spelled-out vowel test is membership in `Vowels`. */
  lemma VowelsSpelledOut(c: char)
    ensures IsVowel(c) <==> c in Vowels
  {
  }

  /** A word made of lower-case letters is its own letter sequence. */
  lemma {:induction false} LowercaseWordIsLetters(word: string)
    requires forall k :: 0 <= k < |word| ==> 'a' <= word[k] <= 'z'
    ensures Letters(word) == word
  {
    if word != [] {
      LowercaseWordIsLetters(word[1..]);
      assert LowerString(word) == [word[0]] + LowerString(word[1..]);
    }
  }

  /** A word has no letters exactly when it has no alphabetic character. */
  lemma LettersEmpty(word: string)
    ensures Letters(word) == [] <==> NoLetters(word)
  {
    AlphaFilterEmpty(LowerString(word));
    assert forall k :: 0 <= k < |word| ==> LowerString(word)[k] == Lower(word[k]);
  }

  // ---------------------------------------------------------------------------
  // Properties of the estimator
  // ---------------------------------------------------------------------------

  /** A word yields 0 exactly when it holds no alphabetic character (the empty
    * string included). */
  lemma ZeroIffNoLetters(word: string)
    ensures SyllableCount(word) == 0 <==> NoLetters(word)
  {
    LettersEmpty(word);
  }

  /** Any word with an alphabetic character yields at least 1. */
  lemma AtLeastOneWithALetter(word: string)
    requires !NoLetters(word)
    ensures SyllableCount(word) >= 1
  {
    LettersEmpty(word);
  }

  /** Upper- or lower-casing a word does not change its estimate. */
  lemma CaseInsensitive(word: string)
    ensures SyllableCount(UpperString(word)) == SyllableCount(word)
    ensures SyllableCount(LowerString(word)) == SyllableCount(word)
  {
    assert LowerString(UpperString(word)) == LowerString(word);
    assert LowerString(LowerString(word)) == LowerString(word);
  }

  /** Inserting (or, read backwards, removing) non-alphabetic characters
    * anywhere does not change the estimate. */
  lemma NoiseInsensitive(a: string, noise: string, b: string)
    requires NoLetters(noise)
    ensures SyllableCount(a + noise + b) == SyllableCount(a + b)
  {
    LettersAppend(a + noise, b);
    LettersAppend(a, noise);
    LettersAppend(a, b);
    LettersEmpty(noise);
    assert Letters(a + noise) == Letters(a) + [] == Letters(a);
  }

  /** The boundary count is the number of indices where a consonant directly
    * follows a vowel. */
  lemma {:induction false} BoundaryCountIsCardinality(s: string, i: nat)
    requires i <= |s|
    ensures BoundariesBelow(s, i) == |BoundarySet(s, i)|
  {
    if i < 2 {
      assert BoundarySet(s, i) == {};
    } else {
      BoundaryCountIsCardinality(s, i - 1);
      if IsBoundary(s, i - 1) {
        assert BoundarySet(s, i) == BoundarySet(s, i - 1) + {i - 1};
      } else {
        assert BoundarySet(s, i) == BoundarySet(s, i - 1);
      }
    }
  }

  /** Vowels never count on their own: a run of vowels at indices `i` to
    * `j - 1` adds no boundary. */
  lemma {:induction false} VowelRunAddsNoBoundary(s: string, i: nat, j: nat)
    requires i <= j <= |s|
    requires forall k :: i <= k < j ==> IsVowel(s[k])
    ensures BoundariesBelow(s, j) == BoundariesBelow(s, i)
  {
    if i < j {
      VowelRunAddsNoBoundary(s, i, j - 1);
    }
  }

  /** A non-empty vowel run at indices `i` to `j - 1` closed by a consonant at
    * `j` contributes exactly one boundary. */
  lemma VowelRunThenConsonant(s: string, i: nat, j: nat)
    requires i < j < |s|
    requires forall k :: i <= k < j ==> IsVowel(s[k])
    requires !IsVowel(s[j])
    ensures BoundariesBelow(s, j + 1) == BoundariesBelow(s, i) + 1
  {
    VowelRunAddsNoBoundary(s, i, j);
  }

  /** A consonant run at indices `i` to `j - 1` that starts the word or follows
    * a consonant adds no boundary. */
  lemma {:induction false} ConsonantRunAddsNoBoundary(s: string, i: nat, j: nat)
    requires i <= j <= |s|
    requires i == 0 || !IsVowel(s[i - 1])
    requires forall k :: i <= k < j ==> !IsVowel(s[k])
    ensures BoundariesBelow(s, j) == BoundariesBelow(s, i)
  {
    if i < j {
      ConsonantRunAddsNoBoundary(s, i, j - 1);
    }
  }

  /** Each boundary at `k` uses up the vowel at `k - 1`, and a vowel at `i - 1`
    * is used by no boundary below `i`. */
  lemma {:induction false} BoundariesBelowVowels(s: string, i: nat)
    requires i <= |s|
    ensures BoundariesBelow(s, i) + (if i > 0 && IsVowel(s[i - 1]) then 1 else 0) <= VowelsBelow(s, i)
  {
    if i >= 2 {
      BoundariesBelowVowels(s, i - 1);
    }
  }

  /** The estimate never exceeds the larger of 1 and the number of vowels. */
  lemma AtMostVowels(word: string)
    ensures SyllableCount(word) <= 1 || SyllableCount(word) <= VowelCount(Letters(word))
  {
    BoundariesBelowVowels(Letters(word), |Letters(word)|);
  }

  /** A final vowel other than `e` always adds exactly one syllable to the
    * boundaries of a word of three or more letters. */
  lemma FinalVowelOtherThanE(word: string)
    requires |Letters(word)| >= 3
    requires IsVowel(Letters(word)[|Letters(word)| - 1]) && Letters(word)[|Letters(word)| - 1] != 'e'
    ensures SyllableCount(word) == BoundaryCount(Letters(word)) + 1
  {
  }

  /** In a letter sequence of three or more ending in `e`, the `e` is silent
    * exactly when the letter before it closes a vowel run (vowel, consonant,
    * `e`); that is when it stands one position after the last boundary. */
  lemma SilentFinalE(s: string)
    requires |s| >= 3 && s[|s| - 1] == 'e'
    ensures FinalVowelBonus(s) == 0 <==> IsVowel(s[|s| - 3]) && !IsVowel(s[|s| - 2])
    ensures FinalVowelBonus(s) == 0 <==> LastBoundary(s) == |s| - 2
  {
    var n := |s|;
    var r := LastBoundary(s);
    assert !IsBoundary(s, n - 1);
    if IsBoundary(s, n - 2) {
      assert r == n - 2;
    } else {
      assert r != n - 2 && r != n - 1;
    }
  }

  /** The estimate of a word of three or more letters ending in `e`. */
  lemma FinalE(word: string)
    requires |Letters(word)| >= 3 && Letters(word)[|Letters(word)| - 1] == 'e'
    ensures var s := Letters(word);
            var raw := BoundaryCount(s) + (if IsVowel(s[|s| - 3]) && !IsVowel(s[|s| - 2]) then 0 else 1);
            SyllableCount(word) == if raw > 0 then raw else 1
  {
    SilentFinalE(Letters(word));
  }
}
