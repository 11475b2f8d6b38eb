# Syllable estimator of `poet`

This project models `syllable_counter` from `poet/utils.py`. The system uses it to estimate
how many syllables an English word has, judging by its written letters alone. The poem
generator calls it for each candidate word to see whether the word still fits the line's
syllable budget.

The estimator works in four steps:

1. It reduces the word to its *letter sequence*: the alphabetic characters, lower-cased,
   in their original order.
2. A sequence of 0 letters gives 0. A sequence of 1 or 2 letters gives 1.
3. A longer sequence is scanned once, left to right, with two counters.
   - Each consonant that directly follows a vowel is a *boundary*: it closes a vowel run.
     It adds one syllable and its position is recorded.
   - A final vowel other than `e` adds one syllable.
   - A final `e` adds one only if it stands at least two positions after the last recorded
     boundary. The recorded position starts at 0.
4. The total is floored to 1.

The vowels are `a e i o u y`.

Everything is in two files:

- `utils.dfy` is module `Utils`. It holds the letter filter and a declarative specification
  of the count. That specification is built from the set of boundary indices, the last
  boundary and the final-vowel bonus. The file also holds the method `SyllableCounter`,
  which is the source's single left-to-right loop over the letters. Its loop invariants tie
  the two counters to the specification restricted to the letters below index `i`. The properties of
  the estimator are lemmas about that specification.
- `test_syllable_counter.dfy` is module `SyllableCounterTests`. It proves each literal
  expectation of `tests/test_syllable_counter.py` as a lemma. Each rests on two helper
  lemmas: one says the word is its own letter sequence, the other evaluates the estimate of
  that sequence. The file also proves that the all-capitals `HELLO` gets the estimate of
  `hello`.

Characters are modelled with ASCII semantics:

- `str.isalpha` is true for `a`–`z` and `A`–`Z`.
- `str.lower` and `str.upper` shift between those two ranges and leave every other
  character unchanged.

## Model

| member | source | states |
|---|---|---|
| `Utils.SyllableCounter` | poet/utils.py:3-27 | For every word, the loop with its two counters, the two shortcuts and the floor of 1 returns exactly the declarative estimate `SyllableCount(word)` |
| `Utils.SyllableCount` | poet/utils.py:3-27 | The estimate of a word is 0 exactly when its letter sequence is empty, and exactly 1 when that sequence has 1 or 2 letters |
| `Utils.Estimate` | poet/utils.py:7-27 | The estimate of a letter sequence is 0 exactly for the empty sequence and 1 for 1 or 2 letters. For 3 or more letters it is at least 1 and at least the number of boundaries |
| `Utils.FinalVowelBonus` | poet/utils.py:21-25 | The final letter adds at most 1. It adds 1 only when it is a vowel, and it always adds 1 when it is a vowel other than `e` |
| `Utils.IsAlpha` | poet/utils.py:5 | A character is alphabetic exactly when its lower-cased form is one of `a`–`z` |
| `Utils.LowerString` | poet/utils.py:5 | Lower-casing a word keeps its length, leaves no upper-case letter, and keeps which positions are alphabetic |
| `Utils.CaseRoundTrip` | poet/utils.py:5 | Lower-casing an upper-case letter gives a letter in `a`–`z` that upper-cases back to the original, and conversely for lower-case letters |
| `Utils.Lower` | poet/utils.py:5 | Lower-casing maps a letter to `a`–`z`, keeps whether a character is alphabetic, and leaves non-upper-case characters unchanged |
| `Utils.AlphaFilter` | poet/utils.py:5 | The filter keeps only alphabetic characters and is never longer than the input |
| `Utils.Letters` | poet/utils.py:5 | The letter sequence is no longer than the word and consists only of `a`–`z` |
| `Utils.LastBoundaryBelow` | poet/utils.py:14-19 | The recorded position is 0 or a boundary index below `i`, and no boundary lies between it and `i` |
| `Utils.VowelsSpelledOut` | poet/utils.py:1 | The vowel test holds exactly for the characters of `aeiouy` |
| `Utils.LoweredLettersAreLowercase` | poet/utils.py:5 | After lower-casing, every alphabetic character the filter keeps is in `a`–`z` |
| `Utils.AlphaFilterAppend` | poet/utils.py:5 | Filtering a concatenation yields the concatenation of the filtered parts |
| `Utils.AlphaFilterEmpty` | poet/utils.py:5 | The filter is empty iff no character is alphabetic |
| `Utils.LettersAppend` | poet/utils.py:5 | The letters of a concatenation are the concatenation of the letters |
| `Utils.LettersEmpty` | poet/utils.py:5-8 | A word has an empty letter sequence iff it has no alphabetic character |
| `Utils.LowercaseWordIsLetters` | poet/utils.py:5 | A word made only of `a`–`z` is its own letter sequence |
| `Utils.ZeroIffNoLetters` | poet/utils.py:5-8 | The estimate is 0 iff the word has no alphabetic character; the empty string is such a word |
| `Utils.AtLeastOneWithALetter` | poet/utils.py:10-27 | Any word with an alphabetic character has an estimate of at least 1 |
| `Utils.CaseInsensitive` | poet/utils.py:5 | Upper-casing or lower-casing a word does not change its estimate |
| `Utils.NoiseInsensitive` | poet/utils.py:5 | Inserting non-alphabetic characters anywhere in a word, or removing them, does not change its estimate |
| `Utils.BoundariesBelowHalf` | poet/utils.py:15-18 | Below any index `i`, at most `i / 2` indices are boundaries: no two boundaries are adjacent, since the letter before a boundary is a vowel |
| `Utils.BoundaryCountIsCardinality` | poet/utils.py:15-19 | The number of boundaries counted below `i` equals the number of indices below `i` where a consonant directly follows a vowel |
| `Utils.VowelRunAddsNoBoundary` | poet/utils.py:16-19 | A run of vowels adds no boundary |
| `Utils.VowelRunThenConsonant` | poet/utils.py:16-19 | A non-empty vowel run closed by a consonant adds exactly one boundary, however long the run |
| `Utils.ConsonantRunAddsNoBoundary` | poet/utils.py:16-19 | A run of consonants that starts the word, or follows a consonant, adds no boundary |
| `Utils.BoundariesBelowVowels` | poet/utils.py:15-25 | Below any index, the boundaries, plus one if the letter just before that index is a vowel, never outnumber the vowels: each boundary at `k` uses the vowel at `k - 1` |
| `Utils.AtMostVowels` | poet/utils.py:13-27 | The estimate never exceeds the larger of 1 and the number of vowels in the letter sequence |
| `Utils.FinalVowelOtherThanE` | poet/utils.py:21-23 | With three or more letters, a final vowel other than `e` makes the estimate exactly the number of boundaries plus one |
| `Utils.SilentFinalE` | poet/utils.py:24-25 | With three or more letters, a final `e` is silent iff the two letters before it are a vowel then a consonant, i.e. iff the last boundary is just before it |
| `Utils.FinalE` | poet/utils.py:21-27 | With three or more letters ending in `e`, the estimate is the number of boundaries, plus one unless the word ends vowel–consonant–`e`, floored to 1 |
| `SyllableCounterTests.Syllable` | tests/test_syllable_counter.py:6 | `syllable` has estimate 3 |
| `SyllableCounterTests.Hello` | tests/test_syllable_counter.py:7 | `hello` has estimate 2 |
| `SyllableCounterTests.Magic` | tests/test_syllable_counter.py:8 | `magic` has estimate 2 |
| `SyllableCounterTests.Stable` | tests/test_syllable_counter.py:9 | `stable` has estimate 2 |
| `SyllableCounterTests.Now` | tests/test_syllable_counter.py:10 | `now` has estimate 1 |
| `SyllableCounterTests.I` | tests/test_syllable_counter.py:11 | `i` has estimate 1 |
| `SyllableCounterTests.Whatever` | tests/test_syllable_counter.py:12 | `whatever` has estimate 3 |
| `SyllableCounterTests.Absurdity` | tests/test_syllable_counter.py:13 | `absurdity` has estimate 4 |
| `SyllableCounterTests.Clone` | tests/test_syllable_counter.py:14 | `clone` has estimate 1 |
| `SyllableCounterTests.Limitlessness` | tests/test_syllable_counter.py:15 | `limitlessness` has estimate 4 |
| `SyllableCounterTests.Exaggeration` | tests/test_syllable_counter.py:16 | `exaggeration` has estimate 5 |
| `SyllableCounterTests.UpperHello` | poet/utils.py:5 | The all-capitals `HELLO` lower-cases to `hello` and so has estimate 2 |

## Left out

- Unicode: `str.isalpha` and `str.lower` are modelled on ASCII letters only. Python's Unicode tables cover far more characters, including ones whose lower-case form is several characters long.
- The assignment `syllable = ''` (poet/utils.py:20) is dead code and is not modelled.
- The `Poet` class (poet/poet.py and its Python 2 copy poet.py) is not part of this model. It depends on nltk tokenisation and concordance, the remote Datamuse word service, random word picking and printing.
- The syllable-budget loops in `line_generator` and `pick_next_word_by_syllables` are not modelled. They sample random candidates from an external concordance, and nothing guarantees they terminate.
- The per-word syllable cache (`syllable_dict`) is not modelled. It belongs to the caller, not to the estimator.
- Argument validation (`_validate_input`) and the tokenising regular expression are not modelled. Both depend on Python's runtime typing and its `re` library.
