/**
 * The literal expectations of tests/test_syllable_counter.py, as lemmas about
 * the estimator of module Utils.  Each expectation is split in two facts the
 * verifier decides on its own: the word is its own letter sequence, and the
 * estimate of that letter sequence, evaluated directly.
 */
module SyllableCounterTests {
  import opened Utils

  /** `syllable_counter('syllable') == 3` */
  lemma Syllable()
    ensures SyllableCount("syllable") == 3
  {
    SyllableLetters();
    SyllableEstimate();
  }

  lemma SyllableLetters()
    ensures Letters("syllable") == "syllable"
  {
    LowercaseWordIsLetters("syllable");
  }

  lemma SyllableEstimate()
    ensures Estimate("syllable") == 3
  {
    assert BoundariesBelow("syllable", 8) == 2;
    assert LastBoundaryBelow("syllable", 8) == 5;
  }

  /** `syllable_counter('hello') == 2` */
  lemma Hello()
    ensures SyllableCount("hello") == 2
  {
    HelloLetters();
    HelloEstimate();
  }

  lemma HelloLetters()
    ensures Letters("hello") == "hello"
  {
    LowercaseWordIsLetters("hello");
  }

  lemma HelloEstimate()
    ensures Estimate("hello") == 2
  {
    assert BoundariesBelow("hello", 5) == 1;
  }

  /** `syllable_counter('magic') == 2` */
  lemma Magic()
    ensures SyllableCount("magic") == 2
  {
    MagicLetters();
    MagicEstimate();
  }

  lemma MagicLetters()
    ensures Letters("magic") == "magic"
  {
    LowercaseWordIsLetters("magic");
  }

  lemma MagicEstimate()
    ensures Estimate("magic") == 2
  {
    assert BoundariesBelow("magic", 5) == 2;
  }

  /** `syllable_counter('stable') == 2` */
  lemma Stable()
    ensures SyllableCount("stable") == 2
  {
    StableLetters();
    StableEstimate();
  }

  lemma StableLetters()
    ensures Letters("stable") == "stable"
  {
    LowercaseWordIsLetters("stable");
  }

  lemma StableEstimate()
    ensures Estimate("stable") == 2
  {
    assert BoundariesBelow("stable", 6) == 1;
    assert LastBoundaryBelow("stable", 6) == 3;
  }

  /** `syllable_counter('now') == 1` */
  lemma Now()
    ensures SyllableCount("now") == 1
  {
    NowLetters();
    NowEstimate();
  }

  lemma NowLetters()
    ensures Letters("now") == "now"
  {
    LowercaseWordIsLetters("now");
  }

  lemma NowEstimate()
    ensures Estimate("now") == 1
  {
    assert BoundariesBelow("now", 3) == 1;
  }

  /** `syllable_counter('i') == 1` */
  lemma I()
    ensures SyllableCount("i") == 1
  {
  }

  /** `syllable_counter('whatever') == 3` */
  lemma Whatever()
    ensures SyllableCount("whatever") == 3
  {
    WhateverLetters();
    WhateverEstimate();
  }

  lemma WhateverLetters()
    ensures Letters("whatever") == "whatever"
  {
    LowercaseWordIsLetters("whatever");
  }

  lemma WhateverEstimate()
    ensures Estimate("whatever") == 3
  {
    assert BoundariesBelow("whatever", 8) == 3;
  }

  /** `syllable_counter('absurdity') == 4` */
  lemma Absurdity()
    ensures SyllableCount("absurdity") == 4
  {
    AbsurdityLetters();
    AbsurdityEstimate();
  }

  lemma AbsurdityLetters()
    ensures Letters("absurdity") == "absurdity"
  {
    LowercaseWordIsLetters("absurdity");
  }

  lemma AbsurdityEstimate()
    ensures Estimate("absurdity") == 4
  {
    assert BoundariesBelow("absurdity", 9) == 3;
  }

  /** `syllable_counter('clone') == 1` */
  lemma Clone()
    ensures SyllableCount("clone") == 1
  {
    CloneLetters();
    CloneEstimate();
  }

  lemma CloneLetters()
    ensures Letters("clone") == "clone"
  {
    LowercaseWordIsLetters("clone");
  }

  lemma CloneEstimate()
    ensures Estimate("clone") == 1
  {
    assert BoundariesBelow("clone", 5) == 1;
    assert LastBoundaryBelow("clone", 5) == 3;
  }

  /** `syllable_counter('limitlessness') == 4` */
  lemma Limitlessness()
    ensures SyllableCount("limitlessness") == 4
  {
    LimitlessnessLetters();
    LimitlessnessEstimate();
  }

  lemma LimitlessnessLetters()
    ensures Letters("limitlessness") == "limitlessness"
  {
    LowercaseWordIsLetters("limitlessness");
  }

  lemma LimitlessnessEstimate()
    ensures Estimate("limitlessness") == 4
  {
    assert BoundariesBelow("limitlessness", 13) == 4;
  }

  /** `syllable_counter('exaggeration') == 5` */
  lemma Exaggeration()
    ensures SyllableCount("exaggeration") == 5
  {
    ExaggerationLetters();
    ExaggerationEstimate();
  }

  lemma ExaggerationLetters()
    ensures Letters("exaggeration") == "exaggeration"
  {
    LowercaseWordIsLetters("exaggeration");
  }

  lemma ExaggerationEstimate()
    ensures Estimate("exaggeration") == 5
  {
    assert BoundariesBelow("exaggeration", 12) == 5;
  }

  /** The all-capitals `HELLO` has the estimate of `hello`: lower-casing sends
    * each of its letters to the matching lower-case letter. */
  lemma UpperHello()
    ensures SyllableCount("HELLO") == 2
  {
    UpperHelloLetters();
    HelloEstimate();
  }

  lemma UpperHelloLetters()
    ensures Letters("HELLO") == "hello"
  {
    assert LowerString("HELLO") == "hello";
    LowercaseWordIsLetters("hello");
  }
}
