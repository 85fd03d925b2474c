/**
 * Normalisation is not idempotent: deleting a digit can glue the pieces of a
 * word into a URL prefix that a second pass then deletes ("ht1tpx" gives
 * "httpx", which normalises to ""). The lemmas below compute both passes.
 */
module NormalizerExample {

  import opened TextNormalizer

  predicate AllLowerLetters(s: string) {
    forall i :: 0 <= i < |s| ==> IsLowerLetter(s[i])
  }

  /** Lower-casing leaves a text without upper-case letters unchanged. */
  lemma LowerFixesLowerCase(s: string)
    requires forall i :: 0 <= i < |s| ==> !IsUpper(s[i])
    ensures Lower(s) == s
  {
  }

  /** A text without the marker character has no mention or hashtag to delete. */
  lemma {:induction false} StripMarkedWithoutMarker(s: string, marker: char, isAlnum: char -> bool)
    requires marker !in s
    ensures StripMarked(s, marker, isAlnum) == s
  {
    if s != [] {
      assert s[..1] == [s[0]];
      StripMarkedWithoutMarker(s[1..], marker, isAlnum);
    }
  }

  lemma {:induction false} StripDigitsOfLetters(s: string)
    requires AllLowerLetters(s)
    ensures StripDigits(s) == s
  {
    if s != [] {
      StripDigitsOfLetters(s[1..]);
    }
  }

  lemma {:induction false} KeepAsciiOfLetters(s: string)
    requires AllLowerLetters(s)
    ensures KeepAscii(s) == s
  {
    if s != [] {
      KeepAsciiOfLetters(s[1..]);
    }
  }

  lemma PunctuationToSpaceOfLetters(s: string)
    requires AllLowerLetters(s)
    ensures PunctuationToSpace(s) == s
  {
  }

  lemma {:induction false} CollapseSpacesOfLetters(s: string)
    requires AllLowerLetters(s)
    ensures CollapseSpaces(s) == s
  {
    if s != [] {
      CollapseSpacesOfLetters(s[1..]);
    }
  }

  lemma StripOfLetters(s: string)
    requires AllLowerLetters(s)
    ensures Strip(s) == s
  {
    assert LeadingSpaceCount(s) == 0;
    assert StripEnd(s) == |s|;
  }

  /** The last four steps leave a word of lower-case letters unchanged. */
  lemma TailStepsFixLetters(t: string)
    requires AllLowerLetters(t)
    ensures Strip(CollapseSpaces(PunctuationToSpace(KeepAscii(t)))) == t
  {
    assert KeepAscii(t) == t by { KeepAsciiOfLetters(t); }
    assert PunctuationToSpace(t) == t by { PunctuationToSpaceOfLetters(t); }
    assert CollapseSpaces(t) == t by { CollapseSpacesOfLetters(t); }
    assert Strip(t) == t by { StripOfLetters(t); }
  }

  lemma NoUrlInExample(s: string)
    requires s == "ht1tpx"
    ensures NoUrl(s)
  {
    assert UrlMatch(s[0..]) == 0 by { assert s[0..] == s; }
    assert s[..4][2] == '1';
    assert UrlMatch(s[1..]) == 0 by {
      assert s[1..][..4][0] == 't' && s[1..][..3][0] == 't' && s[1..][..5][0] == 't';
    }
    assert UrlMatch(s[2..]) == 0 by { assert s[2..][..4][0] == '1' && s[2..][..3][0] == '1'; }
    assert UrlMatch(s[3..]) == 0 by { assert s[3..][..3][0] == 't'; }
    assert UrlMatch(s[4..]) == 0 by { assert |s[4..]| == 2; }
    assert UrlMatch(s[5..]) == 0 by { assert |s[5..]| == 1; }
  }

  lemma ExampleLower(s: string)
    requires s == "ht1tpx"
    ensures Lower(s) == s
  {
    LowerFixesLowerCase(s);
  }

  lemma ExampleUrls(s: string)
    requires s == "ht1tpx"
    ensures StripUrls(s) == s
  {
    NoUrlInExample(s);
    StripUrlsWithoutMatch(s);
  }

  lemma ExampleMarkers(s: string, isAlnum: char -> bool)
    requires s == "ht1tpx"
    ensures StripMarked(s, '@', isAlnum) == s && StripMarked(s, '#', isAlnum) == s
  {
    assert StripMarked(s, '@', isAlnum) == s by { StripMarkedWithoutMarker(s, '@', isAlnum); }
    assert StripMarked(s, '#', isAlnum) == s by { StripMarkedWithoutMarker(s, '#', isAlnum); }
  }

  /** Between two words of letters, a single digit is the only thing digit
      stripping deletes. */
  lemma {:induction false} StripOneDigit(p: string, d: char, w: string)
    requires AllLowerLetters(p) && IsDigit(d) && AllLowerLetters(w)
    ensures StripDigits(p + [d] + w) == p + w
    decreases |p|
  {
    if p == [] {
      assert p + [d] + w == [d] + w;
      StripDigitsOfLetters(w);
    } else {
      StripOneDigit(p[1..], d, w);
      assert (p + [d] + w)[1..] == p[1..] + [d] + w;
      assert p + w == [p[0]] + (p[1..] + w);
    }
  }

  lemma ExampleDigits(s: string, t: string)
    requires s == "ht1tpx" && t == "httpx"
    ensures StripDigits(s) == t
  {
    assert s == "ht" + ['1'] + "tpx";
    assert t == "ht" + "tpx";
    StripOneDigit("ht", '1', "tpx");
  }

  /** The deletions turn "ht1tpx" into the URL-shaped word "httpx". */
  lemma ExampleFirstSteps(s: string, t: string, isAlnum: char -> bool)
    requires s == "ht1tpx" && t == "httpx"
    ensures Deletions(Lower(s), isAlnum) == t
  {
    ExampleLower(s);
    ExampleUrls(s);
    ExampleMarkers(s, isAlnum);
    ExampleDigits(s, t);
  }

  /** When the deleting steps leave a word of lower-case letters, that word is
      the normalised text. */
  lemma NormalizeViaDeletions(raw: string, t: string, isAlnum: char -> bool)
    requires Deletions(Lower(raw), isAlnum) == t
    requires AllLowerLetters(t)
    ensures Normalize(raw, isAlnum) == t
  {
    TailStepsFixLetters(t);
  }

  lemma ExampleWordIsLetters(t: string)
    requires t == "httpx"
    ensures AllLowerLetters(t)
  {
  }

  lemma ExampleFirstPass(s: string, t: string, isAlnum: char -> bool)
    requires s == "ht1tpx" && t == "httpx"
    ensures Normalize(s, isAlnum) == t
  {
    ExampleFirstSteps(s, t, isAlnum);
    ExampleWordIsLetters(t);
    NormalizeViaDeletions(s, t, isAlnum);
  }

  lemma ExampleSecondPass(t: string, isAlnum: char -> bool)
    requires t == "httpx"
    ensures Normalize(t, isAlnum) == ""
  {
    LowerFixesLowerCase(t);
    assert t[..4] == "http";
    assert UrlMatch(t) == 5;
  }

  /** Normalising the normalised text of "ht1tpx" changes it again, whatever
      the Unicode character database says (the text is ASCII). */
  lemma NormalizeNotIdempotent(isAlnum: char -> bool)
    ensures Normalize("ht1tpx", isAlnum) == "httpx"
    ensures Normalize(Normalize("ht1tpx", isAlnum), isAlnum) == ""
  {
    ExampleFirstPass("ht1tpx", "httpx", isAlnum);
    ExampleSecondPass("httpx", isAlnum);
  }
}
