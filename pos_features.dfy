/**
 * The part-of-speech profile of `extract_pos_features`: the share of tokens
 * tagged exactly JJ, RB, NN and VB. Tokenising and tagging are foreign calls;
 * this module only counts what the tagger returned.
 */
module PosFeatures {

  /** `pos_tags_of_interest`, in vector order. */
  const PosTagsOfInterest: seq<string> := ["JJ", "RB", "NN", "VB"]

  /** Number of `(token, tag)` pairs whose tag is exactly `tag`. */
  function CountTag(tagged: seq<(string, string)>, tag: string): (n: nat)
    ensures n <= |tagged|
  {
    if tagged == [] then 0
    else CountTag(tagged[..|tagged| - 1], tag) + (if tagged[|tagged| - 1].1 == tag then 1 else 0)
  }

  /** `total_words`: the token count, or 1 when there are no tokens. */
  function TotalWords(tokenCount: nat): (d: nat)
    ensures d >= 1
    ensures tokenCount > 0 ==> d == tokenCount
  {
    if tokenCount > 0 then tokenCount else 1
  }

  /** The four counts of interest divided by the token count, in tag order. */
  function PosRatios(tokenCount: nat, tagged: seq<(string, string)>): (v: seq<real>)
    ensures |v| == |PosTagsOfInterest|
  {
    seq(|PosTagsOfInterest|, k requires 0 <= k < |PosTagsOfInterest| =>
      CountTag(tagged, PosTagsOfInterest[k]) as real / TotalWords(tokenCount) as real)
  }

  /** The counting loop of `extract_pos_features`: a dictionary from each tag of
      interest to zero, bumped for every pair whose tag is one of its keys, then
      each count divided by the token count. */
  method PosVector(tokenCount: nat, tagged: seq<(string, string)>) returns (v: seq<real>)
    ensures v == PosRatios(tokenCount, tagged)
  {
    var tagCounts: map<string, nat> := map t | t in PosTagsOfInterest :: 0;
    var j := 0;
    while j < |tagged|
      invariant 0 <= j <= |tagged|
      invariant forall t :: t in tagCounts <==> t in PosTagsOfInterest
      invariant forall t :: t in tagCounts ==> tagCounts[t] == CountTag(tagged[..j], t)
    {
      assert tagged[..j + 1][..j] == tagged[..j];
      var tag := tagged[j].1;
      if tag in tagCounts {
        tagCounts := tagCounts[tag := tagCounts[tag] + 1];
      }
      j := j + 1;
    }
    assert tagged[..j] == tagged;
    var totalWords := if tokenCount > 0 then tokenCount else 1;
    v := [];
    var k := 0;
    while k < |PosTagsOfInterest|
      invariant 0 <= k <= |PosTagsOfInterest|
      invariant v == PosRatios(tokenCount, tagged)[..k]
    {
      v := v + [tagCounts[PosTagsOfInterest[k]] as real / totalWords as real];
      k := k + 1;
    }
  }

  /** The four tags of interest are counted apart: no pair is counted twice. */
  lemma {:induction false} CountsOfInterestBounded(tagged: seq<(string, string)>)
    ensures CountTag(tagged, "JJ") + CountTag(tagged, "RB") + CountTag(tagged, "NN")
            + CountTag(tagged, "VB") <= |tagged|
  {
    if tagged != [] {
      CountsOfInterestBounded(tagged[..|tagged| - 1]);
    }
  }

  /** With one tag per token, every ratio lies in [0, 1] and the four sum to at
      most 1; with no tokens the vector is all zeros. */
  lemma PosRatiosBounded(tokenCount: nat, tagged: seq<(string, string)>)
    requires |tagged| <= tokenCount
    ensures forall k :: 0 <= k < 4 ==> 0.0 <= PosRatios(tokenCount, tagged)[k] <= 1.0
    ensures var v := PosRatios(tokenCount, tagged); v[0] + v[1] + v[2] + v[3] <= 1.0
    ensures tokenCount == 0 ==> PosRatios(tokenCount, tagged) == [0.0, 0.0, 0.0, 0.0]
  {
    var v := PosRatios(tokenCount, tagged);
    var d := TotalWords(tokenCount);
    CountsOfInterestBounded(tagged);
    var jj, rb, nn, vb := CountTag(tagged, "JJ"), CountTag(tagged, "RB"),
                          CountTag(tagged, "NN"), CountTag(tagged, "VB");
    FractionSum(jj as real, rb as real, nn as real, vb as real, d as real);
    Fraction((jj + rb + nn + vb) as real, d as real);
    forall k | 0 <= k < 4 ensures 0.0 <= v[k] <= 1.0 {
      Fraction(CountTag(tagged, PosTagsOfInterest[k]) as real, d as real);
    }
  }

  lemma Fraction(c: real, d: real)
    requires d >= 1.0 && 0.0 <= c <= d
    ensures 0.0 <= c / d <= 1.0
  {
  }

  lemma FractionSum(a: real, b: real, c: real, e: real, d: real)
    requires d >= 1.0
    ensures a / d + b / d + c / d + e / d == (a + b + c + e) / d
  {
  }

  /** Only exact tag matches count: a pair tagged `NNS`, `VBD`, `JJR` or any
      other tag outside the four leaves the vector unchanged. */
  lemma OtherTagsIgnored(tokenCount: nat, tagged: seq<(string, string)>, token: string, tag: string)
    requires tag !in PosTagsOfInterest
    ensures PosRatios(tokenCount, tagged + [(token, tag)]) == PosRatios(tokenCount, tagged)
  {
    var ext := tagged + [(token, tag)];
    assert ext[..|ext| - 1] == tagged;
  }

  /** A pair tagged with the k-th tag of interest adds one token's share to the
      k-th entry and nothing to the others. */
  lemma TagOfInterestCounted(tokenCount: nat, tagged: seq<(string, string)>, token: string, k: nat)
    requires k < |PosTagsOfInterest|
    ensures var before := PosRatios(tokenCount, tagged);
            var after := PosRatios(tokenCount, tagged + [(token, PosTagsOfInterest[k])]);
            && after[k] == before[k] + 1.0 / TotalWords(tokenCount) as real
            && forall j :: 0 <= j < |PosTagsOfInterest| && j != k ==> after[j] == before[j]
  {
    var ext := tagged + [(token, PosTagsOfInterest[k])];
    assert ext[..|ext| - 1] == tagged;
  }
}
