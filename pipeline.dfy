/**
 * The `/predict` route's use of the two backend classes: the profile that
 * `predict` returns is interpreted trait by trait and then summarised.
 */
module Pipeline {

  import opened Traits
  import ModelLoader
  import Summarizer

  /** The summary of a profile keyed by the five trait names does not raise:
      either the model answers or the rule-based summary applies. */
  lemma CanonicalProfileIsSummarized(summarizer: Summarizer.GeminiPersonalitySummarizer, scores: Profile)
    requires HasCanonicalKeys(scores)
    ensures summarizer.CreatePersonalitySummary(scores).Some?
  {
    Summarizer.FallbackSummaryOfCanonical(scores);
  }

  /** Every entry of a profile keyed by the five trait names has a real
      interpretation. */
  lemma CanonicalProfileIsInterpreted(scores: Profile)
    requires HasCanonicalKeys(scores)
    ensures forall i :: 0 <= i < |scores| ==>
      ModelLoader.GetTraitInterpretation(scores[i].0, scores[i].1.score) != ModelLoader.NoInterpretation
  {
    CanonicalKeysAreTraits(scores);
    forall i | 0 <= i < |scores|
      ensures ModelLoader.GetTraitInterpretation(scores[i].0, scores[i].1.score) != ModelLoader.NoInterpretation
    {
      ModelLoader.InterpretationSeparatesBands(scores[i].0, scores[i].1.score, scores[i].1.score);
    }
  }

  /** Whatever the comments and whichever way `predict` goes, every entry of
      its profile has a real interpretation and the summary does not raise:
      the five canonical keys are exactly what both consumers look up. */
  lemma EveryPredictionIsSummarized(loader: ModelLoader.Big5ModelLoader,
                                    summarizer: Summarizer.GeminiPersonalitySummarizer,
                                    comments: seq<string>, round2: real -> real)
    ensures var scores := loader.PredictedProfile(comments, round2);
      && summarizer.CreatePersonalitySummary(scores).Some?
      && forall i :: 0 <= i < |scores| ==>
           ModelLoader.GetTraitInterpretation(scores[i].0, scores[i].1.score) != ModelLoader.NoInterpretation
  {
    var scores := loader.PredictedProfile(comments, round2);
    CanonicalProfileIsSummarized(summarizer, scores);
    CanonicalProfileIsInterpreted(scores);
  }
}
