# Big Five personality prediction — verified model of the core

This project models the deterministic logic of a web application. The application predicts Big Five personality scores (Openness, Conscientiousness, Extraversion, Agreeableness, Neuroticism) from social-media comments.

The model covers three parts of the application, and the project proves properties of each:

- **The backend loader** (`Big5ModelLoader`, `backend/model_loader.py`). Each comment is normalised by a fixed chain of text rewrites. The loader then builds a feature vector from four segments: embedding, sentiment, topics and part-of-speech ratios. It passes the vector to a regressor, averages the per-comment predictions into a five-trait profile, and falls back to an all-neutral profile when anything raises. Each score is read as one of three interpretation bands.
- **The rule-based summariser** (`GeminiPersonalitySummarizer`, `backend/gemini_summarizer.py`). It is used whenever the generative model is missing or its call raises. It computes the level thresholds, the first-maximum and first-minimum traits, the average and the "well-balanced" test, the relationship-style lines, and the per-trait insight sentences.
- **The comment editor of the frontend** (`PersonalityInput`, `src/components/PersonalityInput.tsx`). It holds a list of one to ten comments that the user adds to, removes from and edits. Its submit check drops blank comments and rejects a batch that is empty or holds a short comment.

Every machine-learning call is a function supplied to the model from outside and is never interpreted. This covers the sentence embedding, VADER sentiment, the vectorizer and LDA transforms, the NLTK tokenizer and tagger, the regressor, and Gemini generation. A call that may raise returns an `Option`: `None` stands for the exception. The `Big5ModelLoader` class holds these calls as constant fields.

A Python dict whose insertion order matters is a sequence of `(name, TraitScore)` pairs (`Traits.Profile`). Scores are `real`. Python's `round(x, 2)` and f-string float formatting are function parameters.

Modules, one per file:

| file | module | models |
|---|---|---|
| `wrappers.dfy` | `Wrappers` | `Option`, and collecting the results of a call over a list (stops at the first failure) |
| `traits.dfy` | `Traits` | the five trait names, `TraitScore`, profiles and their lookup |
| `text_normalizer.dfy` | `TextNormalizer` | the rewrites of `preprocess_input` (lines 105-112) |
| `normalizer_example.dfy` | `NormalizerExample` | a worked input showing that normalising twice differs from normalising once |
| `pos_features.dfy` | `PosFeatures` | the tag counting of `extract_pos_features` |
| `aggregation.dfy` | `Aggregation` | `sum(values) / len(values)` of the summary, and the column mean of `predict` |
| `model_loader.dfy` | `ModelLoader` | `Big5ModelLoader` and `get_trait_interpretation` |
| `summarizer.dfy` | `Summarizer` | `GeminiPersonalitySummarizer` and its rule-based fallback |
| `personality_input.dfy` | `PersonalityInput` | the `comments` state and `handleSubmit` |
| `pipeline.dfy` | `Pipeline` | how the `/predict` route combines the two backend classes |

Notes on the model:

- **Interpretation thresholds.** `get_trait_interpretation` compares scores with 0.4 and 0.7. `predict` returns scores on a 0-10 scale, as the percentage `score * 10` shows. The thresholds are modelled exactly as written, so every score of 0.7 or more reads as "high". `ModelLoader.DefaultProfileReadsHigh` proves that the all-neutral default profile (5.0 everywhere) reads "high" for every trait.
- **`predict([])`.** An empty comment list makes `np.mean` of an empty array return a scalar NaN, and indexing that scalar raises. The `except` branch then returns the default profile. The model keeps that behaviour and places no precondition on the list (`ModelLoader.Big5ModelLoader.PredictedProfile`). The HTTP route in `backend/app.py:50` rejects an empty list before calling `predict`, and that check belongs to the caller.
- **Normalisation is not idempotent.** Normalising `"ht1tpx"` gives `"httpx"`, because the digit is deleted after URLs are stripped. A second pass deletes `"httpx"` as a URL and gives `""`. `NormalizerExample.NormalizeNotIdempotent` proves both steps. The model therefore claims no idempotence.

## Model

| member | source | states |
|---|---|---|
| Wrappers.CollectAll | backend/model_loader.py:151-157 | collecting a call over a list: when it succeeds there is one result per input |
| Wrappers.CollectAllPointwise | backend/model_loader.py:151-157 | the collection succeeds iff the call succeeds on every element, and then its i-th result is the call's result on the i-th element |
| Wrappers.CollectAllStep | backend/model_loader.py:151-157 | one more turn of the loop appends the call's result, or fails when the call raises |
| Wrappers.CollectAllFails | backend/model_loader.py:150-157 | a failure on any prefix makes the whole collection fail (the loop is abandoned at the first exception) |
| Traits.TraitNamesDistinct | backend/model_loader.py:64-70 | the five trait names are pairwise distinct |
| Traits.CanonicalKeysUnique | backend/model_loader.py:164-170 | a profile keyed by the five names in order has no repeated key, as a dict has |
| Traits.CanonicalKeysAreTraits | backend/model_loader.py:164-170 | every key of such a profile is one of the five trait names |
| Traits.Lookup | backend/gemini_summarizer.py:121 | lookup by name finds an entry iff the name is a key, and returns the score stored under that name |
| TextNormalizer.LowerChar | backend/model_loader.py:105 | lower-casing leaves no upper-case ASCII letter: it shifts A-Z by 32 and leaves every other character alone |
| TextNormalizer.Lower | backend/model_loader.py:105 | `text.lower()` keeps the length and lower-cases each character in place |
| TextNormalizer.Run | backend/model_loader.py:106 | a greedy `cls*` match: every matched character is in the class, and the next one is not |
| TextNormalizer.PrefixedRun | backend/model_loader.py:106 | `prefix cls+` matches iff the text starts with the prefix followed by a class character; the match covers more than the prefix, every character after the prefix is in the class, and the next one is not |
| TextNormalizer.UrlMatch | backend/model_loader.py:106 | the match of `http\S+`, `www\S+` or `https\S+` at the front is non-empty iff the text starts with "http" or "www" followed by a non-whitespace character; the match holds no whitespace and ends at whitespace or at the end of the text |
| TextNormalizer.UrlMatchIsPattern | backend/model_loader.py:106 | for every text, the non-whitespace run taken when the text starts a URL equals the match of the three alternatives in source order |
| TextNormalizer.HttpsAfterHttp | backend/model_loader.py:106 | wherever the `https` alternative matches, the `http` alternative matches too, with a non-whitespace character after "http" |
| TextNormalizer.StripUrls | backend/model_loader.py:106 | deleting URL runs only removes characters: the result is no longer, and every character comes from the input; what is deleted is stated by `StripUrlsDropMatch`, and what is kept, and where, by `StripUrlsKeepHead`, `StripUrlsSplit` and `StripUrlsKeepsPrefix` |
| TextNormalizer.StripUrlsKeepHead | backend/model_loader.py:106 | a first character at which no URL match starts is kept, and the scan goes on from the next character |
| TextNormalizer.StripUrlsDropMatch | backend/model_loader.py:106 | a whole URL match at the front is deleted, and the scan goes on right after it; with `StripUrlsKeepHead` and the empty case this fixes the result for every input (so "abchttpx" gives "abc") |
| TextNormalizer.StripUrlsKeepsSpaces | backend/model_loader.py:106 | every whitespace character is kept, as often as it occurs |
| TextNormalizer.StripUrlsLeadingSpace | backend/model_loader.py:106 | a text starting with whitespace gives a result starting with that character |
| TextNormalizer.NonSpacePrefixKept | backend/model_loader.py:106 | a non-whitespace run at the front of the result was at the front of the input |
| TextNormalizer.StartsUrlFromPrefix | backend/model_loader.py:106 | whether a URL match starts at a character depends only on the non-whitespace run it begins |
| TextNormalizer.KeptFirstNoUrl | backend/model_loader.py:106 | a kept first character cannot start a URL in the result |
| TextNormalizer.StripUrlsLeavesNoUrl | backend/model_loader.py:106 | no URL match starts anywhere in the result |
| TextNormalizer.StripUrlsWithoutMatch | backend/model_loader.py:106 | a text in which no URL match starts is returned unchanged |
| TextNormalizer.StripUrlsIdempotent | backend/model_loader.py:106 | deleting URLs a second time changes nothing |
| TextNormalizer.RunBeforeStop | backend/model_loader.py:106 | a greedy class run is the same whatever follows a character outside the class |
| TextNormalizer.UrlMatchBeforeSpace | backend/model_loader.py:106 | a URL match cannot reach past whitespace: the match at the front is the same whatever follows a whitespace character |
| TextNormalizer.StripUrlsSplit | backend/model_loader.py:106 | deleting URLs from two texts joined by a whitespace character deletes them from each side separately, and keeps that whitespace in place between the results |
| TextNormalizer.StripUrlsKeepsPrefix | backend/model_loader.py:106 | every character before the first position where a URL match starts is kept, in place, at the front of the result |
| TextNormalizer.WordRun | backend/model_loader.py:107-108 | a greedy `\w*`: every matched character is a word character, and the next one is not |
| TextNormalizer.MarkedMatch | backend/model_loader.py:107-108 | the `@\w+` (or `#\w+`) match at the front is non-empty iff the text starts with the marker and a word character; it is the marker and word characters, and the next character is not a word character |
| TextNormalizer.StripMarked | backend/model_loader.py:107-108 | deleting `@\w+` and `#\w+` only removes characters: the result is no longer, and every character comes from the input; what is deleted is stated by `StripMarkedDropMatch`, and what is kept, and where, by `StripMarkedKeepHead`, `StripMarkedSplit` and `StripMarkedKeepsPrefix` |
| TextNormalizer.StripMarkedKeepHead | backend/model_loader.py:107-108 | a first character at which no marker-word match starts is kept, and the scan goes on from the next character |
| TextNormalizer.StripMarkedDropMatch | backend/model_loader.py:107-108 | a whole marker-word match at the front is deleted, and the scan goes on right after it; with `StripMarkedKeepHead` and the empty case this fixes the result for every input |
| TextNormalizer.StripMarkedKeepsOthers | backend/model_loader.py:107-108 | every character other than the marker and the word characters is kept, as often as it occurs |
| TextNormalizer.NonWordStartKept | backend/model_loader.py:107-108 | a text that does not start with a word character gives a result that does not either |
| TextNormalizer.FirstWordCharKept | backend/model_loader.py:107-108 | a result starting with a word character starts with the input's own first character |
| TextNormalizer.StripMarkedLeavesNoMatch | backend/model_loader.py:107-108 | no `marker \w+` match starts anywhere in the result |
| TextNormalizer.StripMarkedWithoutMatch | backend/model_loader.py:107-108 | a text in which no match starts is returned unchanged |
| TextNormalizer.StripMarkedIdempotent | backend/model_loader.py:107-108 | deleting mentions (or hashtags) a second time changes nothing |
| TextNormalizer.WordRunBeforeStop | backend/model_loader.py:107-108 | a `\w*` run is the same whatever follows a character that is not a word character |
| TextNormalizer.MarkedMatchBeforeStop | backend/model_loader.py:107-108 | a `marker \w+` match cannot reach past a character that is neither the marker nor a word character |
| TextNormalizer.StripMarkedSplit | backend/model_loader.py:107-108 | deleting mentions (or hashtags) from two texts joined by a character that is neither the marker nor a word character deletes them from each side separately, and keeps that character in place between the results |
| TextNormalizer.StripMarkedKeepsPrefix | backend/model_loader.py:107-108 | every character before the first position where a match starts is kept, in place, at the front of the result |
| TextNormalizer.StripDigits | backend/model_loader.py:109 | after `\d+` deletion no digit is left, and every character comes from the input; order is kept by `StripDigitsAppend` |
| TextNormalizer.StripDigitsKeepsOthers | backend/model_loader.py:109 | every character that is not a digit is kept, as often as it occurs |
| TextNormalizer.StripDigitsAppend | backend/model_loader.py:109 | digit deletion distributes over concatenation, so the kept characters stay in their order |
| TextNormalizer.KeepAscii | backend/model_loader.py:110 | after the ASCII encode/decode every character is ASCII and comes from the input; order is kept by `KeepAsciiAppend` |
| TextNormalizer.KeepAsciiKeepsAscii | backend/model_loader.py:110 | every ASCII character is kept, as often as it occurs |
| TextNormalizer.KeepAsciiAppend | backend/model_loader.py:110 | the ASCII filter distributes over concatenation, so the kept characters stay in their order |
| TextNormalizer.PunctuationToSpace | backend/model_loader.py:111 | each `string.punctuation` character becomes a space and every other character is kept, position by position |
| TextNormalizer.LeadingSpaceCount | backend/model_loader.py:112 | the count of leading characters that are all whitespace, stopping at the first one that is not |
| TextNormalizer.DropLeadingSpaces | backend/model_loader.py:112 | the result is a suffix, does not start with whitespace, and only whitespace was dropped |
| TextNormalizer.BackOverSpaces | backend/model_loader.py:112 | moving an end position back over whitespace, not below a bound, passes only whitespace and stops after a non-whitespace character or at the bound |
| TextNormalizer.StripEnd | backend/model_loader.py:112 | the end of the stripped text: not before the leading whitespace, only whitespace after it, and a non-whitespace character just before it unless the text is blank |
| TextNormalizer.DropLeadingKeepsNonSpace | backend/model_loader.py:112 | dropping leading whitespace keeps every other character, as often as it occurs |
| TextNormalizer.DropPrefixKeeps | backend/model_loader.py:106-112 | dropping a prefix that holds no character of a class keeps every character of that class, as often as it occurs |
| TextNormalizer.CollapseSpaces | backend/model_loader.py:112 | after `\s+` becomes one space, no two whitespace characters are adjacent; the result is empty iff the input is, and starts with whitespace iff the input does; each run becomes one space in place by `CollapseSpacesSplit` and `CollapseBlank` |
| TextNormalizer.CollapseSpacesChars | backend/model_loader.py:112 | every character of the collapsed text is a single space or a non-whitespace character of the input |
| TextNormalizer.CollapseKeepsNonSpace | backend/model_loader.py:112 | every non-whitespace character is kept, as often as it occurs |
| TextNormalizer.DropLeadingBeforeNonSpace | backend/model_loader.py:112 | leading whitespace ends at the latest at a non-whitespace character, so what follows it is kept unchanged |
| TextNormalizer.CollapseSpaceHead | backend/model_loader.py:112 | a text that starts with whitespace collapses to one space followed by the collapse of what comes after that whole whitespace run |
| TextNormalizer.CollapseWordHead | backend/model_loader.py:112 | a leading non-whitespace character is kept, and collapsing goes on from the next character |
| TextNormalizer.CollapseSpacesSplit | backend/model_loader.py:112 | collapsing two texts joined by a non-whitespace character collapses each side separately, with that character kept in place between them, so words stay apart and in order |
| TextNormalizer.CollapseSplitAfterSpace | backend/model_loader.py:112 | the inductive step of the split for a text starting with whitespace |
| TextNormalizer.CollapseSplitAfterWord | backend/model_loader.py:112 | the inductive step of the split for a text starting with a non-whitespace character |
| TextNormalizer.CollapseBlank | backend/model_loader.py:112 | a non-empty whitespace-only run collapses to a single space |
| TextNormalizer.Strip | backend/model_loader.py:112 | `strip()` leaves no whitespace at either end; the result is the slice of the input that starts after its leading whitespace, and only whitespace lies before and after that slice |
| TextNormalizer.Normalize | backend/model_loader.py:102-112 | for every input, the normalised text is ASCII with no upper-case letter, digit or punctuation; its only whitespace is single spaces, and none at either end |
| TextNormalizer.NormalizeText | backend/model_loader.py:105-112 | reassigning `text` through the eight rewrites in source order computes `Normalize` |
| TextNormalizer.DeletionsKeepLowerCase | backend/model_loader.py:105-109 | the deletions after lower-casing bring in no upper-case letter |
| TextNormalizer.SpacedIsClean | backend/model_loader.py:110-111 | after the ASCII filter and the punctuation step, every character is ASCII, not upper-case, not a digit and not punctuation |
| TextNormalizer.CollapsedIsClean | backend/model_loader.py:112 | collapsing clean characters leaves clean characters whose only whitespace is the plain space |
| TextNormalizer.StripKeepsShape | backend/model_loader.py:112 | `strip()` of such a text keeps it clean and free of adjacent whitespace |
| TextNormalizer.StrippedIsNormal | backend/model_loader.py:112 | stripping a clean, singly spaced text gives normal form |
| TextNormalizer.CollapsedStripIsNormal | backend/model_loader.py:112 | collapsing and stripping clean characters yields normal form |
| TextNormalizer.BlankDeletions | backend/model_loader.py:105-109 | a text made only of whitespace is still only whitespace after the URL, mention, hashtag and digit deletions |
| TextNormalizer.BlankUrls | backend/model_loader.py:106 | URL deletion keeps a whitespace-only text whitespace-only |
| TextNormalizer.BlankMarked | backend/model_loader.py:107-108 | mention or hashtag deletion keeps a whitespace-only text whitespace-only |
| TextNormalizer.BlankDigits | backend/model_loader.py:109 | digit deletion keeps a whitespace-only text whitespace-only |
| TextNormalizer.BlankAscii | backend/model_loader.py:110 | the ASCII filter keeps a whitespace-only text whitespace-only |
| TextNormalizer.BlankNormalizesToEmpty | backend/model_loader.py:105-112 | empty or whitespace-only input normalises to `""` |
| NormalizerExample.NormalizeNotIdempotent | backend/model_loader.py:105-112 | normalising `"ht1tpx"` gives `"httpx"`, and normalising that again gives `""` |
| PosFeatures.CountTag | backend/model_loader.py:135-138 | a tag count never exceeds the number of tagged tokens |
| PosFeatures.TotalWords | backend/model_loader.py:141 | the denominator is at least 1, and equals the token count when there are tokens |
| PosFeatures.PosRatios | backend/model_loader.py:142 | the POS vector has one entry per tag of interest (JJ, RB, NN, VB) |
| PosFeatures.PosVector | backend/model_loader.py:135-142 | the counting loop over a `tag_counts` dict, then division by `total_words`, computes the four ratios in tag order |
| PosFeatures.CountsOfInterestBounded | backend/model_loader.py:135-138 | the four counts together never exceed the number of tagged tokens |
| PosFeatures.PosRatiosBounded | backend/model_loader.py:141-142 | every ratio is in [0, 1] and the four sum to at most 1; with no tokens the vector is all zeros |
| PosFeatures.OtherTagsIgnored | backend/model_loader.py:137-138 | only exact matches count: a token tagged with any other tag (NNS, VBD, ...) leaves the vector unchanged |
| PosFeatures.TagOfInterestCounted | backend/model_loader.py:136-142 | a token with the k-th tag adds exactly one token's share to entry k and nothing to the others |
| Aggregation.Average | backend/gemini_summarizer.py:122 | `sum(values) / len(values)`: its `len(values)` copies add up to the sum, and equal values average to that value |
| Aggregation.SumBounded | backend/gemini_summarizer.py:122 | a sum lies between n times any lower bound and n times any upper bound of its entries |
| Aggregation.AverageBetween | backend/gemini_summarizer.py:122 | the average lies between any lower and upper bound of the values |
| Aggregation.Column | backend/model_loader.py:160-161 | column j of the prediction array: one entry per row, the row's j-th value |
| Aggregation.Mean | backend/model_loader.py:161 | `np.mean(axis=0)[j]`: the row count times the mean is the column sum |
| Aggregation.MeanBetween | backend/model_loader.py:161 | each trait's mean lies between any lower and upper bound of the per-comment values, so between their minimum and maximum |
| Aggregation.MeanOfOne | backend/model_loader.py:161 | the mean of a single row is that row |
| Aggregation.MeanOfIdentical | backend/model_loader.py:161 | identical rows average to that row |
| ModelLoader.Zeros | backend/model_loader.py:100 | `np.zeros(n)` has n entries, all zero |
| ModelLoader.DefaultProfile | backend/model_loader.py:178-182 | the fallback profile has exactly the five trait names as keys, each with score 5.0 and percentage 50.0 |
| ModelLoader.ProfileOfMeans | backend/model_loader.py:164-170 | the five trait names in order; each trait's column exists, and its score is `MeanScore`: the rounded column mean, with the unrounded mean times ten, rounded, as the percentage |
| ModelLoader.AverageProfile | backend/model_loader.py:164-170 | the results loop builds that profile |
| ModelLoader.AverageStep | backend/model_loader.py:164-170 | one turn of the results loop extends the computed prefix by the next trait's entry, and after the fifth turn the prefix is the whole profile |
| ModelLoader.ProfileFromRows | backend/model_loader.py:160-182 | on both paths the profile has exactly the five trait names as keys; no rows gives the default |
| ModelLoader.UniformRowsProfile | backend/model_loader.py:153-170 | when every comment yields five values in [lo, hi], the profile is the averaged one and each score lies in [lo, hi] whenever rounding keeps that range |
| ModelLoader.UniformRows | backend/model_loader.py:153-161 | such rows are collected, well shaped, and every column mean lies in [lo, hi] |
| ModelLoader.RoundedMeansBetween | backend/model_loader.py:161-170 | column means in [lo, hi] give scores in [lo, hi] when rounding keeps that range |
| ModelLoader.SingleRowProfile | backend/model_loader.py:153-170 | a single comment's profile is its own prediction, rounded |
| ModelLoader.OneRowProfile | backend/model_loader.py:160-170 | averaging a single row gives that row's entries, rounded, under the five trait names |
| ModelLoader.InterpretationBand | backend/model_loader.py:214-219 | low iff score < 0.4, medium iff 0.4 <= score < 0.7, high iff score >= 0.7 |
| ModelLoader.InterpretationLabel | backend/model_loader.py:186-212 | the table has an entry iff the name is one of the five traits |
| ModelLoader.GetTraitInterpretation | backend/model_loader.py:184-221 | a known trait reads the label of its band; an unknown trait reads "No interpretation available" |
| ModelLoader.LabelsDistinct | backend/model_loader.py:186-212 | for each trait the three labels are distinct, and none is the "No interpretation available" text |
| ModelLoader.InterpretationSeparatesBands | backend/model_loader.py:214-221 | for a known trait two scores read the same iff they fall in the same band, and never read "No interpretation available" |
| ModelLoader.DefaultProfileReadsHigh | backend/model_loader.py:178-221 | the default profile's 5.0 reads as the "high" label for every trait |
| ModelLoader.Big5ModelLoader.constructor | backend/model_loader.py:44-62 | a missing LDA artifact becomes an unfitted five-component model, and a missing vectorizer an unfitted one; the other calls and the Unicode `isalnum` table are kept as given |
| ModelLoader.Big5ModelLoader.GetSentimentFeatures | backend/model_loader.py:75-84 | present iff VADER answers; four entries in the order compound, pos, neg, neu |
| ModelLoader.Big5ModelLoader.GetLdaFeatures | backend/model_loader.py:91-100 | the topic vector when both transforms answer; otherwise `n_components` zeros, or five when the attribute is missing; it never raises |
| ModelLoader.Big5ModelLoader.PosFeaturesOf | backend/model_loader.py:127-143 | one text's POS vector has four entries |
| ModelLoader.Big5ModelLoader.PosFeaturesOfBounded | backend/model_loader.py:127-142 | with a tagger that tags each token once, each ratio lies in [0, 1] and the four sum to at most 1 |
| ModelLoader.Big5ModelLoader.PosFeaturesOfAll | backend/model_loader.py:125-145 | one POS vector per text when no call raises |
| ModelLoader.Big5ModelLoader.ExtractPosFeatures | backend/model_loader.py:120-145 | the loop over texts computes the POS vectors of all texts, or fails at the first raising call |
| ModelLoader.Big5ModelLoader.PreprocessInput | backend/model_loader.py:102-118 | the result is the feature vector of the normalised text |
| ModelLoader.Big5ModelLoader.PosFeaturesOfSingle | backend/model_loader.py:116 | `extract_pos_features([text])[0]` is that text's own POS vector |
| ModelLoader.Big5ModelLoader.FeatureVector | backend/model_loader.py:113-117 | `np.concatenate` of the four segments exists iff the embedding, the sentiment scores and the POS features do (the topic segment never raises) |
| ModelLoader.Big5ModelLoader.FeatureVectorLayout | backend/model_loader.py:113-117 | the vector is embedding ++ [compound, pos, neg, neu] ++ topics ++ POS, its length is the sum of the parts, and no length check is made |
| ModelLoader.Big5ModelLoader.CommentPrediction | backend/model_loader.py:154-156 | a comment's row exists iff its normalised text has a feature vector and the regressor answers on it, and is then the regressor's answer |
| ModelLoader.Big5ModelLoader.Predictions | backend/model_loader.py:150-157 | one prediction row per comment when nothing raises |
| ModelLoader.Big5ModelLoader.PredictionStep | backend/model_loader.py:151-157 | one turn of the per-comment loop: a comment whose features or prediction raise makes the batch fail; otherwise its row is appended |
| ModelLoader.Big5ModelLoader.CollectPredictions | backend/model_loader.py:151-157 | the per-comment loop computes those rows, or fails at the first raising comment |
| ModelLoader.Big5ModelLoader.PredictedProfile | backend/model_loader.py:148-182 | the result always has exactly the five trait names as keys; an empty comment list gives the default |
| ModelLoader.Big5ModelLoader.Predict | backend/model_loader.py:148-182 | `predict` returns that profile |
| ModelLoader.Big5ModelLoader.FailingCommentGivesDefault | backend/model_loader.py:173-182 | one failing comment gives the all-neutral default, never a partial profile |
| Summarizer.GetLevel | backend/gemini_summarizer.py:155-156 | high iff score > 6.5, medium iff 3.5 < score <= 6.5, low iff score <= 3.5; boundaries fall to the lower level |
| Summarizer.InsightLevel | backend/gemini_summarizer.py:244 | "high", "moderate" and "low" at the same thresholds |
| Summarizer.InsightLevelRenamesMedium | backend/gemini_summarizer.py:244 | the insight level is `get_level` with "medium" renamed "moderate" |
| Summarizer.ScoresOf | backend/gemini_summarizer.py:121 | the scores in entry order |
| Summarizer.FirstMaxIndex | backend/gemini_summarizer.py:123 | `max`: an entry no score exceeds, and the first such |
| Summarizer.FirstMinIndex | backend/gemini_summarizer.py:124 | `min`: an entry no score is below, and the first such |
| Summarizer.AverageBetweenExtremes | backend/gemini_summarizer.py:122-124 | the average lies between the minimum and the maximum score |
| Summarizer.StyleBandOf | backend/gemini_summarizer.py:204-206 | the relationship-style bands: > 6, then > 4, then the rest |
| Summarizer.TraitDescription | backend/gemini_summarizer.py:127-153 | the description table has an entry iff the name is one of the five traits |
| Summarizer.NamedScores | backend/gemini_summarizer.py:165-178 | `trait_scores[name]` for each of the five names, in order |
| Summarizer.LevelsOf | backend/gemini_summarizer.py:165-178 | the level of each named score |
| Summarizer.FallbackSummary | backend/gemini_summarizer.py:117-215 | the rule-based summary exists iff the scores are non-empty, include all five traits, and the strongest key is a trait in the description table; otherwise the source raises |
| Summarizer.FallbackSummaryOfCanonical | backend/gemini_summarizer.py:117-161 | a profile keyed by the five names always gets a summary |
| Summarizer.ReportFields | backend/gemini_summarizer.py:121-206 | the report's average, highest, lowest, balance flag, levels and style bands, as computed from the scores |
| Summarizer.FallbackHighest | backend/gemini_summarizer.py:123 | the strongest trait is the first entry with the greatest score; no score exceeds it |
| Summarizer.FallbackLowest | backend/gemini_summarizer.py:124 | the weakest trait is the first entry with the least score; no score is below it |
| Summarizer.FallbackAverage | backend/gemini_summarizer.py:122-161 | the average lies between the weakest and the strongest score; "well-balanced" iff 3 < average < 7 strictly |
| Summarizer.FallbackLevels | backend/gemini_summarizer.py:165-206 | each trait's level follows its own score; the relationship bands follow Agreeableness, Extraversion and Neuroticism, in that order |
| Summarizer.ReportTexts | backend/gemini_summarizer.py:127-206 | each trait's description is the table entry for its level; each relationship line is its first phrase iff that score is above 6 |
| Summarizer.FallbackTraitInsight | backend/gemini_summarizer.py:242-254 | `_get_fallback_trait_insight`: every insight opens with "Your " or "With "; for a known trait the level word comes right after, for any other trait its name does |
| Summarizer.InsightStatesLevel | backend/gemini_summarizer.py:242-254 | `_get_fallback_trait_insight`: every insight mentions the level word; an unknown trait's generic sentence starts "Your " + the trait name |
| Summarizer.KnownInsightStatesLevel | backend/gemini_summarizer.py:244-251 | each known trait's insight mentions its level word |
| Summarizer.GenericInsightStatesLevel | backend/gemini_summarizer.py:244-254 | an unknown trait's insight starts "Your " + the name and mentions both the name and the level word |
| Summarizer.InsightOpening | backend/gemini_summarizer.py:247-251 | a known trait's insight opens with "Your" or "With" followed by the level word |
| Summarizer.OpennessOpening | backend/gemini_summarizer.py:247 | the Openness insight opens "Your " + level |
| Summarizer.ConscientiousnessOpening | backend/gemini_summarizer.py:248 | the Conscientiousness insight opens "With " + level |
| Summarizer.ExtraversionOpening | backend/gemini_summarizer.py:249 | the Extraversion insight opens "Your " + level |
| Summarizer.AgreeablenessOpening | backend/gemini_summarizer.py:250 | the Agreeableness insight opens "Your " + level |
| Summarizer.NeuroticismOpening | backend/gemini_summarizer.py:251 | the Neuroticism insight opens "With " + level |
| Summarizer.GenericInsight | backend/gemini_summarizer.py:254 | an unknown trait gets the generic sentence with its name, formatted score and level |
| Summarizer.GeminiPersonalitySummarizer.constructor | backend/gemini_summarizer.py:46-49 | the configured model, or none when no model could be loaded |
| Summarizer.GeminiPersonalitySummarizer.RuleBased | backend/gemini_summarizer.py:117-215 | the rule-based summary, present iff the fallback report is |
| Summarizer.GeminiPersonalitySummarizer.CreatePersonalitySummary | backend/gemini_summarizer.py:51-115 | the two generated texts when the model answers both prompts; the rule-based summary when the model is missing or a call raises. `generated_at` is "AI-generated" iff the AI path succeeded, and "Rule-based (AI unavailable)" otherwise |
| Summarizer.GeminiPersonalitySummarizer.GetTraitSpecificInsights | backend/gemini_summarizer.py:217-240 | the generated insight when the model answers; the rule-based insight when it is missing or raises |
| Summarizer.GeminiPersonalitySummarizer.NoModelGivesRuleBased | backend/gemini_summarizer.py:60-62 | without a model, a five-trait profile always gets the summary labelled "Rule-based (AI unavailable)" |
| Pipeline.CanonicalProfileIsSummarized | backend/app.py:63-67 | summarising a five-trait profile does not raise |
| Pipeline.CanonicalProfileIsInterpreted | backend/app.py:57-61 | every entry of a five-trait profile gets a real interpretation |
| Pipeline.EveryPredictionIsSummarized | backend/app.py:54-67 | whatever `predict` returns is fully interpreted and summarised without raising |
| PersonalityInput.LeadingJsSpaces | src/components/PersonalityInput.tsx:37 | the count of leading characters that are all JS whitespace, stopping at the first one that is not |
| PersonalityInput.BackOverJsSpaces | src/components/PersonalityInput.tsx:37 | moving an end position back over JS whitespace, not below a bound, passes only whitespace and stops after a non-whitespace character or at the bound |
| PersonalityInput.JsTrim | src/components/PersonalityInput.tsx:37 | `trim()` leaves no JS whitespace at either end; the result is the slice after the leading whitespace, and what lies before and after it is all whitespace |
| PersonalityInput.TrimmedEmptyIffBlank | src/components/PersonalityInput.tsx:37 | `c.trim().length > 0` iff the comment has a character that is not JS whitespace |
| PersonalityInput.Utf16Length | src/components/PersonalityInput.tsx:44 | `.length` counts UTF-16 units: one per character plus one per character outside the Basic Multilingual Plane, so the character count for a BMP-only text and at most twice it |
| PersonalityInput.Filter | src/components/PersonalityInput.tsx:37 | `filter` keeps only entries that pass the test and never grows the list |
| PersonalityInput.KeepNonBlank | src/components/PersonalityInput.tsx:37 | every kept comment is non-blank |
| PersonalityInput.FilterIsSubsequence | src/components/PersonalityInput.tsx:37 | the kept entries keep their original order: a subsequence of the list |
| PersonalityInput.FilterCounts | src/components/PersonalityInput.tsx:37 | each passing entry is kept as many times as it occurs, and no other entry is kept |
| PersonalityInput.FilterEmptyIff | src/components/PersonalityInput.tsx:37-39 | nothing is kept iff no entry passes |
| PersonalityInput.KeepNonBlankIsFilter | src/components/PersonalityInput.tsx:37 | in original order, exactly the non-blank comments with their multiplicities, and no blank one |
| PersonalityInput.Submit | src/components/PersonalityInput.tsx:36-50 | rejected with "Please enter at least one comment" iff nothing is kept; rejected with "Each comment should be at least 10 characters" iff a kept comment is shorter than 10; otherwise, and exactly then, the kept list is submitted |
| PersonalityInput.SubmittedBatch | src/components/PersonalityInput.tsx:36-50 | a submitted batch is non-empty, no longer than the state, a subsequence of it, and each comment is non-blank with length >= 10 |
| PersonalityInput.NothingKeptIffAllBlank | src/components/PersonalityInput.tsx:37-39 | the filter keeps nothing iff every comment is blank |
| PersonalityInput.NoCommentsIffAllBlank | src/components/PersonalityInput.tsx:37-42 | the "Please enter at least one comment" toast appears iff every comment is blank |
| PersonalityInput.WithoutIndex | src/components/PersonalityInput.tsx:26 | `filter((_, i) => i !== index)` is one entry shorter for an index inside the list and as long otherwise, and keeps only entries of the list |
| PersonalityInput.WithoutIndexRemovesOne | src/components/PersonalityInput.tsx:26 | filtering by index removes exactly the entry at the index and keeps the rest in order; an index outside the list removes nothing |
| PersonalityInput.CommentEditor.constructor | src/components/PersonalityInput.tsx:14 | the initial state is one empty comment |
| PersonalityInput.CommentEditor.AddComment | src/components/PersonalityInput.tsx:16-22 | appends `""` below 10 entries; otherwise the list is unchanged and the "Maximum 10 comments allowed" toast is shown; the 1..10 bound is kept |
| PersonalityInput.CommentEditor.RemoveComment | src/components/PersonalityInput.tsx:24-28 | with more than one entry, removes exactly the entry at the index and keeps the others in order; otherwise unchanged; the 1..10 bound is kept |
| PersonalityInput.CommentEditor.UpdateComment | src/components/PersonalityInput.tsx:30-34 | replaces only the entry at the index; the length and every other entry are unchanged |
| PersonalityInput.CommentEditor.HandleSubmit | src/components/PersonalityInput.tsx:36-50 | from a valid state a submitted batch has between 1 and 10 comments |

## Left out

- Machine-learning libraries (`backend/model_loader.py:26-62, 77, 88, 94-95, 129-132, 156`). SentenceTransformer, VADER, CountVectorizer and LDA, NLTK `word_tokenize`/`pos_tag`, and the XGBoost or pickled regressor are functions passed in and never interpreted. The choice between a JSON booster and a pickled model (lines 26-42) is therefore not modelled. A raising call is `None`.
- Floating point: `round(x, 2)`, numpy's summation order and precision, and f-string float formatting are function parameters or `real` arithmetic.
- Gemini network code (`backend/gemini_summarizer.py:12-49, 64-105, 223-236`). The API-key check, the model-probing loop of `__init__` and the prompt wording are not modelled. The loop's outcome is the constructor's optional model. Each prompt is a `Prompt` value, and a generation call that raises is `None`.
- Markdown layout of the rule-based summary (`backend/gemini_summarizer.py:159-209`). `FallbackReport` keeps every decision the text is built from: average, strongest and weakest trait, balance flag, levels and relationship bands. Its member functions give the interpolated pieces: balance word, descriptions, lower-cased career focus and relationship phrases. The surrounding fixed sentences and `scores_text` are not modelled.
- HTTP layer (`backend/app.py`): routes, CORS and schemas. Only the composition of `predict`, `get_trait_interpretation` and `create_personality_summary` is modelled, in `Pipeline`.
- The offline script `backend/fix_lda_vectorizer_final.py` (artifact training and I/O), and frontend rendering, navigation and fetch (`src/pages/*.tsx`, `PersonalityResults.tsx`, and the JSX of `PersonalityInput.tsx`).
- Console output and tracebacks (`print`, `traceback.print_exc`), and toasts beyond their message text.
- React's asynchronous `setComments` batching: each editor method sees the state the previous one left.
- TextNormalizer.Lower: lower-cases ASCII only. Python's `str.lower` also maps a few non-ASCII characters to ASCII letters (the Kelvin sign to `k`, `İ` to `i` plus a combining dot), and those letters then survive the ASCII filter.
- The Unicode character database: outside ASCII, `\w` accepts what Python's `str.isalnum` accepts, given to the model as the `isAlnum` parameter of `TextNormalizer` and a constant of the loader.
- TextNormalizer.StripDigits: deletes ASCII digits only. Non-ASCII digits are dropped by the next step, so the normalised text is the same.
- Summarizer.FallbackSummary: a profile with a repeated key has no Python counterpart, since a dict has unique keys. Every profile `predict` returns has unique keys (`Traits.CanonicalKeysUnique`).
- PersonalityInput.CommentEditor.UpdateComment: requires an index inside the list. The component only passes indices of rendered entries, and JavaScript's growth of the array on an outside index is not modelled.
- ModelLoader.Big5ModelLoader.PosFeaturesOf: states only the length of the vector. Its values are given by `PosFeatures.PosRatios` and the lemmas about it, because the token list comes from the uninterpreted tokenizer; `PosFeaturesOfBounded` bounds them for a tagger that tags each token once.
