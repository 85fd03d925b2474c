/**
 * `Big5ModelLoader`: per-comment feature assembly, the regressor call, the
 * averaging into a profile with its all-neutral fallback, and the score
 * interpretation.
 *
 * Every machine-learning library call is a constant function-typed field of
 * the loader, fixed by the constructor and never changed. A call that may
 * raise returns an Option, `None` standing for the exception.
 */
module ModelLoader {

  import opened Wrappers
  import opened Traits
  import opened TextNormalizer
  import opened PosFeatures
  import opened Aggregation

  /** VADER's `polarity_scores` result. */
  datatype SentimentScores = SentimentScores(compound: real, pos: real, neg: real, neu: real)

  /** A topic model: its `n_components` attribute, when it has one, and its
      `transform` on a bag-of-words count vector. */
  datatype TopicModel = TopicModel(nComponents: Option<nat>, transform: seq<nat> -> Option<seq<real>>)

  /** The topic model the loader creates when no artifact is found:
      five components and never fitted, so every transform raises. */
  const UnfittedTopicModel: TopicModel := TopicModel(Some(5), (counts: seq<nat>) => None)

  /** The default vectorizer, never fitted: every transform raises. */
  const UnfittedVectorizer: string -> Option<seq<nat>> := (text: string) => None

  /** All-zero vector of length `n` (`np.zeros(n)`). */
  function Zeros(n: nat): (z: seq<real>)
    ensures |z| == n && forall i :: 0 <= i < n ==> z[i] == 0.0
  {
    seq(n, i => 0.0)
  }

  /** The profile returned when anything in the pipeline raises. */
  function DefaultProfile(): (p: Profile)
    ensures HasCanonicalKeys(p)
    ensures forall i :: 0 <= i < |p| ==> p[i].1 == TraitScore(5.0, 50.0)
  {
    seq(|TraitNames|, i requires 0 <= i < |TraitNames| => (TraitNames[i], TraitScore(5.0, 50.0)))
  }

  /** The profile built from well-shaped per-comment rows: each trait's score is
      the rounded column mean and its percentage the rounded mean times ten. */
  function ProfileOfMeans(rows: seq<seq<real>>, round2: real -> real): (p: Profile)
    requires WellShaped(rows)
    ensures HasCanonicalKeys(p)
    ensures forall i :: 0 <= i < |TraitNames| ==> HasColumn(rows, i) && p[i].1 == MeanScore(rows, i, round2)
  {
    seq(|TraitNames|, i requires 0 <= i < |TraitNames| =>
      assert HasColumn(rows, i);
      (TraitNames[i], MeanScore(rows, i, round2)))
  }

  /** The score of trait column `j`: the rounded mean, and the rounded mean
      times ten as its percentage. */
  function MeanScore(rows: seq<seq<real>>, j: nat, round2: real -> real): TraitScore
    requires |rows| > 0 && HasColumn(rows, j)
  {
    var m := Mean(rows, j);
    TraitScore(round2(m), round2(m * 10.0))
  }

  /** The averaging loop of `predict`: for each trait in order, the column
      mean, rounded, and the rounded mean times ten. */
  method AverageProfile(rows: seq<seq<real>>, round2: real -> real) returns (results: Profile)
    requires WellShaped(rows)
    ensures results == ProfileOfMeans(rows, round2)
  {
    results := [];
    var i := 0;
    while i < |TraitNames|
      invariant 0 <= i <= |TraitNames|
      invariant results == ProfileOfMeans(rows, round2)[..i]
    {
      AverageStep(rows, round2, i, results);
      var score := Mean(rows, i);
      results := results + [(TraitNames[i], TraitScore(round2(score), round2(score * 10.0)))];
      i := i + 1;
    }
  }

  /** One turn of the averaging loop extends the computed prefix of the
      profile by its next entry; after the last turn it is the whole profile. */
  lemma AverageStep(rows: seq<seq<real>>, round2: real -> real, i: nat, results: Profile)
    requires WellShaped(rows) && i < |TraitNames|
    requires results == ProfileOfMeans(rows, round2)[..i]
    ensures HasColumn(rows, i)
    ensures results + [(TraitNames[i], TraitScore(round2(Mean(rows, i)), round2(Mean(rows, i) * 10.0)))]
      == ProfileOfMeans(rows, round2)[..i + 1]
    ensures i + 1 == |TraitNames| ==> ProfileOfMeans(rows, round2)[..i + 1] == ProfileOfMeans(rows, round2)
  {
    var expected := ProfileOfMeans(rows, round2);
    assert expected[..i + 1] == expected[..i] + [expected[i]];
  }

  /** The averaged profile of the collected rows, or the all-neutral default
      when collecting raised, or the rows are ragged, too short or absent. */
  function ProfileFromRows(rows: Option<seq<seq<real>>>, round2: real -> real): (p: Profile)
    ensures HasCanonicalKeys(p)
    ensures rows == Some([]) ==> p == DefaultProfile()
  {
    match rows
    case Some(rs) => if WellShaped(rs) then ProfileOfMeans(rs, round2) else DefaultProfile()
    case None => DefaultProfile()
  }

  /** Rows of five entries within [lo, hi], collected from a non-empty batch,
      give the averaged profile, whose scores lie in [lo, hi] when rounding
      keeps that range. */
  lemma UniformRowsProfile<A>(f: A -> Option<seq<real>>, xs: seq<A>, round2: real -> real, lo: real, hi: real)
    requires |xs| > 0
    requires forall k :: 0 <= k < |xs| ==> f(xs[k]).Some? && |f(xs[k]).value| == 5
    requires forall k, j :: 0 <= k < |xs| && 0 <= j < 5 ==> lo <= f(xs[k]).value[j] <= hi
    requires forall x :: lo <= x <= hi ==> lo <= round2(x) <= hi
    ensures CollectAll(f, xs).Some? && WellShaped(CollectAll(f, xs).value)
    ensures ProfileFromRows(CollectAll(f, xs), round2) == ProfileOfMeans(CollectAll(f, xs).value, round2)
    ensures forall j :: 0 <= j < 5 ==> lo <= ProfileFromRows(CollectAll(f, xs), round2)[j].1.score <= hi
  {
    UniformRows(f, xs, lo, hi);
    RoundedMeansBetween(CollectAll(f, xs).value, round2, lo, hi);
  }

  /** Rows of five entries within [lo, hi] collected from a non-empty batch
      are well shaped and every column mean lies in [lo, hi]. */
  lemma UniformRows<A>(f: A -> Option<seq<real>>, xs: seq<A>, lo: real, hi: real)
    requires |xs| > 0
    requires forall k :: 0 <= k < |xs| ==> f(xs[k]).Some? && |f(xs[k]).value| == 5
    requires forall k, j :: 0 <= k < |xs| && 0 <= j < 5 ==> lo <= f(xs[k]).value[j] <= hi
    ensures CollectAll(f, xs).Some? && WellShaped(CollectAll(f, xs).value)
    ensures forall j :: 0 <= j < 5 ==>
      HasColumn(CollectAll(f, xs).value, j) && lo <= Mean(CollectAll(f, xs).value, j) <= hi
  {
    CollectAllPointwise(f, xs);
    var rows := CollectAll(f, xs).value;
    forall j | 0 <= j < 5 ensures lo <= Mean(rows, j) <= hi {
      MeanBetween(rows, j, lo, hi);
    }
  }

  /** Column means within [lo, hi] give scores within [lo, hi] when rounding
      keeps that range. */
  lemma RoundedMeansBetween(rows: seq<seq<real>>, round2: real -> real, lo: real, hi: real)
    requires WellShaped(rows)
    requires forall j :: 0 <= j < 5 ==> HasColumn(rows, j) && lo <= Mean(rows, j) <= hi
    requires forall x :: lo <= x <= hi ==> lo <= round2(x) <= hi
    ensures forall j :: 0 <= j < 5 ==> lo <= ProfileOfMeans(rows, round2)[j].1.score <= hi
  {
    var p := ProfileOfMeans(rows, round2);
    forall j | 0 <= j < 5 ensures lo <= p[j].1.score <= hi {
      assert j < |TraitNames|;
    }
  }

  /** The profile of a single row is that row, rounded. */
  lemma SingleRowProfile<A>(f: A -> Option<seq<real>>, x: A, round2: real -> real)
    requires f(x).Some? && |f(x).value| >= 5
    ensures var row := f(x).value;
      forall j :: 0 <= j < 5 ==>
        ProfileFromRows(CollectAll(f, [x]), round2)[j] == (TraitNames[j], TraitScore(round2(row[j]), round2(row[j] * 10.0)))
  {
    CollectAllPointwise(f, [x]);
    assert CollectAll(f, [x]).value == [f(x).value];
    OneRowProfile(f(x).value, round2);
  }

  /** A single row's averaged profile is that row, rounded. */
  lemma OneRowProfile(row: seq<real>, round2: real -> real)
    requires |row| >= 5
    ensures WellShaped([row])
    ensures forall j :: 0 <= j < 5 ==>
      ProfileOfMeans([row], round2)[j] == (TraitNames[j], TraitScore(round2(row[j]), round2(row[j] * 10.0)))
  {
    var p := ProfileOfMeans([row], round2);
    forall j | 0 <= j < 5
      ensures p[j] == (TraitNames[j], TraitScore(round2(row[j]), round2(row[j] * 10.0)))
    {
      assert j < |TraitNames|;
      MeanOfOne([row], j);
    }
  }

  /** The three interpretation bands. */
  datatype Band = Low | Medium | High

  /** Band of a score: below 0.4 low, below 0.7 medium, otherwise high. The
      thresholds are those of a 0-1 scale and are applied unchanged to the
      0-10 scores that `predict` produces. */
  function InterpretationBand(score: real): (b: Band)
    ensures b == Low <==> score < 0.4
    ensures b == Medium <==> 0.4 <= score < 0.7
    ensures b == High <==> 0.7 <= score
  {
    if score < 0.4 then Low else if score < 0.7 then Medium else High
  }

  /** The hand-written label of each trait in each band; None for any other name. */
  function InterpretationLabel(traitName: string, band: Band): (r: Option<string>)
    ensures r.Some? <==> IsTrait(traitName)
  {
    match traitName
    case "Openness" =>
      Some(match band
        case Low => "Prefers routine and familiar experiences"
        case Medium => "Balanced approach to new experiences"
        case High => "Very open to new ideas and experiences")
    case "Conscientiousness" =>
      Some(match band
        case Low => "Spontaneous and flexible"
        case Medium => "Moderately organized and reliable"
        case High => "Highly organized and disciplined")
    case "Extraversion" =>
      Some(match band
        case Low => "Reserved and introspective"
        case Medium => "Balanced social engagement"
        case High => "Outgoing and energetic")
    case "Agreeableness" =>
      Some(match band
        case Low => "Direct and competitive"
        case Medium => "Cooperative when needed"
        case High => "Warm and compassionate")
    case "Neuroticism" =>
      Some(match band
        case Low => "Emotionally stable and calm"
        case Medium => "Moderate emotional sensitivity"
        case High => "Emotionally reactive and sensitive")
    case _ => None
  }

  /** The fallback for a name outside the table. */
  const NoInterpretation: string := "No interpretation available"

  /** `get_trait_interpretation`: the trait's label for the score's band, or
      the fallback text for an unknown trait. */
  function GetTraitInterpretation(traitName: string, score: real): (r: string)
    ensures IsTrait(traitName) ==> r == InterpretationLabel(traitName, InterpretationBand(score)).value
    ensures !IsTrait(traitName) ==> r == NoInterpretation
  {
    match InterpretationLabel(traitName, InterpretationBand(score))
    case Some(text) => text
    case None => NoInterpretation
  }

  /** Within one trait the three labels differ from each other and from the
      fallback text. */
  lemma LabelsDistinct(traitName: string, b1: Band, b2: Band)
    requires IsTrait(traitName)
    ensures InterpretationLabel(traitName, b1) == InterpretationLabel(traitName, b2) <==> b1 == b2
    ensures InterpretationLabel(traitName, b1).value != NoInterpretation
  {
    var l1 := InterpretationLabel(traitName, b1).value;
    var l2 := InterpretationLabel(traitName, b2).value;
    LabelShape(traitName, b1);
    LabelShape(traitName, b2);
    assert l1[0] != NoInterpretation[0];
    if b1 != b2 {
      assert LabelKey(traitName, b1) != LabelKey(traitName, b2);
    }
  }

  /** Where the labels of a trait first differ: the first character, except
      for the two Neuroticism labels that both begin "Emotionally ". */
  function LabelKey(traitName: string, band: Band): char
    requires IsTrait(traitName)
  {
    if traitName == "Neuroticism" && band != Medium then 
      match band
      case Low => 's'
      case _ => 'r'
    else
      match traitName
      case "Openness" => (match band case Low => 'P' case Medium => 'B' case High => 'V')
      case "Conscientiousness" => (match band case Low => 'S' case Medium => 'M' case High => 'H')
      case "Extraversion" => (match band case Low => 'R' case Medium => 'B' case High => 'O')
      case "Agreeableness" => (match band case Low => 'D' case Medium => 'C' case High => 'W')
      case _ => 'M'
  }

  /** Every label is longer than twelve characters, does not begin like the
      fallback text, and carries its key where `LabelKey` says. */
  lemma LabelShape(traitName: string, band: Band)
    requires IsTrait(traitName)
    ensures LabelShaped(traitName, band)
  {
    if traitName == "Openness" {
      OpennessShape(band);
    } else if traitName == "Conscientiousness" {
      ConscientiousnessShape(band);
    } else if traitName == "Extraversion" {
      ExtraversionShape(band);
    } else if traitName == "Agreeableness" {
      AgreeablenessShape(band);
    } else {
      NeuroticismShape(band);
    }
  }

  /** The label is longer than twelve characters, does not begin with 'N',
      and has its key at position 12 (the two "Emotionally" Neuroticism
      labels) or at position 0 (every other label). */
  predicate LabelShaped(traitName: string, band: Band)
    requires IsTrait(traitName)
  {
    var text := InterpretationLabel(traitName, band).value;
    && |text| > 12
    && text[0] != 'N'
    && LabelKey(traitName, band) == if traitName == "Neuroticism" && band != Medium then text[12] else text[0]
  }

  /** The shape of each trait's labels, one trait at a time. */
  lemma OpennessShape(band: Band)
    ensures LabelShaped("Openness", band)
  {
  }

  lemma ConscientiousnessShape(band: Band)
    ensures LabelShaped("Conscientiousness", band)
  {
  }

  lemma ExtraversionShape(band: Band)
    ensures LabelShaped("Extraversion", band)
  {
  }

  lemma AgreeablenessShape(band: Band)
    ensures LabelShaped("Agreeableness", band)
  {
  }

  lemma NeuroticismShape(band: Band)
    ensures LabelShaped("Neuroticism", band)
  {
  }

  /** For a known trait, two scores are described alike exactly when they fall
      in the same band, and never by the fallback text. */
  lemma InterpretationSeparatesBands(traitName: string, x: real, y: real)
    requires IsTrait(traitName)
    ensures GetTraitInterpretation(traitName, x) == GetTraitInterpretation(traitName, y)
            <==> InterpretationBand(x) == InterpretationBand(y)
    ensures GetTraitInterpretation(traitName, x) != NoInterpretation
  {
    LabelsDistinct(traitName, InterpretationBand(x), InterpretationBand(y));
  }

  /** On the 0-10 scale every score from 0.7 up reads as high; in particular
      the all-neutral default profile reads as high for every trait. */
  lemma DefaultProfileReadsHigh()
    ensures forall i :: 0 <= i < |TraitNames| ==>
      GetTraitInterpretation(DefaultProfile()[i].0, DefaultProfile()[i].1.score)
        == InterpretationLabel(TraitNames[i], High).value
  {
  }

  class Big5ModelLoader {

    /** `self.model.predict(features)[0]`: the booster or pickled regressor. */
    const regress: seq<real> -> Option<seq<real>>
    /** `self.embedding_model.encode([text])[0]`. */
    const embed: string -> Option<seq<real>>
    /** `self.sentiment_analyzer.polarity_scores(text)`. */
    const polarityScores: string -> Option<SentimentScores>
    /** `self.vectorizer.transform([text])`. */
    const vectorize: string -> Option<seq<nat>>
    /** `self.lda`. */
    const lda: TopicModel
    /** NLTK `word_tokenize`. */
    const tokenize: string -> Option<seq<string>>
    /** NLTK `pos_tag`. */
    const posTag: seq<string> -> Option<seq<(string, string)>>
    /** Python's `str.isalnum` on non-ASCII characters: the Unicode character
        database that the `\w` of the mention and hashtag patterns consults. */
    const isAlnum: char -> bool

    /** Loads the artifacts; a missing topic model or vectorizer is replaced by
        an unfitted default. */
    constructor (regress: seq<real> -> Option<seq<real>>,
                 embed: string -> Option<seq<real>>,
                 polarityScores: string -> Option<SentimentScores>,
                 vectorizerArtifact: Option<string -> Option<seq<nat>>>,
                 ldaArtifact: Option<TopicModel>,
                 tokenize: string -> Option<seq<string>>,
                 posTag: seq<string> -> Option<seq<(string, string)>>,
                 isAlnum: char -> bool)
      ensures this.regress == regress && this.embed == embed
      ensures this.polarityScores == polarityScores
      ensures this.tokenize == tokenize && this.posTag == posTag && this.isAlnum == isAlnum
      ensures this.lda == ldaArtifact.GetOr(UnfittedTopicModel)
      ensures this.vectorize == vectorizerArtifact.GetOr(UnfittedVectorizer)
    {
      this.regress := regress;
      this.embed := embed;
      this.polarityScores := polarityScores;
      this.lda := ldaArtifact.GetOr(UnfittedTopicModel);
      this.vectorize := vectorizerArtifact.GetOr(UnfittedVectorizer);
      this.tokenize := tokenize;
      this.posTag := posTag;
      this.isAlnum := isAlnum;
    }

    /** The sentiment segment, in the order compound, pos, neg, neu. */
    function GetSentimentFeatures(text: string): (r: Option<seq<real>>)
      ensures r.Some? <==> polarityScores(text).Some?
      ensures r.Some? ==>
        var s := polarityScores(text).value;
        |r.value| == 4 && r.value[0] == s.compound && r.value[1] == s.pos
        && r.value[2] == s.neg && r.value[3] == s.neu
    {
      match polarityScores(text)
      case None => None
      case Some(s) => Some([s.compound, s.pos, s.neg, s.neu])
    }

    /** The topic segment. Never raises: when the vectorizer or the topic model
        raises, the result is `n_components` zeros (5 when the attribute is
        missing). */
    function GetLdaFeatures(text: string): (r: seq<real>)
      ensures vectorize(text).None? ==> r == Zeros(lda.nComponents.GetOr(5))
      ensures vectorize(text).Some? && lda.transform(vectorize(text).value).None? ==>
        r == Zeros(lda.nComponents.GetOr(5))
      ensures vectorize(text).Some? && lda.transform(vectorize(text).value).Some? ==>
        r == lda.transform(vectorize(text).value).value
    {
      var fallback := Zeros(lda.nComponents.GetOr(5));
      match vectorize(text)
      case None => fallback
      case Some(counts) =>
        match lda.transform(counts)
        case None => fallback
        case Some(v) => v
    }

    /** The POS segment of one text, as `extract_pos_features` computes it. */
    function PosFeaturesOf(text: string): (r: Option<seq<real>>)
      ensures r.Some? ==> |r.value| == |PosTagsOfInterest|
    {
      match tokenize(Lower(text))
      case None => None
      case Some(tokens) =>
        match posTag(tokens)
        case None => None
        case Some(tagged) => Some(PosRatios(|tokens|, tagged))
    }

    /** With a tagger that returns one pair per token, each of the four POS
        ratios of a text lies in [0, 1] and together they sum to at most 1. */
    lemma PosFeaturesOfBounded(text: string)
      requires forall tokens :: posTag(tokens).Some? ==> |posTag(tokens).value| == |tokens|
      ensures PosFeaturesOf(text).Some? ==>
        var v := PosFeaturesOf(text).value;
        && (forall k :: 0 <= k < 4 ==> 0.0 <= v[k] <= 1.0)
        && v[0] + v[1] + v[2] + v[3] <= 1.0
    {
      match tokenize(Lower(text))
      case None =>
      case Some(tokens) =>
        match posTag(tokens)
        case None =>
        case Some(tagged) => PosRatiosBounded(|tokens|, tagged);
    }

    /** The POS vectors of `texts`, or None when any tokenisation or tagging raises. */
    function PosFeaturesOfAll(texts: seq<string>): (r: Option<seq<seq<real>>>)
      ensures r.Some? ==> |r.value| == |texts|
    {
      CollectAll(PosFeaturesOf, texts)
    }

    /** `extract_pos_features`: tokenise and tag each lower-cased text in turn
        and turn its tags into the four ratios. */
    method ExtractPosFeatures(texts: seq<string>) returns (posFeatures: Option<seq<seq<real>>>)
      ensures posFeatures == PosFeaturesOfAll(texts)
    {
      var acc: seq<seq<real>> := [];
      var i := 0;
      while i < |texts|
        invariant 0 <= i <= |texts|
        invariant PosFeaturesOfAll(texts[..i]) == Some(acc)
      {
        assert texts[..i + 1][..i] == texts[..i];
        var tokens := tokenize(Lower(texts[i]));
        if tokens.None? {
          CollectAllFails(PosFeaturesOf, texts, i + 1);
          return None;
        }
        var tags := posTag(tokens.value);
        if tags.None? {
          CollectAllFails(PosFeaturesOf, texts, i + 1);
          return None;
        }
        var posVec := PosVector(|tokens.value|, tags.value);
        acc := acc + [posVec];
        i := i + 1;
      }
      assert texts[..i] == texts;
      posFeatures := Some(acc);
    }

    /** The fused vector for a normalised text: embedding ++ sentiment ++ topics
        ++ POS, with no length check; None when a segment's call raises. */
    function FeatureVector(text: string): (r: Option<seq<real>>)
      ensures r.Some? <==> embed(text).Some? && polarityScores(text).Some? && PosFeaturesOf(text).Some?
    {
      match embed(text)
      case None => None
      case Some(embedding) =>
        match GetSentimentFeatures(text)
        case None => None
        case Some(sentiment) =>
          match PosFeaturesOf(text)
          case None => None
          case Some(pos) => Some(embedding + sentiment + GetLdaFeatures(text) + pos)
    }

    /** `preprocess_input`: the normalising rewrites, in order, then the four
        segments concatenated. */
    method PreprocessInput(raw: string) returns (features: Option<seq<real>>)
      ensures features == FeatureVector(Normalize(raw, isAlnum))
    {
      var text := NormalizeText(raw, isAlnum);
      var embeddings := embed(text);
      var sentiment := GetSentimentFeatures(text);
      var topics := GetLdaFeatures(text);
      var pos := ExtractPosFeatures([text]);
      PosFeaturesOfSingle(text);
      if embeddings.None? || sentiment.None? || pos.None? {
        return None;
      }
      features := Some(embeddings.value + sentiment.value + topics + pos.value[0]);
    }

    /** One comment's prediction row: its feature vector handed to the regressor. */
    function CommentPrediction(comment: string): (r: Option<seq<real>>)
      ensures var features := FeatureVector(Normalize(comment, isAlnum));
        r.Some? <==> features.Some? && regress(features.value).Some?
      ensures r.Some? ==> r == regress(FeatureVector(Normalize(comment, isAlnum)).value)
    {
      match FeatureVector(Normalize(comment, isAlnum))
      case None => None
      case Some(features) => regress(features)
    }

    /** The per-comment rows, or None when any comment's pipeline raises. */
    function Predictions(comments: seq<string>): (r: Option<seq<seq<real>>>)
      ensures r.Some? ==> |r.value| == |comments|
    {
      CollectAll(CommentPrediction, comments)
    }

    /** What `predict` returns. */
    function PredictedProfile(comments: seq<string>, round2: real -> real): (p: Profile)
      ensures HasCanonicalKeys(p)
      ensures comments == [] ==> p == DefaultProfile()
    {
      ProfileFromRows(Predictions(comments), round2)
    }

    /** The per-comment loop of `predict`: preprocess each comment, hand its
        vector to the regressor and keep the first row of the result. */
    method CollectPredictions(comments: seq<string>) returns (rows: Option<seq<seq<real>>>)
      ensures rows == Predictions(comments)
    {
      var perPostPredictions: seq<seq<real>> := [];
      var k := 0;
      while k < |comments|
        invariant 0 <= k <= |comments|
        invariant Predictions(comments[..k]) == Some(perPostPredictions)
      {
        var features := PreprocessInput(comments[k]);
        if features.None? {
          PredictionStep(comments, k, perPostPredictions, features, None);
          return None;
        }
        var prediction := regress(features.value);
        PredictionStep(comments, k, perPostPredictions, features, prediction);
        if prediction.None? {
          return None;
        }
        perPostPredictions := perPostPredictions + [prediction.value];
        k := k + 1;
      }
      assert comments[..k] == comments;
      rows := Some(perPostPredictions);
    }

    /** One turn of the per-comment loop: a comment whose vector or
        regressor call raises makes the whole batch fail; otherwise its row
        is appended. */
    lemma PredictionStep(comments: seq<string>, k: nat, acc: seq<seq<real>>,
                         features: Option<seq<real>>, prediction: Option<seq<real>>)
      requires k < |comments| && Predictions(comments[..k]) == Some(acc)
      requires features == FeatureVector(Normalize(comments[k], isAlnum))
      requires features.Some? ==> prediction == regress(features.value)
      ensures features.None? || prediction.None? ==> Predictions(comments).None?
      ensures features.Some? && prediction.Some? ==>
        Predictions(comments[..k + 1]) == Some(acc + [prediction.value])
    {
      assert CommentPrediction(comments[k]) == (if features.None? then None else prediction);
      CollectAllStep(CommentPrediction, comments, k, acc);
      if features.None? || prediction.None? {
        CollectAllFails(CommentPrediction, comments, k + 1);
      }
    }

    /** `predict`: the per-comment rows averaged per trait, or the all-neutral
        default when anything raises. */
    method Predict(comments: seq<string>, round2: real -> real) returns (results: Profile)
      ensures results == PredictedProfile(comments, round2)
    {
      var rows := CollectPredictions(comments);
      if rows.None? || !WellShaped(rows.value) {
        return DefaultProfile();
      }
      results := AverageProfile(rows.value, round2);
    }

    /** The POS segment of a single text is that text's POS vector. */
    lemma PosFeaturesOfSingle(text: string)
      ensures PosFeaturesOfAll([text]).Some? <==> PosFeaturesOf(text).Some?
      ensures PosFeaturesOf(text).Some? ==> PosFeaturesOfAll([text]).value == [PosFeaturesOf(text).value]
    {
      CollectAllPointwise(PosFeaturesOf, [text]);
    }

    /** The feature vector is embedding ++ sentiment ++ topics ++ POS, in that
        order and with no length check. */
    lemma FeatureVectorLayout(text: string)
      ensures FeatureVector(text).Some? ==>
        var r := FeatureVector(text).value;
        var e := embed(text).value;
        var t := GetLdaFeatures(text);
        && |r| == |e| + 4 + |t| + 4
        && r[..|e|] == e
        && r[|e|..|e| + 4] == GetSentimentFeatures(text).value
        && r[|e| + 4..|e| + 4 + |t|] == t
        && r[|e| + 4 + |t|..] == PosFeaturesOf(text).value
    {
    }

    /** One failing comment makes `predict` return the all-neutral default:
        never a partial profile. */
    lemma FailingCommentGivesDefault(comments: seq<string>, round2: real -> real, i: nat)
      requires i < |comments| && CommentPrediction(comments[i]).None?
      ensures PredictedProfile(comments, round2) == DefaultProfile()
    {
      CollectAllPointwise(CommentPrediction, comments);
    }
  }
}
