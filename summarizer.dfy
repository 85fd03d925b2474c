/**
 * `GeminiPersonalitySummarizer`: the rule-based summary used whenever the
 * generative model is missing or its call raises, the per-trait insight with
 * the same fallback, and the dispatch between the two.
 *
 * The scores dict is a `Profile` (insertion-ordered entries); a lookup by
 * name takes the entry stored under that name. The summary text itself is
 * Markdown assembled from the fields of `FallbackReport`; the report keeps
 * those fields rather than the formatted text.
 */
module Summarizer {

  import opened Wrappers
  import opened Traits
  import opened Aggregation
  import TextNormalizer

  /** The three levels of the rule-based summary. */
  datatype Level = Low | Medium | High {
    /** The key `get_level` returns for this level. */
    function Word(): string {
      match this
      case Low => "low"
      case Medium => "medium"
      case High => "high"
    }
  }

  /** `get_level`: above 6.5 high, above 3.5 medium, otherwise low; a score on
      a boundary falls to the lower band. */
  function GetLevel(score: real): (level: Level)
    ensures level == High <==> score > 6.5
    ensures level == Medium <==> 3.5 < score <= 6.5
    ensures level == Low <==> score <= 3.5
  {
    if score > 6.5 then High else if score > 3.5 then Medium else Low
  }

  /** The level word of the per-trait insight: the thresholds of `get_level`,
      with "moderate" for the middle band. */
  function InsightLevel(score: real): (level: string)
    ensures level == "high" <==> score > 6.5
    ensures level == "moderate" <==> 3.5 < score <= 6.5
    ensures level == "low" <==> score <= 3.5
  {
    if score > 6.5 then "high" else if score > 3.5 then "moderate" else "low"
  }

  /** The insight level is `get_level` with its middle band renamed. */
  lemma InsightLevelRenamesMedium(score: real)
    ensures InsightLevel(score) == if GetLevel(score) == Medium then "moderate" else GetLevel(score).Word()
  {
  }

  /** The scores of the entries, in dict order. */
  function ScoresOf(scores: Profile): (values: seq<real>)
    ensures |values| == |scores|
    ensures forall i :: 0 <= i < |scores| ==> values[i] == scores[i].1.score
  {
    seq(|scores|, i requires 0 <= i < |scores| => scores[i].1.score)
  }

  /** `max` over the entries by score: the first index holding the greatest
      value (a later equal value does not replace it). */
  function FirstMaxIndex(values: seq<real>): (i: nat)
    requires |values| > 0
    ensures i < |values|
    ensures forall j :: 0 <= j < |values| ==> values[j] <= values[i]
    ensures forall j :: 0 <= j < i ==> values[j] < values[i]
  {
    if |values| == 1 then 0
    else
      var k := FirstMaxIndex(values[..|values| - 1]);
      if values[|values| - 1] > values[k] then |values| - 1 else k
  }

  /** `min` over the entries by score: the first index holding the least value. */
  function FirstMinIndex(values: seq<real>): (i: nat)
    requires |values| > 0
    ensures i < |values|
    ensures forall j :: 0 <= j < |values| ==> values[i] <= values[j]
    ensures forall j :: 0 <= j < i ==> values[i] < values[j]
  {
    if |values| == 1 then 0
    else
      var k := FirstMinIndex(values[..|values| - 1]);
      if values[|values| - 1] < values[k] then |values| - 1 else k
  }

  /** The average lies between the lowest and the highest score. */
  lemma AverageBetweenExtremes(values: seq<real>)
    requires |values| > 0
    ensures values[FirstMinIndex(values)] <= Average(values) <= values[FirstMaxIndex(values)]
  {
    var lo := values[FirstMinIndex(values)];
    var hi := values[FirstMaxIndex(values)];
    AverageBetween(values, lo, hi);
  }

  /** The three bands of the relationship-style lines: above 6, above 4, otherwise. */
  datatype StyleBand = Above6 | Above4 | AtMost4

  function StyleBandOf(score: real): (band: StyleBand)
    ensures band == Above6 <==> score > 6.0
    ensures band == Above4 <==> 4.0 < score <= 6.0
    ensures band == AtMost4 <==> score <= 4.0
  {
    if score > 6.0 then Above6 else if score > 4.0 then Above4 else AtMost4
  }

  function StyleLine(band: StyleBand, above6: string, above4: string, atMost4: string): string {
    match band
    case Above6 => above6
    case Above4 => above4
    case AtMost4 => atMost4
  }

  /** The description of each trait at each level; None for any other name
      (a `KeyError` in the source). */
  function TraitDescription(traitName: string, level: Level): (r: Option<string>)
    ensures r.Some? <==> IsTrait(traitName)
  {
    var table: Option<(string, string, string)> := match traitName
      case "Openness" => Some(("creative, curious, and open to new experiences",
                               "moderately open to new ideas with practical considerations",
                               "practical, conventional, and prefers familiar routines"))
      case "Conscientiousness" => Some(("organized, disciplined, and goal-oriented",
                                        "reasonably organized with balanced spontaneity",
                                        "spontaneous, flexible, and adaptable"))
      case "Extraversion" => Some(("outgoing, energetic, and socially engaged",
                                   "balanced social engagement with alone time",
                                   "reserved, introspective, and values solitude"))
      case "Agreeableness" => Some(("compassionate, cooperative, and empathetic",
                                    "cooperative with assertiveness when needed",
                                    "direct, competitive, and values honesty"))
      case "Neuroticism" => Some(("emotionally sensitive and aware of feelings",
                                  "emotionally balanced with normal stress responses",
                                  "emotionally stable and resilient"))
      case _ => None;
    match table
    case None => None
    case Some((high, medium, low)) =>
      match level
      case High => Some(high)
      case Medium => Some(medium)
      case Low => Some(low)
  }

  /** The decisions the rule-based summary is written from; the text pieces
      it interpolates are derived from them. */
  datatype FallbackReport = FallbackReport(
    averageScore: real,
    highest: (string, real),
    lowest: (string, real),
    wellBalanced: bool,
    /** The level of each of the five traits, in canonical order. */
    levels: seq<Level>,
    /** The relationship-style bands of Agreeableness, Extraversion and Neuroticism. */
    styles: seq<StyleBand>)
  {
    /** "well-balanced" or "distinctive". */
    function BalanceWord(): string {
      if wellBalanced then "well-balanced" else "distinctive"
    }

    /** The description of the strongest trait at its level. */
    function HighestDescription(): string
      requires IsTrait(highest.0)
    {
      TraitDescription(highest.0, GetLevel(highest.1)).value
    }

    /** The description of each of the five traits at its level. */
    function Descriptions(): seq<string>
      requires |levels| == |TraitNames|
    {
      seq(|TraitNames|, k requires 0 <= k < |TraitNames| => TraitDescription(TraitNames[k], levels[k]).value)
    }

    /** The strongest trait's name in lower case, for the career line. */
    function CareerFocus(): string {
      TextNormalizer.Lower(highest.0)
    }

    /** The three relationship-style lines. */
    function RelationshipLines(): seq<string>
      requires |styles| == 3
    {
      [ StyleLine(styles[0], "High empathy and cooperation",
                  "Balanced cooperation and assertiveness", "Direct communication and honesty"),
        StyleLine(styles[1], "Social engagement and energy sharing",
                  "Balanced social interaction", "Meaningful one-on-one connections"),
        StyleLine(styles[2], "Emotional awareness and sensitivity",
                  "Emotional stability with normal responses", "Calm and resilient demeanor") ]
    }
  }

  /** Every one of the five names has an entry. */
  predicate HasAllTraits(scores: Profile) {
    forall k :: 0 <= k < |TraitNames| ==> TraitNames[k] in Keys(scores)
  }

  /** `trait_scores[name]` for each of the five names, in canonical order. */
  function NamedScores(scores: Profile): (named: seq<real>)
    requires HasAllTraits(scores)
    ensures |named| == |TraitNames|
    ensures forall k :: 0 <= k < |TraitNames| ==> named[k] == Lookup(scores, TraitNames[k]).value.score
  {
    seq(|TraitNames|, k requires 0 <= k < |TraitNames| => Lookup(scores, TraitNames[k]).value.score)
  }

  /** The level of each of the five traits. */
  function LevelsOf(named: seq<real>): (levels: seq<Level>)
    ensures |levels| == |named|
    ensures forall k :: 0 <= k < |named| ==> levels[k] == GetLevel(named[k])
  {
    seq(|named|, k requires 0 <= k < |named| => GetLevel(named[k]))
  }

  /** `_generate_fallback_summary`: None where the source raises, that is for
      an empty dict (division by zero), a missing trait, or a highest-scoring
      key outside the description table. */
  function FallbackSummary(scores: Profile): (r: Option<FallbackReport>)
    ensures r.Some? <==>
      |scores| > 0 && HasAllTraits(scores) && IsTrait(scores[FirstMaxIndex(ScoresOf(scores))].0)
  {
    if scores == [] then None
    else
      var values := ScoresOf(scores);
      var hi := FirstMaxIndex(values);
      var lo := FirstMinIndex(values);
      var highestName := scores[hi].0;
      if !IsTrait(highestName) || !HasAllTraits(scores) then None
      else
        var avg := Average(values);
        var named := NamedScores(scores);
        Some(FallbackReport(
          avg,
          (highestName, values[hi]),
          (scores[lo].0, values[lo]),
          3.0 < avg < 7.0,
          LevelsOf(named),
          [StyleBandOf(named[3]), StyleBandOf(named[2]), StyleBandOf(named[4])]))
  }

  /** A profile keyed by exactly the five names always gets a rule-based summary. */
  lemma FallbackSummaryOfCanonical(scores: Profile)
    requires HasCanonicalKeys(scores)
    ensures FallbackSummary(scores).Some?
  {
    CanonicalKeysAreTraits(scores);
  }

  /** The fields of the report, as computed from the entries. */
  lemma ReportFields(scores: Profile)
    requires FallbackSummary(scores).Some?
    ensures var r := FallbackSummary(scores).value;
      var values := ScoresOf(scores);
      && HasAllTraits(scores)
      && r.highest == (scores[FirstMaxIndex(values)].0, values[FirstMaxIndex(values)])
      && r.lowest == (scores[FirstMinIndex(values)].0, values[FirstMinIndex(values)])
      && r.averageScore == Average(values)
      && r.wellBalanced == (3.0 < r.averageScore < 7.0)
      && IsTrait(r.highest.0)
      && r.levels == LevelsOf(NamedScores(scores))
      && r.styles == [StyleBandOf(NamedScores(scores)[3]), StyleBandOf(NamedScores(scores)[2]),
                      StyleBandOf(NamedScores(scores)[4])]
  {
  }

  /** The strongest trait of the rule-based summary is the first entry with
      the greatest score; no score exceeds it. */
  lemma FallbackHighest(scores: Profile)
    requires FallbackSummary(scores).Some?
    ensures var r := FallbackSummary(scores).value;
      var h := FirstMaxIndex(ScoresOf(scores));
      && r.highest == (scores[h].0, scores[h].1.score)
      && (forall j :: 0 <= j < h ==> scores[j].1.score < r.highest.1)
      && (forall j :: 0 <= j < |scores| ==> scores[j].1.score <= r.highest.1)
  {
    ReportFields(scores);
  }

  /** The weakest trait of the rule-based summary is the first entry with the
      least score; no score is below it. */
  lemma FallbackLowest(scores: Profile)
    requires FallbackSummary(scores).Some?
    ensures var r := FallbackSummary(scores).value;
      var l := FirstMinIndex(ScoresOf(scores));
      && r.lowest == (scores[l].0, scores[l].1.score)
      && (forall j :: 0 <= j < l ==> r.lowest.1 < scores[j].1.score)
      && (forall j :: 0 <= j < |scores| ==> r.lowest.1 <= scores[j].1.score)
  {
    ReportFields(scores);
  }

  /** The reported average lies between the lowest and the highest score, and
      the profile is called well-balanced exactly when it is strictly between
      3 and 7. */
  lemma FallbackAverage(scores: Profile)
    requires FallbackSummary(scores).Some?
    ensures var r := FallbackSummary(scores).value;
      && r.lowest.1 <= r.averageScore <= r.highest.1
      && (r.BalanceWord() == "well-balanced" <==> 3.0 < r.averageScore < 7.0)
  {
    ReportFields(scores);
    AverageBetweenExtremes(ScoresOf(scores));
  }

  /** Each trait's reported level follows its own score and its description
      is the table entry for that level; the strongest trait's description is
      the entry for its own level; the relationship lines follow the
      Agreeableness, Extraversion and Neuroticism scores. */
  lemma FallbackLevels(scores: Profile)
    requires FallbackSummary(scores).Some?
    ensures HasAllTraits(scores)
    ensures var r := FallbackSummary(scores).value;
      var named := NamedScores(scores);
      && IsTrait(r.highest.0)
      && |r.levels| == |TraitNames| && |r.styles| == 3
      && (forall k :: 0 <= k < |TraitNames| ==> r.levels[k] == GetLevel(named[k]))
      && r.styles == [StyleBandOf(named[3]), StyleBandOf(named[2]), StyleBandOf(named[4])]
  {
    ReportFields(scores);
  }

  /** The texts interpolated from a report: each trait's description is the
      table entry for its level, and each relationship line is the phrase of
      its band. */
  lemma ReportTexts(r: FallbackReport)
    requires |r.levels| == |TraitNames| && |r.styles| == 3
    ensures forall k :: 0 <= k < |TraitNames| ==>
      TraitDescription(TraitNames[k], r.levels[k]).Some?
      && r.Descriptions()[k] == TraitDescription(TraitNames[k], r.levels[k]).value
    ensures r.RelationshipLines()[0] == "High empathy and cooperation" <==> r.styles[0] == Above6
    ensures r.RelationshipLines()[1] == "Social engagement and energy sharing" <==> r.styles[1] == Above6
    ensures r.RelationshipLines()[2] == "Emotional awareness and sensitivity" <==> r.styles[2] == Above6
  {
  }

  /** `_get_fallback_trait_insight`: a sentence per known trait built around
      the insight level and the formatted score, and a generic sentence
      naming any other trait. `format` renders a float as an f-string does.
      Every sentence opens with "Your " or "With "; a known trait's level word
      comes right after it, and an unknown trait's name does. */
  function FallbackTraitInsight(traitName: string, score: real, format: real -> string): (r: string)
    ensures |r| > 5 && (r[..5] == "Your " || r[..5] == "With ")
    ensures IsTrait(traitName) ==> InsightLevel(score) <= r[5..]
    ensures !IsTrait(traitName) ==> traitName <= r[5..]
  {
    var level := InsightLevel(score);
    var s := format(score);
    var opening := if traitName == "Conscientiousness" || traitName == "Neuroticism" then "With " else "Your ";
    var rest :=
      if IsTrait(traitName) then level + KnownInsightTail(traitName, level, s)
      else traitName + " score of " + s + "/10 indicates a " + level + " level in this trait.";
    assert (opening + rest)[..5] == opening && (opening + rest)[5..] == rest;
    opening + rest
  }

  /** What follows the opening and the level word in a known trait's insight. */
  function KnownInsightTail(traitName: string, level: string, s: string): string
    requires IsTrait(traitName)
  {
    match traitName
    case "Openness" =>
      " openness (" + s + "/10) influences your curiosity and creativity. "
      + "This affects how you approach new experiences and problem-solving in daily life."
    case "Conscientiousness" =>
      " conscientiousness (" + s + "/10), you show "
      + (if level == "high" then "strong organizational skills"
         else if level == "moderate" then "balanced flexibility" else "spontaneous adaptability")
      + ". This impacts your work ethic and goal achievement."
    case "Extraversion" =>
      " extraversion (" + s + "/10) shapes your social energy. You "
      + (if level == "high" then "thrive in social settings"
         else if level == "moderate" then "balance social interaction with alone time"
         else "prefer deep one-on-one connections")
      + "."
    case "Agreeableness" =>
      " agreeableness (" + s + "/10) influences how you collaborate. You tend to be "
      + (if level == "high" then "highly cooperative and empathetic"
         else if level == "moderate" then "balanced in cooperation and assertiveness"
         else "direct and honest in communication")
      + "."
    case "Neuroticism" =>
      " emotional sensitivity (" + s + "/10), you "
      + (if level == "high" then "are highly aware of emotions"
         else if level == "moderate" then "experience normal emotional responses"
         else "maintain emotional stability")
      + ". This affects stress management and resilience."
  }

  /** `w` occurs somewhere in `text`. */
  predicate Mentions(text: string, w: string) {
    exists k :: 0 <= k <= |text| && w <= text[k..]
  }

  lemma MentionsAfter(a: string, w: string, text: string)
    requires a + w <= text
    ensures Mentions(text, w)
  {
    assert w <= text[|a|..];
  }

  lemma PrefixOfConcat(a: string, b: string, c: string)
    requires a <= b
    ensures a <= b + c
  {
  }

  /** Every insight states the level word; the generic sentence for an unknown
      trait also names the trait, right after "Your ". */
  lemma InsightStatesLevel(traitName: string, score: real, format: real -> string)
    ensures Mentions(FallbackTraitInsight(traitName, score, format), InsightLevel(score))
    ensures !IsTrait(traitName) ==>
      && "Your " + traitName <= FallbackTraitInsight(traitName, score, format)
      && Mentions(FallbackTraitInsight(traitName, score, format), traitName)
  {
    if IsTrait(traitName) {
      KnownInsightStatesLevel(traitName, score, format);
    } else {
      GenericInsightStatesLevel(traitName, score, format);
    }
  }

  /** A known trait's insight mentions the level word. */
  lemma KnownInsightStatesLevel(traitName: string, score: real, format: real -> string)
    requires IsTrait(traitName)
    ensures Mentions(FallbackTraitInsight(traitName, score, format), InsightLevel(score))
  {
    var opening := if traitName == "Conscientiousness" || traitName == "Neuroticism" then "With " else "Your ";
    InsightOpening(traitName, score, format);
    MentionsAfter(opening, InsightLevel(score), FallbackTraitInsight(traitName, score, format));
  }

  /** The generic sentence names the trait right after "Your " and mentions the
      level word. */
  lemma GenericInsightStatesLevel(traitName: string, score: real, format: real -> string)
    requires !IsTrait(traitName)
    ensures "Your " + traitName <= FallbackTraitInsight(traitName, score, format)
    ensures Mentions(FallbackTraitInsight(traitName, score, format), traitName)
    ensures Mentions(FallbackTraitInsight(traitName, score, format), InsightLevel(score))
  {
    var r := FallbackTraitInsight(traitName, score, format);
    GenericInsight(traitName, score, format);
    MentionsAfter("Your ", traitName, r);
    MentionsAfter("Your " + traitName + " score of " + format(score) + "/10 indicates a ", InsightLevel(score), r);
  }

  /** A known trait's insight opens with "Your" or "With" and the level word. */
  lemma InsightOpening(traitName: string, score: real, format: real -> string)
    requires IsTrait(traitName)
    ensures var opening := if traitName == "Conscientiousness" || traitName == "Neuroticism" then "With " else "Your ";
      opening + InsightLevel(score) <= FallbackTraitInsight(traitName, score, format)
  {
    if traitName == "Openness" {
      OpennessOpening(traitName, score, format);
    } else if traitName == "Conscientiousness" {
      ConscientiousnessOpening(traitName, score, format);
    } else if traitName == "Extraversion" {
      ExtraversionOpening(traitName, score, format);
    } else if traitName == "Agreeableness" {
      AgreeablenessOpening(traitName, score, format);
    } else if traitName == "Neuroticism" {
      NeuroticismOpening(traitName, score, format);
    }
  }

  lemma OpennessOpening(traitName: string, score: real, format: real -> string)
    requires traitName == "Openness"
    ensures "Your " + InsightLevel(score) <= FallbackTraitInsight(traitName, score, format)
  {
    var level := InsightLevel(score);
    var lead := "Your " + level;
    var s := format(score);
    PrefixOfConcat(lead, lead, " openness (");
    PrefixOfConcat(lead, lead + " openness (", s);
    PrefixOfConcat(lead, lead + " openness (" + s, "/10) influences your curiosity and creativity. ");
    PrefixOfConcat(lead, lead + " openness (" + s + "/10) influences your curiosity and creativity. ", "This affects how you approach new experiences and problem-solving in daily life.");
  }

  lemma ConscientiousnessOpening(traitName: string, score: real, format: real -> string)
    requires traitName == "Conscientiousness"
    ensures "With " + InsightLevel(score) <= FallbackTraitInsight(traitName, score, format)
  {
    var level := InsightLevel(score);
    var lead := "With " + level;
    var s := format(score);
    var y := if level == "high" then "strong organizational skills" else if level == "moderate" then "balanced flexibility" else "spontaneous adaptability";
    PrefixOfConcat(lead, lead, " conscientiousness (");
    PrefixOfConcat(lead, lead + " conscientiousness (", s);
    PrefixOfConcat(lead, lead + " conscientiousness (" + s, "/10), you show ");
    PrefixOfConcat(lead, lead + " conscientiousness (" + s + "/10), you show ", y);
    PrefixOfConcat(lead, lead + " conscientiousness (" + s + "/10), you show " + y, ". This impacts your work ethic and goal achievement.");
  }

  lemma ExtraversionOpening(traitName: string, score: real, format: real -> string)
    requires traitName == "Extraversion"
    ensures "Your " + InsightLevel(score) <= FallbackTraitInsight(traitName, score, format)
  {
    var level := InsightLevel(score);
    var lead := "Your " + level;
    var s := format(score);
    var y := if level == "high" then "thrive in social settings" else if level == "moderate" then "balance social interaction with alone time" else "prefer deep one-on-one connections";
    PrefixOfConcat(lead, lead, " extraversion (");
    PrefixOfConcat(lead, lead + " extraversion (", s);
    PrefixOfConcat(lead, lead + " extraversion (" + s, "/10) shapes your social energy. You ");
    PrefixOfConcat(lead, lead + " extraversion (" + s + "/10) shapes your social energy. You ", y);
    PrefixOfConcat(lead, lead + " extraversion (" + s + "/10) shapes your social energy. You " + y, ".");
  }

  lemma AgreeablenessOpening(traitName: string, score: real, format: real -> string)
    requires traitName == "Agreeableness"
    ensures "Your " + InsightLevel(score) <= FallbackTraitInsight(traitName, score, format)
  {
    var level := InsightLevel(score);
    var lead := "Your " + level;
    var s := format(score);
    var y := if level == "high" then "highly cooperative and empathetic" else if level == "moderate" then "balanced in cooperation and assertiveness" else "direct and honest in communication";
    PrefixOfConcat(lead, lead, " agreeableness (");
    PrefixOfConcat(lead, lead + " agreeableness (", s);
    PrefixOfConcat(lead, lead + " agreeableness (" + s, "/10) influences how you collaborate. You tend to be ");
    PrefixOfConcat(lead, lead + " agreeableness (" + s + "/10) influences how you collaborate. You tend to be ", y);
    PrefixOfConcat(lead, lead + " agreeableness (" + s + "/10) influences how you collaborate. You tend to be " + y, ".");
  }

  lemma NeuroticismOpening(traitName: string, score: real, format: real -> string)
    requires traitName == "Neuroticism"
    ensures "With " + InsightLevel(score) <= FallbackTraitInsight(traitName, score, format)
  {
    var level := InsightLevel(score);
    var lead := "With " + level;
    var s := format(score);
    var y := if level == "high" then "are highly aware of emotions" else if level == "moderate" then "experience normal emotional responses" else "maintain emotional stability";
    PrefixOfConcat(lead, lead, " emotional sensitivity (");
    PrefixOfConcat(lead, lead + " emotional sensitivity (", s);
    PrefixOfConcat(lead, lead + " emotional sensitivity (" + s, "/10), you ");
    PrefixOfConcat(lead, lead + " emotional sensitivity (" + s + "/10), you ", y);
    PrefixOfConcat(lead, lead + " emotional sensitivity (" + s + "/10), you " + y, ". This affects stress management and resilience.");
  }

  /** The generic sentence for a name outside the five. */
  lemma GenericInsight(traitName: string, score: real, format: real -> string)
    requires !IsTrait(traitName)
    ensures var pre := "Your " + traitName + " score of " + format(score) + "/10 indicates a ";
      && "Your " + traitName <= FallbackTraitInsight(traitName, score, format)
      && pre + InsightLevel(score) <= FallbackTraitInsight(traitName, score, format)
  {
    PrefixesOfSentence("Your ", traitName, " score of ", format(score), "/10 indicates a ",
      InsightLevel(score), " level in this trait.");
  }

  /** The prefixes of a sentence assembled left to right behind an opening. */
  lemma PrefixesOfSentence<T>(o: seq<T>, t: seq<T>, m1: seq<T>, s: seq<T>, m2: seq<T>, l: seq<T>, e: seq<T>)
    ensures o + t <= o + (t + m1 + s + m2 + l + e)
    ensures o + t + m1 + s + m2 + l <= o + (t + m1 + s + m2 + l + e)
  {
    assert o + (t + m1 + s + m2 + l + e) == (o + t) + (m1 + s + m2 + l + e);
    assert o + (t + m1 + s + m2 + l + e) == (o + t + m1 + s + m2 + l) + e;
  }

  /** What the generative model is asked for: the full analysis or the short
      snapshot of a set of scores, or the insight on one trait. The wording of
      each prompt is fixed by its kind and arguments. */
  datatype Prompt =
    | FullAnalysis(scores: Profile)
    | Snapshot(scores: Profile)
    | TraitInsight(traitName: string, score: real)

  /** The result of `create_personality_summary`. */
  datatype Summary =
    | AiSummary(fullSummary: string, shortSummary: string)
    | RuleBasedSummary(report: FallbackReport)
  {
    /** The `generated_at` field. */
    function GeneratedAt(): string {
      match this
      case AiSummary(_, _) => "AI-generated"
      case RuleBasedSummary(_) => "Rule-based (AI unavailable)"
    }
  }

  class GeminiPersonalitySummarizer {

    /** `self.model`: `generate_content` of the configured model, None when no
        model could be configured; a call returning None raised. */
    const model: Option<Prompt -> Option<string>>

    constructor (model: Option<Prompt -> Option<string>>)
      ensures this.model == model
    {
      this.model := model;
    }

    /** The rule-based summary, None when it raises. */
    function RuleBased(scores: Profile): (r: Option<Summary>)
      ensures r.Some? <==> FallbackSummary(scores).Some?
      ensures r.Some? ==> r.value.RuleBasedSummary? && r.value.report == FallbackSummary(scores).value
    {
      match FallbackSummary(scores)
      case None => None
      case Some(report) => Some(RuleBasedSummary(report))
    }

    /** The AI path succeeds: a model is configured and both generations return. */
    predicate AiAvailable(scores: Profile) {
      model.Some? && model.value(FullAnalysis(scores)).Some? && model.value(Snapshot(scores)).Some?
    }

    /** `create_personality_summary`: the two generated texts when the model
        answers both prompts, and the rule-based summary whenever the model is
        missing or a generation raises. None means the exception of the
        rule-based path escapes. */
    function CreatePersonalitySummary(scores: Profile): (r: Option<Summary>)
      ensures AiAvailable(scores) ==>
        r == Some(AiSummary(model.value(FullAnalysis(scores)).value, model.value(Snapshot(scores)).value))
      ensures !AiAvailable(scores) ==> r == RuleBased(scores)
      ensures r.Some? ==> (r.value.GeneratedAt() == "AI-generated" <==> AiAvailable(scores))
      ensures r.Some? ==> (r.value.GeneratedAt() == "Rule-based (AI unavailable)" <==> !AiAvailable(scores))
    {
      match model
      case None => RuleBased(scores)
      case Some(generate) =>
        match generate(FullAnalysis(scores))
        case None => RuleBased(scores)
        case Some(fullSummary) =>
          match generate(Snapshot(scores))
          case None => RuleBased(scores)
          case Some(shortSummary) => Some(AiSummary(fullSummary, shortSummary))
    }

    /** `get_trait_specific_insights`: the generated insight when the model
        answers, the rule-based insight when the model is missing or raises.
        It never raises. */
    function GetTraitSpecificInsights(traitName: string, score: real, format: real -> string): (r: string)
      ensures model.Some? && model.value(TraitInsight(traitName, score)).Some? ==>
        r == model.value(TraitInsight(traitName, score)).value
      ensures model.None? || model.value(TraitInsight(traitName, score)).None? ==>
        r == FallbackTraitInsight(traitName, score, format)
    {
      match model
      case None => FallbackTraitInsight(traitName, score, format)
      case Some(generate) =>
        match generate(TraitInsight(traitName, score))
        case None => FallbackTraitInsight(traitName, score, format)
        case Some(text) => text
    }

    /** Without a model, a profile keyed by the five names always gets the
        rule-based summary, labelled as such. */
    lemma NoModelGivesRuleBased(scores: Profile)
      requires model.None? && HasCanonicalKeys(scores)
      ensures CreatePersonalitySummary(scores).Some?
      ensures CreatePersonalitySummary(scores).value.GeneratedAt() == "Rule-based (AI unavailable)"
    {
      FallbackSummaryOfCanonical(scores);
    }
  }
}
