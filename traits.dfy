/** The five Big Five trait names and the profile shape shared by the backend modules. */
module Traits {

  import opened Wrappers

  /** The canonical trait names, in the order the regressor emits them. */
  const TraitNames: seq<string> :=
    ["Openness", "Conscientiousness", "Extraversion", "Agreeableness", "Neuroticism"]

  /** One entry of a profile: the rounded score and the percentage derived from it. */
  datatype TraitScore = TraitScore(score: real, percentage: real)

  /** A Python dict from trait name to TraitScore, kept as its insertion-ordered entries. */
  type Profile = seq<(string, TraitScore)>

  predicate IsTrait(name: string) {
    name in TraitNames
  }

  /** The keys of `p`, in insertion order. */
  function Keys(p: Profile): (ks: seq<string>)
    ensures |ks| == |p|
    ensures forall i :: 0 <= i < |p| ==> ks[i] == p[i].0
  {
    if p == [] then [] else [p[0].0] + Keys(p[1..])
  }

  /** `p` has exactly the five trait names as keys, in the canonical order. */
  predicate HasCanonicalKeys(p: Profile) {
    Keys(p) == TraitNames
  }

  /** No key occurs twice, as in any Python dict. */
  predicate UniqueKeys(p: Profile) {
    forall i, j :: 0 <= i < j < |p| ==> p[i].0 != p[j].0
  }

  /** The five names are pairwise different (their initials already are). */
  lemma TraitNamesDistinct()
    ensures forall i, j :: 0 <= i < j < |TraitNames| ==> TraitNames[i] != TraitNames[j]
  {
    var initials := seq(|TraitNames|, k requires 0 <= k < |TraitNames| => TraitNames[k][0]);
    assert initials == "OCEAN";
    forall i, j | 0 <= i < j < |TraitNames| ensures TraitNames[i] != TraitNames[j] {
      assert initials[i] != initials[j];
    }
  }

  /** A profile keyed by the five names has no duplicate key. */
  lemma CanonicalKeysUnique(p: Profile)
    requires HasCanonicalKeys(p)
    ensures UniqueKeys(p)
  {
    var ks := Keys(p);
    TraitNamesDistinct();
    forall i, j | 0 <= i < j < |p| ensures p[i].0 != p[j].0 {
      assert ks[i] == TraitNames[i] && ks[j] == TraitNames[j];
    }
  }

  /** A profile keyed by the five names has only trait names as keys. */
  lemma CanonicalKeysAreTraits(p: Profile)
    requires HasCanonicalKeys(p)
    ensures forall i :: 0 <= i < |p| ==> IsTrait(p[i].0)
  {
    var ks := Keys(p);
    assert forall i :: 0 <= i < |p| ==> p[i].0 == ks[i];
  }

  /** The value stored under `name` (the first entry with that key), if any. */
  function Lookup(p: Profile, name: string): (r: Option<TraitScore>)
    ensures r.Some? <==> name in Keys(p)
    ensures r.Some? ==> exists i :: 0 <= i < |p| && p[i] == (name, r.value)
  {
    if p == [] then None
    else if p[0].0 == name then Some(p[0].1)
    else Lookup(p[1..], name)
  }

}
