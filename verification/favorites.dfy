/**
  The favourite-score table: a decaying popularity counter per model, keyed
  by (plugin slug, model slug). Scores are real numbers here; the rounding of
  the program's single-precision `float` scores is not modelled.
 */
module Favorites {

  /** (plugin slug, model slug). */
  type Key = (string, string)

  type ScoreTable = map<Key, real>

  /** The decay rate applied to every score on each selection. */
  const DecayLambda: real := 0.1

  /** The value stored under `key`, or `def` when there is none. */
  function GetDefault<K, V>(m: map<K, V>, key: K, def: V): (r: V)
    ensures key in m ==> r == m[key]
    ensures key !in m ==> r == def
  {
    if key in m then m[key] else def
  }

  /** Every score is non-negative. */
  predicate NonNegative(scores: ScoreTable) {
    forall k :: k in scores ==> scores[k] >= 0.0
  }

  /** One selection of model `(plugin, model)`: decay every stored score by
      ten percent, then add one to the selected key, creating it at zero first
      when it is absent. */
  function StepFavoriteScore(scores: ScoreTable, plugin: string, model: string): (r: ScoreTable)
    ensures r.Keys == scores.Keys + {(plugin, model)}
    ensures forall k :: k in scores && k != (plugin, model) ==> r[k] == 9.0 / 10.0 * scores[k]
    ensures (plugin, model) in scores ==> r[(plugin, model)] == 9.0 / 10.0 * scores[(plugin, model)] + 1.0
    ensures (plugin, model) !in scores ==> r[(plugin, model)] == 1.0
  {
    var decayed := map k | k in scores :: scores[k] * (1.0 - DecayLambda);
    var key := (plugin, model);
    decayed[key := GetDefault(decayed, key, 0.0) + 1.0]
  }

  /** The step keeps scores non-negative, and the selected model ends at one
      or more. */
  lemma StepKeepsNonNegative(scores: ScoreTable, plugin: string, model: string)
    requires NonNegative(scores)
    ensures NonNegative(StepFavoriteScore(scores, plugin, model))
    ensures StepFavoriteScore(scores, plugin, model)[(plugin, model)] >= 1.0
  {
  }

  /** Read through the default, the step decays every other key (an absent
      key keeps reading as zero) and lifts the selected one. */
  lemma StepReadsThroughDefault(scores: ScoreTable, plugin: string, model: string, k: Key)
    ensures k != (plugin, model) ==>
      GetDefault(StepFavoriteScore(scores, plugin, model), k, 0.0) == 9.0 / 10.0 * GetDefault(scores, k, 0.0)
    ensures k == (plugin, model) ==>
      GetDefault(StepFavoriteScore(scores, plugin, model), k, 0.0) == 9.0 / 10.0 * GetDefault(scores, k, 0.0) + 1.0
  {
  }
}
