/** The feature registry of src/mapof/core/features/register.py: the decorator
    `register_experiment_feature(feature_id, is_embedding_related)` stores the
    decorated function in the module-level dict `registered_experiment_features`,
    and also in `features_embedding_related` when the flag is set. The two dicts
    are the fields of a class; a feature function is any value of type F. */
module Register {

  /** The contents of the two dicts. */
  datatype Registry<F> = Registry(registered: map<string, F>, embeddingRelated: map<string, F>)

  /** One decorator application: the id, the flag and the decorated function. */
  datatype Registration<F> = Registration(featureId: string, isEmbeddingRelated: bool, func: F)

  /** Every embedding-related feature is also registered. */
  ghost predicate Valid<F>(r: Registry<F>) {
    r.embeddingRelated.Keys <= r.registered.Keys
  }

  /** The dicts after one decorator application. */
  function Register<F>(r: Registry<F>, g: Registration<F>): (s: Registry<F>)
    ensures Valid(r) ==> Valid(s)
    ensures g.featureId in s.registered && s.registered[g.featureId] == g.func
    ensures forall k :: k != g.featureId ==> (k in s.registered <==> k in r.registered)
    ensures forall k :: k in r.embeddingRelated ==> k in s.embeddingRelated
  {
    Registry(
      r.registered[g.featureId := g.func],
      if g.isEmbeddingRelated then r.embeddingRelated[g.featureId := g.func] else r.embeddingRelated)
  }

  /** The dicts after a sequence of decorator applications, starting empty. */
  function RegisterAll<F>(gs: seq<Registration<F>>): (s: Registry<F>)
    ensures Valid(s)
  {
    if gs == [] then Registry(map[], map[]) else Register(RegisterAll(gs[..|gs| - 1]), gs[|gs| - 1])
  }

  /** Index of the last application for id (and, when flagged is set, with the
      flag on), or -1. */
  function LastFor<F>(gs: seq<Registration<F>>, id: string, flagged: bool): (j: int)
    ensures -1 <= j < |gs|
    ensures j >= 0 ==> gs[j].featureId == id && (flagged ==> gs[j].isEmbeddingRelated)
    ensures forall k :: j < k < |gs| ==> !(gs[k].featureId == id && (flagged ==> gs[k].isEmbeddingRelated))
  {
    if gs == [] then -1
    else
      var g := gs[|gs| - 1];
      if g.featureId == id && (flagged ==> g.isEmbeddingRelated) then |gs| - 1
      else LastFor(gs[..|gs| - 1], id, flagged)
  }

  /** After any sequence of applications, an id is registered iff some
      application named it, with the function of the last one; it is embedding
      related iff some application named it with the flag set, with the function
      of the last such one. Re-registering overwrites, and a later unflagged
      registration never removes the embedding-related entry. */
  lemma {:induction false} RegisterAllLastWins<F>(gs: seq<Registration<F>>, id: string)
    ensures var s := RegisterAll(gs); var j := LastFor(gs, id, false);
      (id in s.registered <==> j >= 0) && (j >= 0 ==> s.registered[id] == gs[j].func)
    ensures var s := RegisterAll(gs); var j := LastFor(gs, id, true);
      (id in s.embeddingRelated <==> j >= 0) && (j >= 0 ==> s.embeddingRelated[id] == gs[j].func)
  {
    if gs != [] {
      RegisterAllLastWins(gs[..|gs| - 1], id);
    }
  }

  /** The two module-level dicts. */
  class FeatureRegistry<F> {
    var registeredExperimentFeatures: map<string, F>
    var featuresEmbeddingRelated: map<string, F>

    function State(): Registry<F>
      reads this
    {
      Registry(registeredExperimentFeatures, featuresEmbeddingRelated)
    }

    /** Both dicts start empty. */
    constructor()
      ensures State() == Registry(map[], map[])
    {
      registeredExperimentFeatures := map[];
      featuresEmbeddingRelated := map[];
    }

    /** `register_experiment_feature(feature_id, is_embedding_related)(func)`:
        records func and hands it back unchanged. */
    method RegisterExperimentFeature(featureId: string, isEmbeddingRelated: bool, func: F) returns (r: F)
      modifies this
      ensures r == func
      ensures State() == Register(old(State()), Registration(featureId, isEmbeddingRelated, func))
    {
      registeredExperimentFeatures := registeredExperimentFeatures[featureId := func];
      if isEmbeddingRelated {
        featuresEmbeddingRelated := featuresEmbeddingRelated[featureId := func];
      }
      r := func;
    }
  }
}
