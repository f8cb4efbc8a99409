/** The feature lookup tables of src/mapof/core/features_main.py. The feature
    functions themselves (distortion, monotonicity and stability) are named by
    a datatype; their code is not part of this model. */
module FeaturesMain {
  import opened Wrappers

  /** The functions the global table can hand out. */
  datatype GlobalFeature =
    | CalculateDistortion
    | CalculateDistortionNaive
    | CalculateMonotonicity
    | CalculateMonotonicityNaive
    | CalculateStability

  /** The key under which each function is listed. */
  function FeatureName(f: GlobalFeature): string {
    match f
    case CalculateDistortion => "distortion"
    case CalculateDistortionNaive => "distortion_naive"
    case CalculateMonotonicity => "monotonicity"
    case CalculateMonotonicityNaive => "monotonicity_naive"
    case CalculateStability => "stability"
  }

  /** `dict.get(key)`: the value, or None when the key is absent. */
  function DictGet<K, V>(table: map<K, V>, key: K): Option<V> {
    if key in table then Some(table[key]) else None
  }

  /** `get_main_local_feature`: the local table is empty, so every id gives None. */
  function GetMainLocalFeature<F>(featureId: string): (r: Option<F>)
    ensures r == None
  {
    DictGet(map[], featureId)
  }

  /** `get_main_global_feature`: the function listed under featureId, or None for
      any other id (keys are compared exactly, so case matters). */
  function GetMainGlobalFeature(featureId: string): (r: Option<GlobalFeature>)
    ensures r.Some? <==>
      featureId in {"distortion", "distortion_naive", "monotonicity", "monotonicity_naive", "stability"}
    ensures r.Some? ==> FeatureName(r.value) == featureId
  {
    var table := map[
      "distortion" := CalculateDistortion,
      "distortion_naive" := CalculateDistortionNaive,
      "monotonicity" := CalculateMonotonicity,
      "monotonicity_naive" := CalculateMonotonicityNaive,
      "stability" := CalculateStability];
    DictGet(table, featureId)
  }

  /** Every function is found under its own name, so the naive and vectorised
      variants are told apart. */
  lemma GlobalFeatureByName(f: GlobalFeature)
    ensures GetMainGlobalFeature(FeatureName(f)) == Some(f)
  {
  }

  /** Two different ids that are both listed give two different functions. */
  lemma GlobalFeatureInjective(a: string, b: string)
    requires GetMainGlobalFeature(a).Some? && GetMainGlobalFeature(b).Some? && a != b
    ensures GetMainGlobalFeature(a) != GetMainGlobalFeature(b)
  {
  }
}
