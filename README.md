# A Dafny model of the mapof core

mapof ("maps of elections") places the instances of an experiment (elections,
graphs, ...) on a map: it computes a distance between every pair of
instances, stores those distances and the instances' coordinates in CSV
files under `experiments/<experiment_id>/`, reads them back, and derives
features of the instances. This project models the core of that library:

- **inner distances** (`src/mapof/core/distances/inner_distances.py`): the
  distances between two vectors or two votes (l1, Chebyshev, discrete,
  Hamming, the earth mover's distance and its "infinite" variant, swap
  distance, Spearman) and the name table that selects one of them;
- **distance bookkeeping** (`src/mapof/core/distances/__init__.py`): how a
  distance id such as `l1-mutual_attraction` is split into an inner and a
  main distance, and how the single-process and multi-process loops record
  each pair's distance, time and matching in nested tables;
- **matchings** (`src/mapof/core/matchings.py` and the older copy under
  `mapel-core/`): the assignment problem over a cost matrix and the integer
  program that matches two matrices, both stated by their optimum over all
  permutations;
- **the experiment** (`src/mapof/core/objects/Experiment.py` and the older
  copy): a class whose methods compute distances, group coordinates by
  family, mirror the map, read features, normalise one feature by another,
  and look up instances;
- **persistence** (`src/mapof/core/persistence/experiment_exports.py`,
  `experiment_imports.py` and the older copy of the latter): the CSV files
  written and read, with a round trip proved from the distances file that
  is written to the distances that are read back;
- **features** (`src/mapof/core/features/common.py`, `register.py`,
  `src/mapof/core/features_main.py`): the distance and coordinate matrices
  that features start from, and the feature registries;
- **utilities** (`src/mapof/core/utils.py` and the older copy): instance
  ids and the rotation of a list.

Python exceptions are values of `Wrappers.Error` carried in a `Result`
(`TypeError`, `KeyError`, `ValueError`, `IndexError`, `ZeroDivisionError`,
`FileNotFound`, `NameError`). A Python dict whose insertion order matters is
a `Dicts.Dict` (a sequence of key/value pairs); a dict of dicts indexed by two
instance ids is a `NestedMaps.Table`. The file system is a map from paths to
the lines of each file, and a CSV file read through `csv.DictReader` becomes
a sequence of rows mapping each column name to its cell (`None` for a short
line). Parsing a number (`float`) and a list (`ast.literal_eval`) are the
parameters `Parsers.toFloat` and `Parsers.literal`, and formatting a number
is a `show` parameter. The distance evaluator and `time.time()` are inputs:
`evals[k]` is the evaluator's answer for the k-th pair, and `clock[2k]`,
`clock[2k+1]` are the clock readings around that call.

Where the code departs from what its names promise, the model follows the
code:

- `compute_distances` enters its multi-process branch only when
  `experiment_id` is None and `num_processes` is not 1. With at least one
  worker, the merge step then joins None into a path and raises TypeError.
  With `num_processes` at most 0, no worker runs and the tables stay empty.
  Exporting with a None id raises TypeError as well.
- `compute_coordinates_by_families`, when it must make up the families,
  gives each family only its own point and indexes three axes. It
  therefore fails for `dim < 3` whenever there is at least one instance.
  `reverse` calls it with the default `dim=2`. In the older copy, the empty
  `COLORS` list raises ZeroDivisionError for the first instance.
- `normalize_feature_by_feature` hands the exporter a flat dict. The
  exporter looks up `feature_dict['instance_id']` and iterates over it, so
  the call always raises: TypeError for a None id, KeyError when no key is
  `'instance_id'`, and TypeError otherwise. In the newer copy as written,
  `get_feature` raises TypeError before the exporter is reached (see
  Findings).
- The newer `import_feature` passes the experiment object where an
  experiment id is expected (see Findings).
- `emdinf` repeats each vector rather than spreading it: the first is
  repeated lcm(len1, len2) times, and the lcm for the second is recomputed
  from the already stretched first vector, so the two rarely end up with
  the same length and `zip` stops at the shorter.
- The newer `add_distances_to_experiment` never sets its `warn` flag,
  because rows with unknown ids are skipped before the flag is checked.

## Model

| member | source | states |
|---|---|---|
| InnerDistances.MapStrToFunc | src/mapof/core/distances/inner_distances.py:8-31 | a name maps to the inner distance of that name, and names outside the table map to None |
| InnerDistances.MapStrToFuncRoundTrip | src/mapof/core/distances/inner_distances.py:22-31 | every registered inner distance is found under its own name |
| InnerDistances.L1 | src/mapof/core/distances/inner_distances.py:34-49 | numpy raises ValueError exactly for two lengths that differ with neither equal to 1; a length-1 vector is broadcast to the other length; equal lengths give the sum of coordinate gaps; the result is never negative |
| InnerDistances.L1ZeroIff | src/mapof/core/distances/inner_distances.py:34-49 | for vectors of one length, l1 is zero exactly when they are equal |
| InnerDistances.L1Symmetric | src/mapof/core/distances/inner_distances.py:34-49 | l1, its error and its broadcast do not depend on the order of the arguments, for any two lengths |
| InnerDistances.L1TermBound | src/mapof/core/distances/inner_distances.py:34-49 | for vectors of one length, every coordinate's gap is at most the l1 distance |
| InnerDistances.L1Example | tests/unit/mapof/core/test_inner_distances.py:9-12 | the l1 distance of the two vectors in the unit test is 12 |
| InnerDistances.Chebyshev | src/mapof/core/distances/inner_distances.py:70-85 | an empty first vector raises ValueError (max of an empty sequence), a shorter second vector raises IndexError, and otherwise the result bounds every coordinate gap and equals one of them |
| InnerDistances.ChebyshevAtMostL1 | src/mapof/core/distances/inner_distances.py:34-85 | on non-empty vectors of one length both succeed and Chebyshev is at most l1 |
| InnerDistances.Discrete | src/mapof/core/distances/inner_distances.py:111-129 | the loop returns 0 when the second vector begins with the first, raises IndexError when the second is a proper prefix of the first, and returns 1 otherwise |
| InnerDistances.SingleL1 | src/mapof/core/distances/inner_distances.py:201-216 | the absolute difference is non-negative and zero exactly for equal values |
| InnerDistances.Hamming | src/mapof/core/distances/inner_distances.py:219-234 | the result is the size of the symmetric difference of the two sets |
| InnerDistances.HammingZeroIff | src/mapof/core/distances/inner_distances.py:219-234 | Hamming is zero exactly for equal sets |
| InnerDistances.Emd | src/mapof/core/distances/inner_distances.py:132-153 | the dirt-carrying loop raises IndexError exactly when the first vector is longer than the second by two or more; otherwise it computes the sum of absolute prefix-sum differences over all but the last position, which is never negative |
| InnerDistances.EmdIgnoresLast | src/mapof/core/distances/inner_distances.py:146-153 | the last entry of either vector never affects the result |
| InnerDistances.EmdSelf | src/mapof/core/distances/inner_distances.py:132-153 | a vector is at distance 0 from itself |
| InnerDistances.EmdSymmetric | src/mapof/core/distances/inner_distances.py:132-153 | emd does not depend on the order of its arguments |
| InnerDistances.Stretch | src/mapof/core/distances/inner_distances.py:156-157 | stretching by a factor multiplies the length by it |
| InnerDistances.StretchAt | src/mapof/core/distances/inner_distances.py:156-157 | each position of the stretched vector holds the entry at that position modulo the length |
| InnerDistances.TwoTrianglesStep | src/mapof/core/distances/inner_distances.py:189-196 | the area formula for a sign change equals the per-step area of the two triangles |
| InnerDistances.EmdInf | src/mapof/core/distances/inner_distances.py:160-198 | the loop over the stretched vectors computes the walked area, which is never negative |
| InnerDistances.ReconciledLengths | src/mapof/core/distances/inner_distances.py:174-177 | vectors of different lengths are stretched as written: the first is repeated lcm(len1, len2) times, the second as many times as the first's new length, and the walk stops at the shorter one |
| InnerDistances.EmdInfSelf | src/mapof/core/distances/inner_distances.py:160-198 | a vector is at distance 0 from itself |
| InnerDistances.VoteToPote | src/mapof/core/distances/inner_distances.py:237-249 | the result has positions within the vote |
| InnerDistances.VoteToPoteInverts | src/mapof/core/distances/inner_distances.py:237-249 | for a permutation, the positional vote is its inverse permutation in both directions |
| InnerDistances.VoteToPoteInvolution | src/mapof/core/distances/inner_distances.py:237-249 | converting twice gives back the vote |
| InnerDistances.ArgsortIsVoteToPote | src/mapof/core/distances/inner_distances.py:237-249 | on a permutation, argsort and the position lookup agree |
| InnerDistances.SwapDistanceBetweenPotes | src/mapof/core/distances/inner_distances.py:271-293 | IndexError exactly when some value pair of pote_1 reads out of range (Python negative indices count from the end; pote_2 is read only when the two pote_1 entries differ); otherwise the count of the value pairs the two potes order in opposite ways |
| InnerDistances.ValuesIndexSwapPairs | src/mapof/core/distances/inner_distances.py:284-292 | when every value of pote_1 indexes both potes, no read fails and the counted pairs are exactly the discordant ones |
| InnerDistances.SwapPairsCountKendall | src/mapof/core/distances/inner_distances.py:271-293 | for a permutation, no read fails and the counted position pairs are as many as the candidate pairs the two potes rank in opposite order |
| InnerDistances.Relabel | src/mapof/core/distances/inner_distances.py:253-256 | with no matching the copy is vote_2; with one, each label is replaced by `matching[label]`, and IndexError exactly when some label is out of the matching's range |
| InnerDistances.SwapDistance | src/mapof/core/distances/inner_distances.py:250-267 | IndexError when relabelling fails or a pair read is out of range; otherwise the opposite-order pair count of the two potes, the second from the relabelled vote |
| InnerDistances.SwapDistanceSelf | src/mapof/core/distances/inner_distances.py:262-266 | for any pote whatsoever, no pair is counted against itself |
| InnerDistances.SwapDistanceReversed | src/mapof/core/distances/inner_distances.py:252-293 | a vote and its reversal read in range and are at the largest swap distance, m(m-1)/2 |
| InnerDistances.Spearman | src/mapof/core/distances/inner_distances.py:296-311 | a shorter second pote raises IndexError; otherwise the sum of absolute position differences, never negative |
| InnerDistances.SpearmanZeroIff | src/mapof/core/distances/inner_distances.py:296-311 | Spearman returns 0 exactly when the second pote begins with the first |
| InnerDistances.SpearmanIsL1 | src/mapof/core/distances/inner_distances.py:296-311 | for potes of one length, Spearman succeeds and equals the l1 distance of the potes read as vectors |
| Distances.ExtractDistanceId | src/mapof/core/distances/__init__.py:47-69 | without '-' the id is the main distance and there is no inner one; two or more '-' raise ValueError; one '-' splits into the inner name looked up and the main name |
| Distances.ExtractDistanceIdOfJoined | src/mapof/core/distances/__init__.py:63-68 | splitting `inner-main` gives back the lookup of inner and main |
| Distances.ExtractDistanceIdRegistered | tests/func/mapof/core/distances/test_distances_module.py:32-41 | a registered inner distance joined to a main name is recovered from the id |
| Distances.SplitJoin | src/mapof/core/distances/__init__.py:63-68 | splitting on a separator and joining back gives the original string |
| Distances.LastWins | src/mapof/core/distances/__init__.py:100-118 | after the loop, each recorded cell holds the distance and time of the last pair that touched it, in either order |
| Distances.MatchingLastWins | src/mapof/core/distances/__init__.py:109-113 | each matching cell holds the matching of the last pair that returned one |
| Distances.RecordedSymmetric | src/mapof/core/distances/__init__.py:115-118 | every listed pair gets a distance, and distances and times are symmetric |
| Distances.RecordedMatchingsInverse | src/mapof/core/distances/__init__.py:109-113 | a stored matching and its reverse direction are inverse permutations |
| Distances.PairTables.constructor | src/mapof/core/objects/Experiment.py:155-157 | the tables start with a row for every instance and no cells |
| Distances.PairTables.RecordPair | src/mapof/core/distances/__init__.py:104-118 | one pair's evaluation is recorded in both directions, with the elapsed time |
| Distances.PairTables.RunSingleProcess | src/mapof/core/distances/__init__.py:72-118 | the tables become the recording of every pair in order |
| Distances.PairTables.RunMultipleProcesses | src/mapof/core/distances/__init__.py:121-177 | the worker records its pairs in order and asks for its own file exactly when exporting |
| Matchings.Best | src/mapof/core/matchings.py:7-23 | the search returns a permutation whose cost is minimal over all permutations |
| Matchings.SolveMatchingVectors | src/mapof/core/matchings.py:7-23 | the assignment is a permutation, the cost is its total, and no permutation costs less |
| Matchings.VectorsTwoByTwo | tests/unit/mapof/core/test_matchings.py:12-24 | the two-by-two test matrix has optimal cost 5 |
| Matchings.VectorsThreeByThree | tests/unit/mapof/core/test_matchings.py:25-38 | the three-by-three test matrix has optimum 4 at the reversal |
| Matchings.FeasibleIsPermutation | src/mapof/core/matchings.py:76-116 | every binary solution of the constraints encodes a permutation and the product variables follow it |
| Matchings.CanonicalFeasible | src/mapof/core/matchings.py:84-116 | every permutation encodes a feasible solution |
| Matchings.ObjectiveIsCost | src/mapof/core/matchings.py:62-73 | the objective of an encoded solution equals the matching cost of its permutation |
| Matchings.SolveMatchingMatrices | src/mapof/core/matchings.py:26-131 | an optimal status yields the least matching cost over all permutations; any other status yields None |
| Matchings.MatricesSolveProgram | src/mapof/core/matchings.py:127-129 | the returned value is at most the objective of every feasible solution |
| Matchings.MatrixCostOfOne | src/mapof/core/matchings.py:62-73 | a single instance costs nothing |
| Matchings.MatricesTwoByTwo | src/mapof/core/matchings.py:26-131 | two two-by-two matrices under the absolute difference have optimum 2 |
| Matchings.MatricesThreeByThree | src/mapof/core/matchings.py:26-131 | a three-by-three example has optimum 2 at the reversal |
| Permutations.Argsort | src/mapof/core/persistence/experiment_imports.py:170-173 | argsort is a permutation of the indices ordered by their keys |
| Permutations.ArgsortInvertsPermutation | src/mapof/core/persistence/experiment_imports.py:168-173 | argsort of a permutation is its inverse in both directions |
| Permutations.InverseIsPermutation | src/mapof/core/distances/inner_distances.py:237-249 | the inverse of a permutation is a permutation |
| Utils.GetInstanceId | src/mapof/core/utils.py:35-39 | a single instance keeps the family id; otherwise the id is the family id, '_' and a number |
| Utils.InstanceIdNumber | src/mapof/core/utils.py:35-39 | the number after the family id parses back to the index |
| Utils.InstanceIdsDistinct | src/mapof/core/utils.py:35-39 | different indices give different ids |
| Utils.Rotate | src/mapof/core/utils.py:42-45 | an empty list raises ZeroDivisionError; otherwise the result is a permutation of the list that starts at the shift |
| Utils.RotateByMultiple | src/mapof/core/utils.py:42-45 | a shift by a multiple of the length changes nothing |
| Utils.RotateBack | src/mapof/core/utils.py:42-45 | rotating by the opposite shift restores the list |
| Utils.RotateExamples | tests/func/mapof/core/utils/test_utils.py:11-27 | the rotations in the test give the expected lists |
| Text.NatToStringValue | src/mapof/core/utils.py:39 | the decimal digits written for a number read back as that number |
| Text.IntToStringParses | src/mapof/core/utils.py:39 | a formatted integer parses back to itself |
| Text.IntToStringInjective | src/mapof/core/utils.py:39 | different integers are formatted differently |
| Register.Register | src/mapof/core/features/register.py:8-12 | registering stores the function under its id, keeps the other ids, and keeps the embedding-related set growing |
| Register.RegisterAll | src/mapof/core/features/register.py:1-14 | the registry built from a sequence of registrations is well formed |
| Register.RegisterAllLastWins | src/mapof/core/features/register.py:8-12 | each id holds the function of its last registration, and is embedding related exactly when some registration marked it so |
| Register.FeatureRegistry.constructor | src/mapof/core/features/register.py:1-5 | the registry starts empty |
| Register.FeatureRegistry.RegisterExperimentFeature | src/mapof/core/features/register.py:8-12 | the decorator returns the function unchanged and records it |
| FeaturesMain.GetMainLocalFeature | src/mapof/core/features_main.py:8-9 | no local feature is known to the core |
| FeaturesMain.GetMainGlobalFeature | src/mapof/core/features_main.py:12-20 | a global feature is found exactly for the names in the table, and it has that name |
| FeaturesMain.GlobalFeatureByName | src/mapof/core/features_main.py:12-20 | every global feature is found under its own name |
| FeaturesMain.GlobalFeatureInjective | src/mapof/core/features_main.py:12-20 | different names that are both found give different features |
| Dicts.Get | src/mapof/core/objects/Experiment.py:446-447 | a dict lookup succeeds exactly for present keys and raises KeyError otherwise |
| Dicts.SetGet | src/mapof/core/objects/Experiment.py:446-447 | after an assignment the key holds the new value, every other key keeps its value, and a new key goes last |
| Dicts.SetUnique | src/mapof/core/persistence/experiment_imports.py:241 | assignment keeps the keys unique |
| CsvRows.FloatColumn | src/mapof/core/persistence/experiment_imports.py:65-70 | float(row[name]) succeeds exactly when the column is present, filled and parses |
| CsvRows.ReadRows | src/mapof/core/persistence/experiment_imports.py:41-43 | reading gives at most one row per line after the header |
| CsvRows.RowsUnder | src/mapof/core/persistence/experiment_imports.py:43 | each non-empty line becomes the row pairing header names with its cells |
| CsvRows.FoldPrefix | src/mapof/core/persistence/experiment_imports.py:59-70 | a loop that completes has completed every prefix of the rows |
| CsvRows.ReadLoop | src/mapof/core/persistence/experiment_imports.py:59-70 | the loop over the reader computes the fold of the rows, stopping at the first error |
| ExperimentExports.Folder | src/mapof/core/persistence/experiment_exports.py:34-45 | the folder path raises TypeError exactly when the experiment id is None |
| ExperimentExports.FeatureFile | src/mapof/core/persistence/experiment_exports.py:9-54 | a None id raises TypeError, an empty feature dict IndexError; the file has the header of all feature names and a line per instance of the first feature |
| ExperimentExports.FeatureFileCell | src/mapof/core/persistence/experiment_exports.py:51-54 | each cell holds that instance's value of that feature |
| ExperimentExports.ExportFeatureToFile | src/mapof/core/persistence/experiment_exports.py:9-54 | the method writes exactly the specified feature file or raises its error |
| ExperimentExports.NormalizedFeatureFile | src/mapof/core/persistence/experiment_exports.py:57-93 | a None id raises TypeError, a dict without 'instance_id' KeyError; otherwise a header and a line per instance of that key |
| ExperimentExports.ExportNormalizedFeatureToFile | src/mapof/core/persistence/experiment_exports.py:57-93 | the method writes exactly the specified normalised feature file |
| ExperimentExports.EmbeddingHeader | src/mapof/core/persistence/experiment_exports.py:139-144 | only dimensions 1 to 3 get a header, naming the id and the axes |
| ExperimentExports.EmbeddingLine | src/mapof/core/persistence/experiment_exports.py:146-158 | a line holds the id and the coordinates for the dimension, the third taken from the position list; a missing instance or axis raises KeyError or IndexError |
| ExperimentExports.EmbeddingFile | src/mapof/core/persistence/experiment_exports.py:97-158 | the file fails exactly for a None id or a failing line; otherwise it is the header plus one line per instance at the named path |
| ExperimentExports.EmbeddingFileLines | src/mapof/core/persistence/experiment_exports.py:146-158 | line k of the body is instance k's id and coordinates |
| ExperimentExports.ExportEmbeddingToFile | src/mapof/core/persistence/experiment_exports.py:97-158 | the method writes exactly the specified embedding file |
| ExperimentExports.DistanceLine | src/mapof/core/persistence/experiment_exports.py:198-202 | a line holds both ids, the distance and the time, and raises KeyError when either is missing |
| ExperimentExports.DistanceLines | src/mapof/core/persistence/experiment_exports.py:196-202 | the lines are the header and one line per listed pair, failing exactly when a pair lacks a distance or a time |
| ExperimentExports.DistancesFile | src/mapof/core/persistence/experiment_exports.py:162-202 | a None id raises TypeError; otherwise the file is the distance lines at `distances/<distance_id>.csv` |
| ExperimentExports.ExportDistancesToFile | src/mapof/core/persistence/experiment_exports.py:162-202 | the method writes exactly the specified distances file |
| ExperimentExports.ProcessDistancesFile | src/mapof/core/persistence/experiment_exports.py:205-245 | a None id raises TypeError; the file name carries the process number |
| ExperimentExports.ProcessFileMatchesSingle | src/mapof/core/persistence/experiment_exports.py:205-245 | a worker's file has the lines the single distances file would have if it formatted values as the worker does (`float` first), and different workers write different paths |
| ExperimentExports.ExportDistancesMultipleProcesses | src/mapof/core/persistence/experiment_exports.py:205-245 | the method writes exactly the specified worker file |
| ExperimentImports.Open | src/mapof/core/persistence/experiment_imports.py:41-43 | opening succeeds exactly for an existing path and raises FileNotFoundError otherwise |
| ExperimentImports.PairIds | src/mapof/core/persistence/experiment_imports.py:45-54 | the election id columns win over the instance id columns, and a row with neither keeps the previous row's ids |
| ExperimentImports.Skips | src/mapof/core/persistence/experiment_imports.py:55-57 | a row is kept exactly when both ids are known instances; ids never bound raise NameError |
| ExperimentImports.AddRowsMirrored | src/mapof/core/persistence/experiment_imports.py:59-63 | adding rows for a kept pair keeps the table mirrored |
| ExperimentImports.DistancesPath | src/mapof/core/persistence/experiment_imports.py:34-39 | a None id raises TypeError; otherwise the path is `experiments/<id>/distances/<distance_id>.csv` |
| ExperimentImports.OptionalDistance | src/mapof/core/persistence/experiment_imports.py:65-70 | a row without a distance column stores nothing; otherwise the float of the cell or its error |
| ExperimentImports.ImportedDistances | src/mapof/core/persistence/experiment_imports.py:9-71 | a None id raises TypeError |
| ExperimentImports.ImportDistancesFromFile | src/mapof/core/persistence/experiment_imports.py:9-71 | the reading loop computes the specified distances |
| ExperimentImports.DistanceRowsMirrored | src/mapof/core/persistence/experiment_imports.py:45-70 | every prefix of the rows leaves the distances mirrored over the instances |
| ExperimentImports.ImportedDistancesSymmetric | src/mapof/core/persistence/experiment_imports.py:9-71 | imported distances are mirrored: d[a][b] == d[b][a] |
| ExperimentImports.FirstRowWithoutIds | src/mapof/core/persistence/experiment_imports.py:45-57 | a first row with no id columns raises NameError |
| ExperimentImports.DistanceRowWrites | src/mapof/core/persistence/experiment_imports.py:59-70 | a kept row with a distance writes it in both directions and nothing else changes |
| ExperimentImports.MirrorFieldMirrored | src/mapof/core/persistence/experiment_imports.py:149-166 | storing a distance, time or std in both directions keeps the table mirrored |
| ExperimentImports.StoreMappingPaired | src/mapof/core/persistence/experiment_imports.py:168-173 | storing a mapping keeps each stored pair of mappings consistent |
| ExperimentImports.AddedDistances | src/mapof/core/persistence/experiment_imports.py:74-185 | a None id raises TypeError and a missing file gives four empty dicts |
| ExperimentImports.AddedDistancesLegacy | mapel-core/src/mapof/core/persistence/experiment_imports.py:65-167 | the older copy returns None for a missing file instead |
| ExperimentImports.AddDistancesToExperiment | src/mapof/core/persistence/experiment_imports.py:74-185 | the loop computes the specified tables and never raises the warning |
| ExperimentImports.AddDistancesToExperimentLegacy | mapel-core/src/mapof/core/persistence/experiment_imports.py:65-167 | the loop computes the specified tables of the older copy |
| ExperimentImports.AddedDistancesInvariant | src/mapof/core/persistence/experiment_imports.py:127-173 | the imported distances, times and stds are mirrored, and two stored mappings that are permutations are inverse |
| ExperimentImports.Clamp | src/mapof/core/persistence/experiment_imports.py:241 | the clamped value lies within the limits that are given, and a value within them is unchanged |
| ExperimentImports.FeatureValue | src/mapof/core/persistence/experiment_imports.py:231-241 | a missing column raises KeyError; None, sentinel cells and a zero time give None; otherwise the clamped float or ValueError |
| ExperimentImports.FeaturePath | src/mapof/core/persistence/experiment_imports.py:222-225 | the path raises TypeError exactly for a None experiment id |
| ExperimentImports.ValuesFromCsvFile | src/mapof/core/persistence/experiment_imports.py:188-243 | a None id raises TypeError and a missing file raises FileNotFoundError |
| ExperimentImports.GetValuesFromCsvFile | src/mapof/core/persistence/experiment_imports.py:188-243 | the reading loop computes the specified values |
| ExperimentImports.ValuesWithinLimits | src/mapof/core/persistence/experiment_imports.py:227-243 | every value read lies within the limits, and every instance appears once |
| ExperimentImports.ValueRowsErrors | src/mapof/core/persistence/experiment_imports.py:231-241 | reading the rows fails only with KeyError or ValueError |
| ExperimentImports.Point | src/mapof/core/persistence/experiment_imports.py:299-304 | dimensions 1 to 3 read that many axes, failing on the first that does not parse; other dimensions give no point |
| ExperimentImports.CoordinatesFileName | src/mapof/core/persistence/experiment_imports.py:279-280 | the given file name wins over the embedding file name |
| ExperimentImports.CoordinatesFromFile | src/mapof/core/persistence/experiment_imports.py:246-313 | a None id raises TypeError |
| ExperimentImports.AddCoordinatesToExperiment | src/mapof/core/persistence/experiment_imports.py:246-313 | the reading loop computes the specified coordinates and warning |
| ExperimentImports.CoordinatesFromFileFacts | src/mapof/core/persistence/experiment_imports.py:290-311 | the warning is raised exactly when some row names an unknown instance, every point has dim entries (none for other dims), and each instance appears once |
| RoundTrip.WrittenRowReads | src/mapof/core/persistence/experiment_imports.py:45-70 | a written distance line reads back with its ids and distance |
| RoundTrip.ReadWrittenRow | src/mapof/core/persistence/experiment_imports.py:55-70 | reading a written line stores its distance in both directions |
| RoundTrip.ReadWrittenRows | src/mapof/core/persistence/experiment_imports.py:59-70 | reading all written lines stores every pair |
| RoundTrip.ReadWrittenLines | src/mapof/core/persistence/experiment_exports.py:196-202 | the rows read from the written lines are the written rows |
| RoundTrip.ExportThenImport | src/mapof/core/persistence/experiment_exports.py:162-202 | importing the written distances file succeeds, is mirrored, holds every exported pair, and gives back the exported distances when they were symmetric |
| ExperimentPairs.ListPairs | src/mapof/core/objects/Experiment.py:159-166 | the loops list exactly the specified pairs |
| ExperimentPairs.AllPairsLength | src/mapof/core/objects/Experiment.py:159-166 | there are n(n-1)/2 pairs, plus n with self distances |
| ExperimentPairs.AllPairsMembers | src/mapof/core/objects/Experiment.py:159-166 | the pair (i, j) is listed exactly when i < j, or i == j with self distances |
| ExperimentPairs.AllPairsCovered | src/mapof/core/objects/Experiment.py:155-166 | every listed id is an instance |
| ExperimentPairs.SliceBounds | src/mapof/core/objects/Experiment.py:178-179 | the worker slices start at 0, end at the number of pairs, and never go backwards |
| ExperimentPairs.WorkerSlicesCover | src/mapof/core/objects/Experiment.py:173-189 | the worker slices together are all the pairs, in order |
| ExperimentPairs.MergeCell | src/mapof/core/objects/Experiment.py:205-212 | merging a row needs both ids and a parsing cell, and raises KeyError, TypeError or ValueError otherwise |
| ExperimentPairs.MergeRowOneDirection | src/mapof/core/objects/Experiment.py:205-212 | a merged row writes one direction only |
| ExperimentPairs.MergeWorkerRowsOneDirection | src/mapof/core/objects/Experiment.py:191-214 | after merging, every cell was there before or is named by a row |
| ExperimentModel.FreshTables | src/mapof/core/objects/Experiment.py:155-157 | the new tables have a row for every instance and no cells |
| ExperimentModel.DistancesComputed | src/mapof/core/objects/Experiment.py:153-214 | TypeError exactly when the id is None with two or more workers; otherwise tables over the instances, empty when no worker runs |
| ExperimentModel.SingleProcessCoversPairs | src/mapof/core/objects/Experiment.py:170-171 | on the single-process path every listed pair has a distance, and distances and times are symmetric |
| ExperimentModel.DistancesOutcome | src/mapof/core/objects/Experiment.py:216-221 | a file is written exactly when exporting; exporting with a None id raises TypeError |
| ExperimentModel.ComputeTables | src/mapof/core/objects/Experiment.py:155-214 | the method computes the specified tables |
| ExperimentModel.Experiment.constructor | src/mapof/core/objects/Experiment.py:27-88 | the experiment starts with the given settings, instances, families and coordinates, and empty tables and features |
| ExperimentModel.Experiment.ImportInstances | src/mapof/core/objects/Experiment.py:131-143 | given instances win; otherwise the loaded instances and their number, an empty dict for a missing file, or the loader's error |
| ExperimentModel.Experiment.ComputeDistances | src/mapof/core/objects/Experiment.py:145-221 | the distance id is set, and the tables and exported file are the specified outcome; on error the tables are unchanged |
| ExperimentModel.Experiment.GatherAxis | src/mapof/core/objects/Experiment.py:363-376 | one axis of the members' coordinates, or the first missing member's error |
| ExperimentModel.Experiment.GatherFamily | src/mapof/core/objects/Experiment.py:357-376 | the three coordinate lists of a family |
| ExperimentModel.Experiment.GroupMembers | src/mapof/core/objects/Experiment.py:357-376 | the coordinate lists of every family, in family order |
| ExperimentModel.Experiment.GroupOwn | src/mapof/core/objects/Experiment.py:336-355 | each made-up family's lists hold its own point |
| ExperimentModel.Experiment.MakeUpFamilies | src/mapof/core/objects/Experiment.py:322-334 | one family per instance, or the error of the first instance that fails |
| ExperimentModel.Experiment.ComputeCoordinatesByFamilies | src/mapof/core/objects/Experiment.py:317-379 | the families and the grouped coordinates are the specified grouping, and the error raised |
| ExperimentModel.Experiment.Reverse | src/mapof/core/objects/Experiment.py:397-406 | axis 0 or 1 negates the other coordinate of every instance and then regroups in two dimensions; other axes only regroup |
| ExperimentModel.Experiment.GetFeature | src/mapof/core/objects/Experiment.py:445-447 | the feature read with the experiment id is stored under its id, and an error changes nothing |
| ExperimentModel.Experiment.NormalizeFeatureByFeature | src/mapof/core/objects/Experiment.py:461-477 | the method has the specified outcome, which is always an error |
| ExperimentModel.Experiment.GetInstanceIdFromCultureId | src/mapof/core/objects/Experiment.py:655-659 | None families raise TypeError; otherwise the first family of that culture, or None |
| ExperimentModel.Experiment.GetSquaredDistance | mapel-core/src/mapof/core/objects/Experiment.py:257-264 | the loop computes the squared distance of the two points in the plane |
| ExperimentSpecs.InstanceFamiliesFacts | src/mapof/core/objects/Experiment.py:322-334 | with an empty colour list and an instance, ZeroDivisionError; otherwise one family per instance, named by it and of its culture |
| ExperimentSpecs.FamilyLists | src/mapof/core/objects/Experiment.py:359-376 | the lists are filled for the first dim axes, failing exactly when a member is missing or too short |
| ExperimentSpecs.OwnLists | src/mapof/core/objects/Experiment.py:336-355 | an instance's own lists succeed only for dim >= 3, each holding one coordinate |
| ExperimentSpecs.GroupedByMembers | src/mapof/core/objects/Experiment.py:357-376 | grouping succeeds exactly when every family's lists do, in family order |
| ExperimentSpecs.GroupedByOwnCoordinates | src/mapof/core/objects/Experiment.py:336-355 | made-up families fail for dim < 3 with IndexError or KeyError |
| ExperimentSpecs.Grouped | src/mapof/core/objects/Experiment.py:317-379 | an error is raised exactly when no grouping is stored, and families given stay as they are |
| ExperimentSpecs.MadeUpFamiliesNeedThreeDimensions | src/mapof/core/objects/Experiment.py:336-355 | without families and with an instance, dim < 3 always raises |
| ExperimentSpecs.GroupedWithFamilies | src/mapof/core/objects/Experiment.py:357-379 | with every member placed, each family gets its coordinate lists |
| ExperimentSpecs.ReversedCoordinate | src/mapof/core/objects/Experiment.py:398-403 | axis 0 flips coordinate 1 and axis 1 flips coordinate 0; other axes flip nothing |
| ExperimentSpecs.ReflectPoints | src/mapof/core/objects/Experiment.py:400-405 | reflection succeeds exactly when every instance has the coordinate; it negates that one and keeps the rest |
| ExperimentSpecs.ReflectTwice | src/mapof/core/objects/Experiment.py:397-406 | reflecting twice restores the coordinates |
| ExperimentSpecs.NormalizeOne | src/mapof/core/objects/Experiment.py:468-475 | None stays None, a zero denominator gives "Blank", a missing one KeyError, a None one TypeError; otherwise the ratio |
| ExperimentSpecs.NormalizedPointwise | src/mapof/core/objects/Experiment.py:466-475 | the loop succeeds exactly when every entry does, and maps each id to its normalised value |
| ExperimentSpecs.FlatNormalizedExport | src/mapof/core/objects/Experiment.py:477 | exporting the flat dict always fails: TypeError for a None id, KeyError without an 'instance_id' key |
| ExperimentSpecs.NormalizeOutcome | src/mapof/core/objects/Experiment.py:461-477 | normalising always ends in an error, TypeError for a None id |
| ExperimentSpecs.FirstWithCulture | src/mapof/core/objects/Experiment.py:655-659 | None exactly when no family has the culture; otherwise the first family that has it |
| ExperimentSpecs.SquaredDifference | mapel-core/src/mapof/core/objects/Experiment.py:261-262 | one axis's squared difference, non-negative, or an error for a missing point or axis |
| ExperimentSpecs.SquaredDistance | mapel-core/src/mapof/core/objects/Experiment.py:257-264 | the squared distance exists exactly for two planar points, is non-negative, and is zero for a point and itself |
| ExperimentSpecs.SquaredDistanceSymmetric | mapel-core/src/mapof/core/objects/Experiment.py:257-264 | the squared distance does not depend on the order |
| ExperimentSpecs.ImportFeatureAsWrittenFails | src/mapof/core/objects/Experiment.py:449-459 | as written, every import_feature call raises TypeError |
| ExperimentSpecs.ImportFeatureWithId | mapel-core/src/mapof/core/objects/Experiment.py:323-330 | with the id, a header-only feature file reads as an empty dict, where the object argument raises TypeError |
| ExperimentSpecs.ImportFeatureById | mapel-core/src/mapof/core/persistence/experiment_imports.py:170-212 | with the experiment id, the read fails only for a missing file, column or number, never with TypeError, and gives unique keys |
| FeaturesCommon.ExtractSelectedDistances | src/mapof/core/features/common.py:6-18 | the matrix is symmetric with a zero diagonal and holds each recorded distance i<j; a missing one raises KeyError |
| FeaturesCommon.SelectedCoordinates | src/mapof/core/features/common.py:21-22 | the point of every id in order, or KeyError for a missing id |
| FeaturesCommon.SelectedCoordinatesFromExperiment | src/mapof/core/features/common.py:25-28 | the same over the experiment's coordinates |
| FeaturesCommon.ExtractCalculatedDistances | src/mapof/core/features/common.py:31-43 | the matrix is symmetric with a zero diagonal and holds the norm of each difference i<j |
| FeaturesCommon.DifferenceSwap | src/mapof/core/features/common.py:38-41 | swapping two points negates their difference |
| FeaturesCommon.GapSymmetric | src/mapof/core/features/common.py:38-41 | for a sign-ignoring norm, the cell below the diagonal is also the norm of its own difference |

Several members also model the older copy under `mapel-core/`, whose code
is the same apart from line numbers: `Utils.GetInstanceId` and
`Utils.Rotate` (`mapel-core/src/mapof/core/utils.py:22-25` and `28-30`),
`Matchings.SolveMatchingVectors`
(`mapel-core/src/mapof/core/matchings.py:7-23`),
`Matchings.SolveMatchingMatrices` (`matchings.py:26-119`),
`ExperimentImports.ImportedDistancesSymmetric`
(`mapel-core/src/mapof/core/persistence/experiment_imports.py:9-62`),
`ExperimentImports.GetValuesFromCsvFile` (`experiment_imports.py:170-212`),
`ExperimentImports.AddCoordinatesToExperiment` (`experiment_imports.py:215-271`),
and, in `mapel-core/src/mapof/core/objects/Experiment.py`,
`ExperimentModel.Experiment.ImportInstances` (86-97),
`ComputeCoordinatesByFamilies` (200-255), `Reverse` (276-285), `GetFeature`
(319-330) and `GetInstanceIdFromCultureId` (497-500). Where the older copy
differs, `MakeUpFamilies` (205-219) takes the colour list as a parameter,
`None` for the current copy and the empty `COLORS` of the older one, with
which it fails on the first instance;
`ExperimentSpecs.MadeUpFamiliesNeedThreeDimensions` (206-234) states that
the older copy then raises ZeroDivisionError before reaching the axes.

## Left out

- File I/O: the file system is a map from paths to lines; a failure after
  the header of a file has been written (a partial file) is not modelled,
  and the exporting methods return the file they would write.
- Number formatting and parsing (`str(float)`, `float(...)`,
  `ast.literal_eval`) are the parameters `show`, `toFloat` and `literal`. A
  `literal_eval` value that is not a list of integers counts as a failure.
- Floating-point arithmetic: reals are exact, so the rounding in
  `int(p * N / P)`, in the feature ratios and in the `round(..., 5)` of the
  exporters is not modelled.
- The multiprocessing machinery (starting child processes, `sleep`, `join`)
  is left out. A worker is modelled by what it records and exports. The
  merge that follows is unreachable from the class except with a None id,
  where it raises TypeError.
- The distance evaluator, the clock and the instance loader are inputs.
  The constructor takes the instances, families and coordinates that
  `import_controllers`, `import_instances` and `import_coordinates` would
  load, and `import_distances` is not part of this model.
- Matchings.SolveMatchingVectors: scipy's and Gurobi's solvers are modelled
  by the optimum over all permutations. Which optimal permutation a solver
  returns on ties is not modelled. The cost table must be square:
  `linear_sum_assignment` also accepts a rectangular table, matching only
  as many rows as there are columns, and that case is not modelled.
- ExperimentExports.ProcessFileMatchesSingle: evaluator results are reals,
  so int-versus-float formatting is not distinguished. A worker writes
  `float(d)` where the single-process export writes `str(d)`, so an int
  distance (swap, discrete, Hamming, Spearman) appears as `3.0` in a
  worker's file and as `3` in the single file. The model gives the worker
  its own formatting parameter, and the lemma equates the two files only
  under that formatting.
- InnerDistances.L1: the vectors are numpy arrays; plain Python lists,
  which cannot be subtracted, are not modelled.
- ExperimentPairs.MergeCell: a row whose `instance_id_2` is None is
  rejected rather than stored under a None key.
- CSV cells beyond the header (DictReader's `restkey`) are not modelled.
- Dicts: key uniqueness of a dict is a precondition where needed, not a
  type.
- ExperimentModel.Experiment.Reverse: the coordinate lists are values, so
  aliasing between an instance's list and another reference is not
  modelled.
- FeaturesCommon.ExtractCalculatedDistances: the norm is a parameter,
  `np.linalg.norm` and its square root are not modelled, and the points
  must all have the same length (NumPy broadcasting of ragged input is not
  modelled).
- InnerDistances: l2 and Hellinger need square roots and are left out.
- Matchings.SolveMatchingMatrices: the solver status is an input.
- `rotate`, `update`, `rotate_point`, the printing and embedding calls,
  `clean_instances`, `merge_election_images*`,
  `print_correlation_between_distances` and the other helpers of the
  Experiment class are I/O or plotting and are not part of this model.
- ExperimentModel.Experiment.GetFeature: it models the intended call with
  the experiment id, not the call as written (see Findings).
  ExperimentModel.Experiment.NormalizeFeatureByFeature and
  ExperimentSpecs.NormalizeOutcome inherit this: in the newer copy as
  written, `get_feature` already raises TypeError, so the exporter's
  KeyError path is never reached there. Both members still end in an
  error, as the code does.
- Family colours and the other display attributes of a made-up Family
  are kept only as far as the failure on an empty colour list.

## Findings

| source | as written | input that shows it | evidently intended | confidence | as-written member | corrected member |
|---|---|---|---|---|---|---|
| src/mapof/core/objects/Experiment.py:449-459 | `import_feature` passes `self` as the `experiment_id` argument of `get_values_from_csv_file`, which joins it into a path (src/mapof/core/persistence/experiment_imports.py:224) and raises TypeError | any call, e.g. an experiment `e1` whose `features/f.csv` holds only the header `instance_id;value` | pass `self.experiment_id`, as the older copy does through `experiment.experiment_id` | not executed | ExperimentSpecs.ImportFeatureAsWrittenFails | ExperimentSpecs.ImportFeatureById |
