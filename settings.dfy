/**
 * `get_default_config` of the packaged module's configuration: the feature
 * and weight documents are read from YAML when the files can be read and
 * parsed, and fall back to built-in defaults otherwise; the weights handed to
 * the scorer are the `base_weights` entry when the weights document has one.
 */
module Settings {
  import opened Wrappers
  import opened Strings

  /** A parsed YAML document. A mapping keeps its entries in file order. */
  datatype Yaml =
    | YNull
    | YNumber(x: real)
    | YString(s: string)
    | YList(items: seq<Yaml>)
    | YDict(entries: seq<(string, Yaml)>)

  /** The outcome of opening and parsing one configuration file. */
  datatype YamlRead = NotFound | Malformed | Loaded(doc: Yaml)

  datatype Config = Config(features: Yaml, weights: Yaml, projectId: Option<string>, dataset: string)

  /** Why `get_default_config` raises: `.get` on a document that is not a mapping. */
  datatype ConfigError = NotAMapping

  function Strs(names: seq<string>): (r: seq<Yaml>)
    ensures |r| == |names| && forall k :: 0 <= k < |names| ==> r[k] == YString(names[k])
  {
    seq(|names|, k requires 0 <= k < |names| => YString(names[k]))
  }

  function LogTransforms(): seq<string> { ["inventory", "moq"] }
  function InverseTransforms(): seq<string> { ["leadtime_weeks", "moq"] }

  /** `_get_default_feature_config`. */
  function DefaultFeatureConfig(): Yaml {
    YDict([
      ("log_transforms", YList(Strs(LogTransforms()))),
      ("inverse_transforms", YList(Strs(InverseTransforms()))),
      ("binary_features", YList(Strs(["is_authorized", "has_datasheet", "in_stock", "immediate_availability"]))),
      ("composite_features", YList(Strs(["availability_score", "demand_score"])))])
  }

  function DefaultWeightEntries(): seq<(string, real)> {
    [("demand_score", 0.35), ("availability_score", 0.35), ("inv_leadtime_weeks", 0.15),
     ("inv_moq", 0.10), ("is_authorized", 0.05)]
  }

  /** `_get_default_weights_config`: a flat mapping from feature to weight. */
  function DefaultWeightsConfig(): Yaml {
    YDict(seq(|DefaultWeightEntries()|, k requires 0 <= k < |DefaultWeightEntries()| =>
      (DefaultWeightEntries()[k].0, YNumber(DefaultWeightEntries()[k].1))))
  }

  /** A document read from a file, or the default when the file is absent or does not parse. */
  function OrDefault(read: YamlRead, default: Yaml): (r: Yaml)
    ensures read.Loaded? ==> r == read.doc
    ensures !read.Loaded? ==> r == default
  {
    match read
    case Loaded(doc) => doc
    case _ => default
  }

  /** `d.get(key, default)` on a mapping: a later duplicate key wins, as when a YAML mapping is loaded into a dict. */
  function Get(entries: seq<(string, Yaml)>, key: string, default: Yaml): (r: Yaml)
    ensures (exists k :: 0 <= k < |entries| && entries[k].0 == key) ==>
              exists k :: (&& 0 <= k < |entries| && entries[k].0 == key && r == entries[k].1
                           && forall j :: k < j < |entries| ==> entries[j].0 != key)
    ensures (forall k :: 0 <= k < |entries| ==> entries[k].0 != key) ==> r == default
    decreases |entries|
  {
    if entries == [] then default
    else
      var last := |entries| - 1;
      if entries[last].0 == key then entries[last].1 else Get(entries[..last], key, default)
  }

  /** `get_default_config`, with the outcomes of reading the two files as inputs. */
  function DefaultConfig(featureFile: YamlRead, weightsFile: YamlRead): (r: Result<Config, ConfigError>)
    ensures r.Failure? <==> !OrDefault(weightsFile, DefaultWeightsConfig()).YDict?
    ensures r.Success? ==> r.value.features == OrDefault(featureFile, DefaultFeatureConfig())
                           && r.value.projectId.None? && r.value.dataset == "datadojo.part_priority_scoring"
  {
    var features := OrDefault(featureFile, DefaultFeatureConfig());
    var weights := OrDefault(weightsFile, DefaultWeightsConfig());
    if !weights.YDict? then Failure(NotAMapping)
    else Success(Config(features, Get(weights.entries, "base_weights", weights), None, "datadojo.part_priority_scoring"))
  }

  /**
   * The weights `get_default_config` selects: the `base_weights` entry when
   * the weights document has one, and the document itself otherwise.
   */
  lemma WeightSelection(featureFile: YamlRead, weightsFile: YamlRead)
    requires DefaultConfig(featureFile, weightsFile).Success?
    ensures var w := OrDefault(weightsFile, DefaultWeightsConfig());
            var r := DefaultConfig(featureFile, weightsFile).value;
            && ((forall k :: 0 <= k < |w.entries| ==> w.entries[k].0 != "base_weights") ==> r.weights == w)
            && ((exists k :: 0 <= k < |w.entries| && w.entries[k].0 == "base_weights") ==>
                  exists k :: 0 <= k < |w.entries| && w.entries[k].0 == "base_weights" && r.weights == w.entries[k].1)
  {
  }

  /** Without readable files the configuration is the built-in one, with the flat default weights. */
  lemma FallbackToDefaults(featureFile: YamlRead, weightsFile: YamlRead)
    requires !featureFile.Loaded? && !weightsFile.Loaded?
    ensures DefaultConfig(featureFile, weightsFile)
            == Success(Config(DefaultFeatureConfig(), DefaultWeightsConfig(), None, "datadojo.part_priority_scoring"))
  {
    var w := DefaultWeightsConfig();
    assert forall k :: 0 <= k < |w.entries| ==> w.entries[k].0 == DefaultWeightEntries()[k].0;
    DefaultWeightNames();
  }

  /** An empty weights file loads as null, and `.get` on it raises. */
  lemma EmptyWeightsFileFails(featureFile: YamlRead)
    ensures DefaultConfig(featureFile, Loaded(YNull)).Failure?
  {
  }

  function SumWeights(entries: seq<(string, real)>): real
    decreases |entries|
  {
    if entries == [] then 0.0 else SumWeights(entries[..|entries| - 1]) + entries[|entries| - 1].1
  }

  /** A name in which the letter `p` never occurs. */
  predicate NoP(s: string) {
    forall i :: 0 <= i < |s| ==> s[i] != 'p'
  }

  /** A name without the letter `p` does not contain "price". */
  lemma NoPNoPrice(s: string)
    requires NoP(s)
    ensures !Contains(s, "price")
  {
    forall k: nat | k <= |s|
      ensures !WindowAt(s, "price", k)
    {
      if k + 5 <= |s| {
        assert s[k..k + 5][0] == s[k];
      }
    }
  }

  /** The default weight names, none of them "base_weights", and none containing "price". */
  lemma DefaultWeightNames()
    ensures forall k :: 0 <= k < |DefaultWeightEntries()| ==>
              NoP(DefaultWeightEntries()[k].0) && DefaultWeightEntries()[k].0 != "base_weights"
  {
    var e := DefaultWeightEntries();
    assert e[0].0 == "demand_score" && e[1].0 == "availability_score" && e[2].0 == "inv_leadtime_weeks";
    assert e[3].0 == "inv_moq" && e[4].0 == "is_authorized";
    assert NoP("demand_score") && NoP("availability_score") && NoP("inv_leadtime_weeks");
    assert NoP("inv_moq") && NoP("is_authorized");
    assert "base_weights"[0] == 'b';
  }

  /** The default weights are positive, sum to exactly 1, and none of their names refers to price. */
  lemma DefaultWeightsFacts()
    ensures SumWeights(DefaultWeightEntries()) == 1.0
    ensures forall k :: 0 <= k < |DefaultWeightEntries()| ==>
              DefaultWeightEntries()[k].1 > 0.0 && !Contains(DefaultWeightEntries()[k].0, "price")
  {
    var e := DefaultWeightEntries();
    assert e[..1][..0] == [] && e[..2][..1] == e[..1] && e[..3][..2] == e[..2] && e[..4][..3] == e[..3];
    assert e[..5] == e && e[..5][..4] == e[..4];
    assert SumWeights(e[..1]) == 0.35;
    assert SumWeights(e[..2]) == 0.70;
    assert SumWeights(e[..3]) == 0.85;
    assert SumWeights(e[..4]) == 0.95;
    DefaultWeightNames();
    forall k | 0 <= k < |e|
      ensures !Contains(e[k].0, "price")
    {
      NoPNoPrice(e[k].0);
    }
  }

  /** No field of the default log or inverse transforms contains "price". */
  lemma DefaultFeaturesHaveNoPrice()
    ensures forall k :: 0 <= k < |LogTransforms()| ==> !Contains(LogTransforms()[k], "price")
    ensures forall k :: 0 <= k < |InverseTransforms()| ==> !Contains(InverseTransforms()[k], "price")
  {
    assert NoP("inventory") && NoP("moq") && NoP("leadtime_weeks");
    forall k | 0 <= k < |LogTransforms()|
      ensures !Contains(LogTransforms()[k], "price")
    {
      NoPNoPrice(LogTransforms()[k]);
    }
    forall k | 0 <= k < |InverseTransforms()|
      ensures !Contains(InverseTransforms()[k], "price")
    {
      NoPNoPrice(InverseTransforms()[k]);
    }
  }
}
