/**
 * The two configuration namespaces the plugin reads (`picgo-plugin-sharp`
 * and `sharp`), how a run resolves them, and the schema `config` shows the user.
 */
module Settings {
  import opened Wrappers
  import opened Formats

  /** A sharp option bag (quality, lossless, ...), kept as opaque key/value pairs. */
  datatype OptionBag = OptionBag(entries: map<string, string>)

  /** The `picgo-plugin-sharp` namespace: `{ outputType? }`, the stored key as a string. */
  datatype PluginConfig = PluginConfig(outputType: Option<string>)

  /** The `sharp` namespace: option bags keyed by format name. */
  datatype SharpConfig = SharpConfig(
    outputOptions: Option<map<string, OptionBag>>,
    inputOptions: Option<map<string, OptionBag>>)

  /** What `handle` resolves once per batch. */
  datatype RunSettings = RunSettings(
    outputType: string,
    outputOptions: Option<OptionBag>,
    inputOptions: Option<OptionBag>)

  /** `cfg?.outputType`: the stored output type, if any. */
  function StoredOutputType(cfg: Option<PluginConfig>): Option<string>
  {
    if cfg.Some? then cfg.value.outputType else None
  }

  /** `bags?.[key]`: the option bag stored under `key`, if any. */
  function BagFor(bags: Option<map<string, OptionBag>>, key: string): (r: Option<OptionBag>)
    ensures r.Some? <==> bags.Some? && key in bags.value
    ensures r.Some? ==> r.value == bags.value[key]
  {
    if bags.Some? && key in bags.value then Some(bags.value[key]) else None
  }

  /**
   * Run settings: the stored output type or `"webp"`, and both option bags
   * looked up under that same key (either may be absent).
   */
  function Resolve(cfg: Option<PluginConfig>, sharpCfg: Option<SharpConfig>): (r: RunSettings)
    ensures StoredOutputType(cfg).Some? ==> r.outputType == StoredOutputType(cfg).value
    ensures StoredOutputType(cfg).None? ==> r.outputType == "webp"
    ensures r.outputOptions.Some? <==>
              sharpCfg.Some? && sharpCfg.value.outputOptions.Some? && r.outputType in sharpCfg.value.outputOptions.value
    ensures r.outputOptions.Some? ==> r.outputOptions.value == sharpCfg.value.outputOptions.value[r.outputType]
    ensures r.inputOptions.Some? <==>
              sharpCfg.Some? && sharpCfg.value.inputOptions.Some? && r.outputType in sharpCfg.value.inputOptions.value
    ensures r.inputOptions.Some? ==> r.inputOptions.value == sharpCfg.value.inputOptions.value[r.outputType]
  {
    var outputType := match StoredOutputType(cfg) case Some(t) => t case None => "webp";
    var outputBags := if sharpCfg.Some? then sharpCfg.value.outputOptions else None;
    var inputBags := if sharpCfg.Some? then sharpCfg.value.inputOptions else None;
    RunSettings(outputType, BagFor(outputBags, outputType), BagFor(inputBags, outputType))
  }

  /** One entry of the schema `config` returns to the host. */
  datatype ConfigItem = ConfigItem(
    alias: string,
    name: string,
    kind: string,
    choices: seq<string>,
    default: string,
    required: bool)

  /** The format keys the schema offers, in `transformTypeList` order. */
  function Choices(): (c: seq<string>)
    ensures |c| == |TransformTypeList|
    ensures forall i :: 0 <= i < |c| ==> c[i] == Name(TransformTypeList[i])
  {
    seq(|TransformTypeList|, i requires 0 <= i < |TransformTypeList| => Name(TransformTypeList[i]))
  }

  /**
   * `config`: a single required list field `outputType` ("压缩格式") offering
   * the six format keys, whose displayed default is the stored value or `"avif"`.
   */
  function Schema(cfg: Option<PluginConfig>): (items: seq<ConfigItem>)
    ensures |items| == 1
    ensures items[0].name == "outputType" && items[0].kind == "list" && items[0].required
    ensures items[0].alias == "\U{538B}\U{7F29}\U{683C}\U{5F0F}"
    ensures items[0].choices == Choices()
    ensures StoredOutputType(cfg).Some? ==> items[0].default == StoredOutputType(cfg).value
    ensures StoredOutputType(cfg).None? ==> items[0].default == "avif"
  {
    var outputType := match StoredOutputType(cfg) case Some(t) => t case None => "avif";
    [ConfigItem("\U{538B}\U{7F29}\U{683C}\U{5F0F}", "outputType", "list", Choices(), outputType, true)]
  }

  /** The schema offers exactly the six formats, each once, and every choice has an encoder. */
  lemma SchemaChoicesAreTheFormats(cfg: Option<PluginConfig>)
    ensures |Schema(cfg)[0].choices| == 6
    ensures forall t :: Name(t) in Schema(cfg)[0].choices
    ensures forall c :: c in Schema(cfg)[0].choices ==> Dispatch(c).Some?
    ensures forall i, j :: 0 <= i < j < 6 ==> Schema(cfg)[0].choices[i] != Schema(cfg)[0].choices[j]
  {
    var c := Schema(cfg)[0].choices;
    TransformTypeListComplete();
    forall t ensures Name(t) in c {
      match t
      case Jpeg => assert c[0] == Name(t);
      case Png => assert c[1] == Name(t);
      case Gif => assert c[2] == Name(t);
      case Webp => assert c[3] == Name(t);
      case Avif => assert c[4] == Name(t);
      case Heif => assert c[5] == Name(t);
    }
    forall x | x in c ensures Dispatch(x).Some? {
      var i :| 0 <= i < |c| && c[i] == x;
      assert Dispatch(x) == Some(TransformTypeList[i]);
    }
    forall i, j | 0 <= i < j < 6 ensures c[i] != c[j] {
      NameInjective(TransformTypeList[i], TransformTypeList[j]);
    }
  }

  /**
   * The displayed default and the runtime default agree on any stored value,
   * and differ when nothing is stored: the schema shows `avif`, a run uses `webp`.
   */
  lemma DefaultsDifferOnlyWhenUnset(cfg: Option<PluginConfig>, sharpCfg: Option<SharpConfig>)
    ensures StoredOutputType(cfg).Some? ==> Schema(cfg)[0].default == Resolve(cfg, sharpCfg).outputType
    ensures StoredOutputType(cfg).None? ==>
              Schema(cfg)[0].default == "avif" && Resolve(cfg, sharpCfg).outputType == "webp"
  {
  }
}
