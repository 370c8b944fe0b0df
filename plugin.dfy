/**
 * The transformer's `handle`: the host context with its input list and the
 * output list the plugin appends to.
 */
module Plugin {
  import opened Wrappers
  import opened Strings
  import opened Settings
  import opened Pipeline
  import opened Batch

  /** The part of the host context `handle` uses. */
  class Context {
    /** `ctx.input`: the references to convert. */
    const input: seq<string>
    /** `ctx.getConfig("picgo-plugin-sharp")` */
    const pluginConfig: Option<PluginConfig>
    /** `ctx.getConfig("sharp")` */
    const sharpConfig: Option<SharpConfig>
    /** `ctx.output`: the records handed back to the host. */
    var output: seq<OutputRecord>

    constructor (input: seq<string>, pluginConfig: Option<PluginConfig>, sharpConfig: Option<SharpConfig>,
                 output: seq<OutputRecord>)
      ensures this.input == input && this.pluginConfig == pluginConfig && this.sharpConfig == sharpConfig
      ensures this.output == output
    {
      this.input := input;
      this.pluginConfig := pluginConfig;
      this.sharpConfig := sharpConfig;
      this.output := output;
    }

    /**
     * One item's task: obtain the original, encode it, name it, measure the
     * original and push the record; any failure ends that item with nothing pushed.
     */
    method HandleItem(env: Env, run: RunSettings, item: string)
      modifies this`output
      ensures output == old(output) + Contribution(ItemTask(env, run), item)
    {
      assert ItemTask(env, run)(item) == ProcessItem(env, run, item);
      var fetched := if IsRemote(item) then Fetch(env, item) else ReadLocal(env, item);
      if fetched.Err? {
        return;
      }
      var originBuffer := fetched.value;
      var transformBuffer := originBuffer;
      var converted := Convert(env, run, originBuffer);
      if converted.Err? {
        return;
      }
      transformBuffer := converted.value;
      var name := RealBaseName(item);
      var extname := "." + run.outputType;
      var size := env.ImageSize(originBuffer);
      if size.None? {
        return;
      }
      var buffer := if |originBuffer| < |transformBuffer| then originBuffer else transformBuffer;
      output := output + [OutputRecord(buffer, name + extname, size.value.width, size.value.height, extname)];
    }

    /**
     * `handle`: resolve the settings once, then run every item's task; the
     * records of the successful items are appended after what `ctx.output`
     * already held.
     */
    method Handle(env: Env)
      modifies this`output
      ensures output == old(output) + Emitted(ItemTask(env, Resolve(pluginConfig, sharpConfig)), input)
    {
      var run := Resolve(pluginConfig, sharpConfig);
      ghost var task := ItemTask(env, run);
      ghost var before := output;
      var i := 0;
      while i < |input|
        invariant 0 <= i <= |input|
        invariant output == before + Emitted(task, input[..i])
      {
        EmittedStep(task, before, input, i, output);
        HandleItem(env, run, input[i]);
        i := i + 1;
      }
      assert input[..i] == input;
    }
  }
}
