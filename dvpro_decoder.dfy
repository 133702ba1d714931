/**
 * The Dolby Vision professional decoder element (GstDvprodecoder): its
 * properties, its defaults, the picture-ready callback acting on the base
 * class's frame registry, and the calls it makes into the decoding engine.
 *
 * The engine is a foreign binary: the element's calls into it are recorded
 * as a trace of `EngineCall`s, and `dvpd_get_output_config` is the function
 * `configOf` fixed when the element is built.
 */
module DvproDecoder {
  import opened Wrappers
  import opened DvproFormats
  import opened DvproReconciler
  import opened FixedWidth

  /** The Dolby Vision profiles the input-mode property accepts. */
  datatype InputProfile = Profile4 | Profile5 | Profile8

  /** The part of the engine configuration (dvpd_config_t) the element sets. */
  datatype Config = Config(inputMode: InputProfile, outputConfig: OutputConfig)

  /** The platform the element was built for; it decides the default plugin name. */
  datatype Platform = Windows | Apple | OtherPlatform

  /** hevc_plugin_name is a 1024-byte buffer: at most 1023 characters and the NUL. */
  const MaxNameLength: nat := 1023

  /** The HEVC decoder plugin the engine loads when none is set. */
  function DefaultPluginName(p: Platform): (r: string)
    ensures 0 < |r| <= MaxNameLength
  {
    match p
    case Windows => "DlbHevcDecPlugin.dll"
    case Apple => "libDlbHevcDecPlugin.dylib"
    case OtherPlatform => "libDlbHevcDecPlugin.so"
  }

  /** What g_snprintf leaves in the name buffer: the longest prefix that fits. */
  function StoredName(s: string): (r: string)
    ensures r <= s && |r| <= MaxNameLength
    ensures |s| <= MaxNameLength ==> r == s
    ensures |s| > MaxNameLength ==> |r| == MaxNameLength
  {
    if |s| <= MaxNameLength then s else s[..MaxNameLength]
  }

  /** A name read back and stored again is stored unchanged. */
  lemma StoredNameIdempotent(s: string)
    ensures StoredName(StoredName(s)) == StoredName(s)
  {
  }

  /** Two names that agree on their first 1023 characters are stored alike. */
  lemma StoredNameSeesOnlyThePrefix(s: string, t: string)
    requires |s| > MaxNameLength && |t| > MaxNameLength
    requires s[..MaxNameLength] == t[..MaxNameLength]
    ensures StoredName(s) == StoredName(t)
  {
  }

  /** The element's four properties. */
  datatype PropertyId = InputModeProp | OutputModeProp | DmVersionProp | HevcPluginProp

  /** A property value as GObject passes it. */
  datatype PropertyValue =
    | InputModeValue(profile: InputProfile)
    | OutputModeValue(mode: OutputMode)
    | DmVersionValue(algo: DmAlgo)
    | HevcPluginValue(name: string)

  function IdOf(v: PropertyValue): PropertyId {
    match v
    case InputModeValue(_) => InputModeProp
    case OutputModeValue(_) => OutputModeProp
    case DmVersionValue(_) => DmVersionProp
    case HevcPluginValue(_) => HevcPluginProp
  }

  /** The value a get returns after a set of `v`: `v` itself, but for a plugin
      name cut to what the buffer holds. */
  function Stored(v: PropertyValue): (r: PropertyValue)
    ensures IdOf(r) == IdOf(v)
    ensures !v.HevcPluginValue? ==> r == v
    ensures v.HevcPluginValue? ==> r == HevcPluginValue(StoredName(v.name))
    ensures v.HevcPluginValue? ==> r.name <= v.name && |r.name| <= MaxNameLength
  {
    if v.HevcPluginValue? then HevcPluginValue(StoredName(v.name)) else v
  }

  /** Elementary-stream layers of a push; the element only pushes the base layer. */
  datatype Layer = BaseLayer | EnhancementLayer

  /** A call into the engine, with the handle it was made on (`None` is NULL). */
  datatype EngineCall =
    | Create
    | Init(handle: Option<nat>, cfg: Config, pluginName: string)
    | Push(handle: Option<nat>, layer: Layer, data: Payload, pts: int, dts: int)
    | Join(handle: Option<nat>)
    | Reset(handle: Option<nat>)
    | Deinit(handle: Option<nat>)
    | Destroy(handle: Option<nat>)

  /** A GstClockTime (an unsigned 64-bit value, NONE being all ones) passed as
      the engine's signed 64-bit timestamp: the clock time's low 64 bits, read
      as `int64_t` by `Int64Of`. */
  function ClockToInt64(t: Option<int>): (r: int)
    ensures Int64Min <= r < -Int64Min
    ensures t.None? ==> r == -1
    ensures t.Some? ==> (r - t.value) % Two64 == 0
    ensures t.Some? && 0 <= t.value < -Int64Min ==> r == t.value
  {
    Int64Of(if t.None? then Two64 - 1 else t.value % Two64)
  }

  /** Clock times below 2^63 reach the engine unchanged, so distinct ones stay
      distinct and none of them reads as NONE (-1). */
  lemma ClockToInt64Injective(s: Option<int>, t: Option<int>)
    requires s.Some? ==> 0 <= s.value < -Int64Min
    requires t.Some? ==> 0 <= t.value < -Int64Min
    ensures ClockToInt64(s) == ClockToInt64(t) <==> s == t
  {
  }

  /** The result of the finish virtual method. */
  datatype FlowReturn = FlowOk

  /** The element. Besides the fields of the instance structure it holds the
      base class's state the callback works on: the ordered registry of
      pending frames, the negotiated output state and the frames finished so
      far, plus the trace of engine calls. */
  class Dvprodecoder {
    const configOf: OutputMode -> OutputConfig
    var ctx: Option<nat>
    var cfg: Config
    var hevcPluginName: string
    var outputMode: OutputMode
    var frames: seq<Frame>
    var outState: Option<OutputState>
    var finished: seq<Frame>
    var engineCalls: seq<EngineCall>

    predicate Valid()
      reads this
    {
      |hevcPluginName| <= MaxNameLength
    }

    /** gst_dvprodecoder_init: no engine handle, profile 5, the 8-bit SDR
        display-management mode and the engine's configuration for it, the
        platform's plugin name. */
    constructor (configOf: OutputMode -> OutputConfig, platform: Platform)
      ensures Valid()
      ensures this.configOf == configOf
      ensures ctx == None
      ensures cfg == Config(Profile5, configOf(DmSdr100Bt709_8))
      ensures outputMode == DmSdr100Bt709_8
      ensures hevcPluginName == DefaultPluginName(platform)
      ensures frames == [] && outState == None && finished == [] && engineCalls == []
    {
      this.configOf := configOf;
      ctx := None;
      hevcPluginName := DefaultPluginName(platform);
      outputMode := DmSdr100Bt709_8;
      cfg := Config(Profile5, configOf(DmSdr100Bt709_8));
      frames := [];
      outState := None;
      finished := [];
      engineCalls := [];
    }

    /** gst_dvprodecoder_get_property. A plugin name read back always fits
        the name buffer. */
    function GetProperty(id: PropertyId): (v: PropertyValue)
      reads this
      ensures IdOf(v) == id
      ensures Valid() && id == HevcPluginProp ==> |v.name| <= MaxNameLength
    {
      match id
      case InputModeProp => InputModeValue(cfg.inputMode)
      case OutputModeProp => OutputModeValue(outputMode)
      case DmVersionProp => DmVersionValue(cfg.outputConfig.algo)
      case HevcPluginProp => HevcPluginValue(hevcPluginName)
    }

    /** gst_dvprodecoder_set_property. A get of the same property then returns
        the stored value. Setting the output mode replaces the whole output
        configuration by the engine's one for that mode, with the element's
        overrides, and so also replaces the DM version. */
    method SetProperty(v: PropertyValue)
      requires Valid()
      modifies this`cfg, this`outputMode, this`hevcPluginName
      ensures Valid()
      ensures GetProperty(IdOf(v)) == Stored(v)
      ensures v.InputModeValue? ==>
        cfg == old(cfg).(inputMode := v.profile) &&
        outputMode == old(outputMode) && hevcPluginName == old(hevcPluginName)
      ensures v.OutputModeValue? ==>
        cfg == old(cfg).(outputConfig := WithOverrides(configOf(v.mode), v.mode)) &&
        outputMode == v.mode && hevcPluginName == old(hevcPluginName)
      ensures v.DmVersionValue? ==>
        cfg == old(cfg).(outputConfig := old(cfg).outputConfig.(algo := v.algo)) &&
        outputMode == old(outputMode) && hevcPluginName == old(hevcPluginName)
      ensures v.HevcPluginValue? ==>
        cfg == old(cfg) && outputMode == old(outputMode) && hevcPluginName == StoredName(v.name)
    {
      match v
      case InputModeValue(p) =>
        cfg := cfg.(inputMode := p);
      case OutputModeValue(m) =>
        outputMode := m;
        var oc := configOf(m);
        if m == DolbyVisionHdmi {
          oc := oc.(arrangement := Planar422, dmMetadataEmbedding := false);
        } else if IsRgbFull(m) {
          oc := oc.(arrangement := Planar444);
        }
        cfg := cfg.(outputConfig := oc);
      case DmVersionValue(a) =>
        cfg := cfg.(outputConfig := cfg.outputConfig.(algo := a));
      case HevcPluginValue(s) =>
        hevcPluginName := if |s| <= MaxNameLength then s else s[..MaxNameLength];
    }

    /** on_output_picture_cb_func. On the first picture the output state is
        negotiated from the current mode and the picture's geometry (warning
        on a mode the table does not know); later pictures leave it alone.
        The picture is then delivered into the frame `Complete` selects, which
        leaves the registry and is finished. The registry must not be empty. */
    method OnOutputPicture(pic: OutputPicture) returns (warned: bool)
      requires frames != []
      modifies this`frames, this`outState, this`finished
      ensures outState == Negotiated(old(outState), outputMode, pic)
      ensures warned <==> old(outState).None? && outputMode.Unrecognised?
      ensures frames == Complete(old(frames), pic).remaining
      ensures finished == old(finished) + [Complete(old(frames), pic).done]
    {
      warned := false;
      if outState.None? {
        var choice := FormatFor(outputMode);
        warned := choice.warned;
        outState := Some(OutputState(choice.format, pic.width, pic.height));
      }

      var found := FindCustom(frames, pic, Pts);
      if found.None? {
        found := FindCustom(frames, pic, Dts);
      }
      var i := 0;
      if found.Some? {
        i := found.value;
      } else {
        frames := frames[0 := frames[0].(pts := None, dts := pic.dts)];
      }

      var frame := frames[i].(output := Some(pic.payload));
      frames := frames[..i] + frames[i + 1..];
      finished := finished + [frame];
    }

    /** gst_dvprodecoder_start: create an engine instance and initialise it
        with the current configuration and plugin name. */
    method Start(created: Option<nat>) returns (ok: bool)
      modifies this`ctx, this`engineCalls
      ensures ok
      ensures ctx == created
      ensures engineCalls == old(engineCalls) + [Create, Init(created, cfg, hevcPluginName)]
    {
      ctx := created;
      engineCalls := engineCalls + [Create, Init(ctx, cfg, hevcPluginName)];
      ok := true;
    }

    /** gst_dvprodecoder_stop: reset, deinitialise and destroy the engine
        instance, in that order; destroy clears the handle it is given. */
    method Stop() returns (ok: bool)
      modifies this`ctx, this`engineCalls
      ensures ok
      ensures ctx == None
      ensures engineCalls == old(engineCalls) + [Reset(old(ctx)), Deinit(old(ctx)), Destroy(old(ctx))]
    {
      engineCalls := engineCalls + [Reset(ctx), Deinit(ctx)];
      engineCalls := engineCalls + [Destroy(ctx)];
      ctx := None;
      ok := true;
    }

    /** gst_dvprodecoder_flush: reset the engine. */
    method Flush() returns (ok: bool)
      modifies this`engineCalls
      ensures ok
      ensures engineCalls == old(engineCalls) + [Reset(ctx)]
    {
      engineCalls := engineCalls + [Reset(ctx)];
      ok := true;
    }

    /** gst_dvprodecoder_finish: push the end-of-stream sentinel (no data,
        both timestamps INT64_MIN) on the base layer, then wait for the
        engine to drain. */
    method Finish() returns (r: FlowReturn)
      modifies this`engineCalls
      ensures r == FlowOk
      ensures engineCalls == old(engineCalls) + [Push(ctx, BaseLayer, [], Int64Min, Int64Min), Join(ctx)]
    {
      engineCalls := engineCalls + [Push(ctx, BaseLayer, [], Int64Min, Int64Min)];
      engineCalls := engineCalls + [Join(ctx)];
      r := FlowOk;
    }

    /** gst_dvprodecoder_handle_frame, with the base class's registration of
        the frame before it: the frame joins the end of the registry and its
        access unit is pushed on the base layer with its timestamps. */
    method HandleFrame(frame: Frame) returns (r: FlowReturn)
      modifies this`frames, this`engineCalls
      ensures r == FlowOk
      ensures frames == old(frames) + [frame]
      ensures engineCalls == old(engineCalls) +
        [Push(ctx, BaseLayer, frame.input, ClockToInt64(frame.pts), ClockToInt64(frame.dts))]
    {
      frames := frames + [frame];
      engineCalls := engineCalls + [Push(ctx, BaseLayer, frame.input, ClockToInt64(frame.pts), ClockToInt64(frame.dts))];
      r := FlowOk;
    }
  }

  /** The defaults agree with setting the default mode: the 8-bit SDR mode has
      no override, so the configuration init reads from the engine is the one
      the output-mode property would install. */
  lemma DefaultConfigIsTheDefaultModesConfig(configOf: OutputMode -> OutputConfig)
    ensures WithOverrides(configOf(DmSdr100Bt709_8), DmSdr100Bt709_8) == configOf(DmSdr100Bt709_8)
  {
  }
}
