# Dolby Vision professional decoder: element and base-layer plugin, modelled in Dafny

This project models the two adapters around the Dolby Vision professional
decoding engine and proves properties of the model.

**The GStreamer element `dvprodecoder`** (`gstreamer_example/gstdvprodecoder.c`).
- Its properties, with their defaults and their get/set behaviour.
- The order of its calls into the engine on start, stop, flush, finish and handle_frame.
- Above all, the picture-ready callback. It:
  - negotiates the output format once, from the output mode;
  - delivers each decoded picture into one pending frame of the base class's ordered registry: the first frame whose PTS matches, otherwise the first whose DTS matches, otherwise the oldest frame, whose timestamps it rewrites.

**The FFmpeg HEVC base-layer plugin** (`hevc_ffmpeg_plugin/ffmpeg_hevc_dec_plugin.c`).
- The lifecycle of its context record: create, init (which cleans up on failure), deinit, decode, flush, is_init and destroy.
- The receive loop and its bit-depth switch.
- The processor-count clamp.

Modules, one per concern:

- `Wrappers` (`wrappers.dfy`): `Option`, standing for a NULL-able pointer or an unset timestamp.
- `FixedWidth` (`fixed_width.dfy`): the C integer types both adapters store into, and the narrowing and reinterpreting conversions between them, defined once and used by both.
- `DvproFormats` (`dvpro_formats.dfy`):
  - the 19 output modes and the table from mode to pixel format;
  - the output-configuration overrides that setting the mode applies.
- `DvproReconciler` (`dvpro_reconciler.dfy`): the callback's selection logic as pure functions on a `seq<Frame>` registry.
  - The comparators keep the source's narrowing of a 64-bit difference to `gint`, so "match" means the low 32 bits of the difference are zero.
  - Lemmas cover single callbacks and whole runs of callbacks.
- `DvproDecoder` (`dvpro_decoder.dfy`): the element as a class.
  - Its fields are those of the instance structure, plus the base-class state the callback works on.
  - Its methods are specified against the functions above.
  - Calls into the engine are recorded as a trace.
  - `dvpd_get_output_config` is an uninterpreted function `configOf`, given when the element is built.
- `FfmpegHevcDecPlugin` (`ffmpeg_plugin.dfy`):
  - the context as a pure state `CtxState`, with `InitStep` and `DeinitStep`;
  - the context as a class `VidDecCtx`, whose methods are proved against that state;
  - the plugin's entry points as methods over a NULL-able handle.

  What FFmpeg and the operating system return is a parameter:
  - `InitEnv` holds the outcome of each allocation, lookup and open in init, plus the reported processor count;
  - `sent` is whether `avcodec_send_packet` succeeded;
  - a script of `Received` values gives what successive `avcodec_receive_frame` calls return.

Properties can be set at any time, including while a session runs, and the element never clears the negotiated output state itself. The base class does that on stop, which is not modelled (see Left out). The comparators narrow a 64-bit subtraction to `gint` instead of testing equality. The model keeps the narrowing, proves equality only for stamps less than 2^32 apart (`MatchIsEqualityWhenClose`) and exhibits the difference (`DistantStampsMatch`).

## Model

| member | source | states |
|---|---|---|
| DvproFormats.FormatFor | gstreamer_example/gstdvprodecoder.c:214-282 | Every output mode gets the pixel format whose layout its name announces: GBR for the four full-range RGB modes, 4:2:2 for HDMI, 4:2:0 otherwise. Its bit depth is the name's `_8`/`_10`/`_12` suffix, or 12 where there is none. Only a mode outside the table warns. |
| DvproFormats.FormatTable | gstreamer_example/gstdvprodecoder.c:214-282 | The table case by case: RGB full modes give GBR_10LE/GBR_12LE by suffix; DOLBY_VISION_HDMI gives I422_12LE; DM_SDR100_BT709_8 gives I420. Every other mode, unrecognised ones included, gives I420_10LE or I420_12LE by suffix. |
| DvproFormats.FormatDeterminedByDepthAndLayout | gstreamer_example/gstdvprodecoder.c:214-282 | The six formats the table uses are told apart by depth and layout alone. |
| DvproFormats.WithOverrides | gstreamer_example/gstdvprodecoder.c:437-459 | The overrides applied after the engine's configuration for a mode is read. HDMI forces the 4:2:2 arrangement and turns metadata embedding off. The RGB full modes force 4:4:4. Every other mode keeps the configuration unchanged. The forced arrangement is the one carrying the format the table picks for that mode. The algorithm version is never touched. |
| FixedWidth.Int32Of | gstreamer_example/gstdvprodecoder.c:182 | A wider integer stored in an `int`: the comparators' 64-bit difference narrowed to `gint`, and the plugin's `uint32_t` packet size stored in AVPacket's `int` size. The result lies in the 32-bit range, is congruent to the difference modulo 2^32, and is 0 exactly when the value is a multiple of 2^32, and is the value itself when it fits. |
| DvproReconciler.Compare | gstreamer_example/gstdvprodecoder.c:172-196 | Each comparator returns 0 exactly when both timestamps are set and agree in their low 32 bits; it returns 1 when either is NONE. |
| DvproReconciler.MatchIsEqualityWhenClose | gstreamer_example/gstdvprodecoder.c:172-196 | For timestamps less than 2^32 apart, a comparator match is plain equality. |
| DvproReconciler.DistantStampsMatch | gstreamer_example/gstdvprodecoder.c:182 | Two different timestamps exactly 2^32 apart still match. |
| DvproReconciler.FindCustom | gstreamer_example/gstdvprodecoder.c:290-311 | The search returns the first frame in registry order that the comparator accepts, or none when no frame matches. |
| DvproReconciler.Select | gstreamer_example/gstdvprodecoder.c:290-322 | A PTS match is taken exactly when one exists, and it is the first one. A DTS match is taken exactly when there is no PTS match and a DTS match exists, and it is the first one. Otherwise the oldest frame (index 0) is taken. |
| DvproReconciler.Complete | gstreamer_example/gstdvprodecoder.c:313-327 | The selected frame leaves the registry; every other frame keeps its value and order. The finished frame keeps its identity and input and carries the picture's payload. After a timestamp match it keeps its own timestamps. After the oldest-frame fallback its PTS is NONE and its DTS is the picture's. |
| DvproReconciler.CompleteRemovesExactlyOne | gstreamer_example/gstdvprodecoder.c:317-327 | A callback shrinks the registry by exactly one element. The remaining frames plus the selected one are the old registry as a multiset. |
| DvproReconciler.CompleteMatched | gstreamer_example/gstdvprodecoder.c:292-311 | After a timestamp match, the finished frame is the matched one unchanged except for its payload. |
| DvproReconciler.Negotiated | gstreamer_example/gstdvprodecoder.c:209-288 | When there is no output state yet, one is set with `FormatFor`'s format for the current mode, so its layout is the one the mode's name announces, and with the picture's width and height. An existing state is kept unchanged. |
| DvproReconciler.FirstPictureFixesOutputState | gstreamer_example/gstdvprodecoder.c:209-288 | Over any run of callbacks, whatever the later pictures' sizes and whatever mode is set meanwhile, the output state is the one the first picture fixed. |
| DvproReconciler.KeptOnceNegotiated | gstreamer_example/gstdvprodecoder.c:285-288 | Once an output state exists, no later callback changes it. |
| DvproReconciler.RunAll | gstreamer_example/gstdvprodecoder.c:203-328 | n callbacks on a registry of at least n frames finish n frames and leave the rest. |
| DvproReconciler.UnstampedFramesFinishInOrder | gstreamer_example/gstdvprodecoder.c:313-322 | When no frame has a timestamp, frames finish in registry order. Each loses its PTS and takes its picture's DTS. The registry keeps exactly the frames not yet reached. |
| DvproReconciler.UnstampedFallsBack | gstreamer_example/gstdvprodecoder.c:313-327 | On an unstamped registry a picture goes into the oldest frame, and the frames that remain are still unstamped. |
| DvproReconciler.SelectsTheFrameWithEqualStamp | gstreamer_example/gstdvprodecoder.c:290-311 | If stamps are set, distinct and less than 2^32 apart, a picture carrying a frame's stamp selects that frame. The key is the PTS, or the DTS when no frame has a PTS. |
| DvproReconciler.EveryPictureFindsItsFrame | gstreamer_example/gstdvprodecoder.c:203-328 | Take N pending frames with distinct set stamps and N pictures carrying the same stamps in any order. Each picture is delivered into the frame with its stamp, and the registry ends empty. |
| DvproReconciler.ScenarioIsMatched | gstreamer_example/gstdvprodecoder.c:290-311 | In that scenario the fallback is never taken. |
| DvproReconciler.MatchedRunKeepsFrames | gstreamer_example/gstdvprodecoder.c:324-327 | In a run where every picture matches by timestamp, the finished and remaining frames, payloads aside, are the original registry as a multiset. |
| DvproReconciler.EveryFrameFinishesOnce | gstreamer_example/gstdvprodecoder.c:203-328 | In the timestamp scenario every frame is finished exactly once, unaltered except for its payload. |
| DvproReconciler.FirstPictureStep | gstreamer_example/gstdvprodecoder.c:290-327 | In the timestamp scenario, the first callback finishes the frame carrying the first picture's stamp. The rest of the registry and the rest of the pictures form the scenario again. |
| DvproDecoder.DefaultPluginName | gstreamer_example/gstdvprodecoder.c:406-413 | The platform's default plugin name is non-empty and fits the name buffer. |
| DvproDecoder.StoredName | gstreamer_example/gstdvprodecoder.h:56 | What the 1024-byte name buffer keeps is a prefix of the name, at most 1023 characters long. It is the whole name when that fits, and exactly 1023 characters when it does not. |
| DvproDecoder.StoredNameIdempotent | gstreamer_example/gstdvprodecoder.c:463-465 | Setting the name read back by a get stores the same name. |
| DvproDecoder.StoredNameSeesOnlyThePrefix | gstreamer_example/gstdvprodecoder.c:464 | Names agreeing on their first 1023 characters are stored alike. |
| DvproDecoder.Stored | gstreamer_example/gstdvprodecoder.c:425-497 | The value a get returns after a set is the set value for input-mode, output-mode and dm-version. For hevc-plugin it is `StoredName` of the name: its longest prefix of at most 1023 characters. |
| DvproDecoder.ClockToInt64 | gstreamer_example/gstdvprodecoder.c:573 | A buffer's clock time reaches the engine's signed 64-bit parameter as the same value modulo 2^64. NONE arrives as -1, and times below 2^63 arrive unchanged. |
| DvproDecoder.ClockToInt64Injective | gstreamer_example/gstdvprodecoder.c:573 | Clock times below 2^63, NONE included, reach the engine pairwise distinct. |
| DvproDecoder.DefaultConfigIsTheDefaultModesConfig | gstreamer_example/gstdvprodecoder.c:418-422 | The configuration init reads for the default mode is the one the output-mode property would install for that mode. |
| DvproDecoder.Dvprodecoder.constructor | gstreamer_example/gstdvprodecoder.c:401-423 | Init leaves no engine handle, profile 5, the DM_SDR100_BT709_8 output mode, the engine's configuration for that mode and the platform's plugin name. The registry and trace start empty. |
| DvproDecoder.Dvprodecoder.GetProperty | gstreamer_example/gstdvprodecoder.c:472-497 | Each property id reads back a value of that property, and on a valid element a plugin name read back fits the 1024-byte buffer. |
| DvproDecoder.Dvprodecoder.SetProperty | gstreamer_example/gstdvprodecoder.c:425-470 | A get of the property just set returns the stored value. Input-mode, dm-version and hevc-plugin change only their own field. Output-mode stores the mode and replaces the whole output configuration, DM version included, by the engine's one for the mode with the overrides applied. Input mode and plugin name are untouched. |
| DvproDecoder.Dvprodecoder.OnOutputPicture | gstreamer_example/gstdvprodecoder.c:203-328 | The registry must not be empty. The output state becomes `Negotiated`, with a warning exactly on the first picture under an unknown mode. The registry becomes `Complete`'s remainder, and the finished frame is appended to the frames handed downstream. |
| DvproDecoder.Dvprodecoder.Start | gstreamer_example/gstdvprodecoder.c:499-510 | Start stores the created handle, calls create and then init with the current configuration and plugin name, and succeeds. |
| DvproDecoder.Dvprodecoder.Stop | gstreamer_example/gstdvprodecoder.c:512-524 | Stop calls reset, deinit and destroy on the handle, in that order, leaves no handle, and succeeds. |
| DvproDecoder.Dvprodecoder.Flush | gstreamer_example/gstdvprodecoder.c:526-540 | Flush calls reset on the handle and succeeds. |
| DvproDecoder.Dvprodecoder.Finish | gstreamer_example/gstdvprodecoder.c:542-558 | Finish pushes the end-of-stream sentinel and then calls join. The sentinel is the base layer, no data, and pts = dts = INT64_MIN. |
| DvproDecoder.Dvprodecoder.HandleFrame | gstreamer_example/gstdvprodecoder.c:560-581 | The frame joins the end of the registry. Its access unit is pushed on the base layer with its clock times as signed 64-bit values. |
| FfmpegHevcDecPlugin.CpuCount | hevc_ffmpeg_plugin/ffmpeg_hevc_dec_plugin.c:62-82 | The thread count lies in [1, 16]. It is the reported count when that lies in range, 1 below it, and 16 above it. |
| FfmpegHevcDecPlugin.CpuCountMonotonic | hevc_ffmpeg_plugin/ffmpeg_hevc_dec_plugin.c:62-82 | More reported processors never give fewer threads. |
| FfmpegHevcDecPlugin.BitDepth | hevc_ffmpeg_plugin/ffmpeg_hevc_dec_plugin.c:278-289 | YUV420P gives depth 8 and YUV420P10LE gives 10. Every other format has no depth. |
| FixedWidth.Int64Of | hevc_ffmpeg_plugin/ffmpeg_hevc_dec_plugin.c:331-332 | A `uint64_t` timestamp stored in the packet's `int64_t` field keeps its value modulo 2^64, and values below 2^63 are unchanged. The element's `ClockToInt64` is defined through it. |
| FixedWidth.UInt64Of | hevc_ffmpeg_plugin/ffmpeg_hevc_dec_plugin.c:331-332 | The reverse reinterpretation keeps the value modulo 2^64, and non-negative values are unchanged. |
| FixedWidth.TimestampRoundTrip | hevc_ffmpeg_plugin/ffmpeg_hevc_dec_plugin.c:331-332 | The two reinterpretations are mutual inverses, so timestamps pass through unmodified. |
| FixedWidth.Int16Of | hevc_ffmpeg_plugin/ffmpeg_hevc_dec_plugin.c:296-297 | A frame dimension stored in the picture's `int16_t` field wraps modulo 2^16 and is unchanged when it fits. |
| FfmpegHevcDecPlugin.PictureOf | hevc_ffmpeg_plugin/ffmpeg_hevc_dec_plugin.c:291-304 | The picture handed on for a frame: its first three planes, its width and height stored as `int16_t`, which is in range and unchanged when it fits, the depth the format switch gave, the frame's pts and packet dts, and no application-specific data. |
| FfmpegHevcDecPlugin.Delivered | hevc_ffmpeg_plugin/ffmpeg_hevc_dec_plugin.c:261-307 | The receive loop's callbacks for a script of receive results: never more callbacks than results received. `DeliveredIsLongestSupportedPrefix` characterises them exactly. |
| FfmpegHevcDecPlugin.LargePacketSizeWraps | hevc_ffmpeg_plugin/ffmpeg_hevc_dec_plugin.c:330 | Packet sizes of 2^31 and 2^32-1 reach FFmpeg as -2^31 and -1. The largest `int`, 2^31-1, is kept. |
| FfmpegHevcDecPlugin.DeliveredIsLongestSupportedPrefix | hevc_ffmpeg_plugin/ffmpeg_hevc_dec_plugin.c:261-307 | The receive loop calls back once per frame, in order, for the longest run of supported frames it receives. It stops at the first EAGAIN, EOF, error or unsupported format. |
| FfmpegHevcDecPlugin.DeliveredFrom | hevc_ffmpeg_plugin/ffmpeg_hevc_dec_plugin.c:261-307 | One iteration of the loop: a supported frame yields one callback and the loop continues. Anything else ends the loop. |
| FfmpegHevcDecPlugin.DeliveredPictures | hevc_ffmpeg_plugin/ffmpeg_hevc_dec_plugin.c:278-306 | Every delivered picture has depth 8 or 10 and no application-specific data. It carries the frame's pts and packet dts, and the context's callback, app data and layer. |
| FfmpegHevcDecPlugin.UnsupportedFrameEndsTheLoop | hevc_ffmpeg_plugin/ffmpeg_hevc_dec_plugin.c:286-289 | An unsupported frame gets no callback, and neither does any later frame. |
| FfmpegHevcDecPlugin.Bail | hevc_ffmpeg_plugin/ffmpeg_hevc_dec_plugin.c:175-195 | The cleanup path releases the codec context, the frame and the packet, and leaves the flag clear. |
| FfmpegHevcDecPlugin.InitStep | hevc_ffmpeg_plugin/ffmpeg_hevc_dec_plugin.c:106-196 | An initialised context is refused unchanged. Otherwise the callback, app data and layer are stored even when init then fails. Init succeeds exactly when every allocation, the lookup and the open succeed. Success sets the flag and holds all three resources, with the codec context opened on the clamped thread count. Failure leaves the flag clear and holds none of them. |
| FfmpegHevcDecPlugin.DeinitStep | hevc_ffmpeg_plugin/ffmpeg_hevc_dec_plugin.c:198-223 | Deinit refuses an uninitialised context unchanged. Otherwise it releases all three resources, clears the flag and succeeds, keeping the stored callback data. |
| FfmpegHevcDecPlugin.Apply | hevc_ffmpeg_plugin/ffmpeg_hevc_dec_plugin.c:106-223 | Init and deinit keep the context consistent: it holds all resources when initialised and none otherwise. |
| FfmpegHevcDecPlugin.ApplyFlipsOnSuccess | hevc_ffmpeg_plugin/ffmpeg_hevc_dec_plugin.c:106-223 | A lifecycle call flips the flag exactly when it succeeds. Only init succeeds on an uninitialised context and only deinit on an initialised one. |
| FfmpegHevcDecPlugin.InitDeinitAlternate | hevc_ffmpeg_plugin/ffmpeg_hevc_dec_plugin.c:106-223 | In any sequence of calls, successful inits and deinits strictly alternate, beginning with an init on a context that is not initialised. |
| FfmpegHevcDecPlugin.VidDecCtx.constructor | hevc_ffmpeg_plugin/ffmpeg_hevc_dec_plugin.c:86-93 | A new context is all zero. |
| FfmpegHevcDecPlugin.VidDecCtx.ReceiveLoop | hevc_ffmpeg_plugin/ffmpeg_hevc_dec_plugin.c:225-310 | No callback follows a refused send. Otherwise the callbacks are `Delivered` for the received results. |
| FfmpegHevcDecPlugin.Create | hevc_ffmpeg_plugin/ffmpeg_hevc_dec_plugin.c:84-96 | Create returns NULL when allocation fails, and otherwise a fresh, zeroed, consistent context. |
| FfmpegHevcDecPlugin.Init | hevc_ffmpeg_plugin/ffmpeg_hevc_dec_plugin.c:106-196 | Init returns false on NULL. Otherwise the new state and the result are `InitStep`'s. |
| FfmpegHevcDecPlugin.Deinit | hevc_ffmpeg_plugin/ffmpeg_hevc_dec_plugin.c:198-223 | Deinit returns false on NULL. Otherwise the new state and the result are `DeinitStep`'s. |
| FfmpegHevcDecPlugin.Decode | hevc_ffmpeg_plugin/ffmpeg_hevc_dec_plugin.c:313-337 | Decode does nothing on a NULL or uninitialised handle. Otherwise the packet takes the data, the `uint32_t` size narrowed to `int` by `Int32Of`, and the timestamps reinterpreted by `Int64Of`, and the loop's callbacks follow. |
| FfmpegHevcDecPlugin.Flush | hevc_ffmpeg_plugin/ffmpeg_hevc_dec_plugin.c:339-368 | Flush does nothing on a NULL or uninitialised handle. Otherwise the buffers are flushed last; before that, the decoder is drained unless `discard` is set. |
| FfmpegHevcDecPlugin.IsInit | hevc_ffmpeg_plugin/ffmpeg_hevc_dec_plugin.c:370-380 | Is_init is false for NULL, and otherwise the flag, which holds exactly when all resources are held. |
| FfmpegHevcDecPlugin.Destroy | hevc_ffmpeg_plugin/ffmpeg_hevc_dec_plugin.c:98-104 | As written, on a usable handle: the context is freed and the caller's handle is left unchanged. A second destroy on that handle would be a double free and is excluded by the precondition. |
| FfmpegHevcDecPlugin.DestroyLeavesHandleDangling | hevc_ffmpeg_plugin/ffmpeg_hevc_dec_plugin.c:98-104 | After create and destroy, the caller's handle is non-NULL and points at a freed context that no operation may be given. |
| FfmpegHevcDecPlugin.DestroyAndClear | hevc_ffmpeg_plugin/ffmpeg_hevc_dec_plugin.c:98-104 | Corrected: the context is freed, the caller's handle becomes NULL, and is_init on it is defined and false. |
| FfmpegHevcDecPlugin.DestroyTwiceIsHarmless | hevc_ffmpeg_plugin/ffmpeg_hevc_dec_plugin.c:98-104 | With the corrected destroy, a second destroy on the same handle is a call on NULL, so it is allowed and leaves the handle NULL. The as-written destroy leaves a handle on which a second destroy is not allowed (`DestroyLeavesHandleDangling`). |

## Findings

| source | as written | input that shows it | evidently intended | confidence | as-written member | corrected member |
|---|---|---|---|---|---|---|
| hevc_ffmpeg_plugin/ffmpeg_hevc_dec_plugin.c:103 | `h_dec = NULL;` clears the local copy of the handle's address, so the caller's handle still points at the freed context | any handle `h` returned by create: after `destroy(&h)`, `h` is non-NULL and dangling | `*h_dec = NULL;`, so that later calls see NULL and return early | high (not executed) | FfmpegHevcDecPlugin.DestroyLeavesHandleDangling | FfmpegHevcDecPlugin.DestroyAndClear |

## Left out

- The engine itself is foreign: `dvpd_create`, `init`, `push`, `join`, `reset`, `deinit`, `destroy` and `dvpd_get_output_config`.
  - Its calls appear only as trace entries.
  - `dvpd_get_output_config` is the uninterpreted `configOf`.
  - `DvproDecoder.Dvprodecoder.Stop` assumes that destroy clears the handle it is given.
  - `DvproDecoder.Dvprodecoder.Start` takes the handle create returns as a parameter.
- GObject and GStreamer registration, pad templates and caps, class_init and plugin_init are wiring, not logic.
- Setting or getting an unknown property id only warns. Enum values outside a property's registered list are refused by GObject before the element sees them.
- Timestamps are unbounded `Option<int>` values. The model does not exclude a frame stamp of 2^64-1 or a picture stamp of -1, which C reads as NONE. The lemmas about matching assume set stamps that are close together, and NONE is always `None`.
- A NULL hevc-plugin string is not modelled. Its effect depends on the C library's `%s` handling.
- Plugin names are sequences of characters. The buffer limit is counted in bytes, so a multi-byte UTF-8 name may be cut at a different place.
- The stream-lock release and reacquire around engine calls is about concurrency. Each callback is modelled as one atomic step on the registry.
- The notification callback is logging and process abort.
- Buffer mapping, allocation and pixel copying: payloads are opaque byte sequences.
- GstVideoDecoder internals are not part of this model:
  - registering a frame before handle_frame is modelled inside `HandleFrame`;
  - the reference counting of frames is not modelled;
  - discarding pending frames on flush or stop is not modelled;
  - clearing the output state between sessions is not modelled.
- The timestamp scenarios (`EveryPictureFindsItsFrame`, `EveryFrameFinishesOnce`) assume that the engine returns pictures carrying the same stamps the frames were pushed with. The engine is not modelled.
- The libavcodec branches for versions before 57.48.101 and 58.9.100 are not modelled: only the send/receive API and `av_packet_alloc` are. The codec pointer is reduced to whether the lookup succeeded. FFmpeg's codec internals are not modelled.
- The AVFrame's plane pointers are carried as opaque values. The second and third planes' relation to chroma subsampling is not modelled.
- `FfmpegHevcDecPlugin.VidDecCtx.ReceiveLoop`: a script of receive results that runs out is read as EAGAIN. The real decoder decides when to stop.
- The processor count comes from `sysconf` or `GetSystemInfo` as a parameter. The narrowing of the `long` result to `int` is not modelled.
- `dv_dec_vid_dec_plugin_describe` only fills in names and function pointers.
- The plugin's operations, `Destroy` and `DestroyAndClear` included, require a handle that is NULL or a live context created by create (`Usable`). Passing any other pointer, such as a handle already destroyed (a double free), is undefined behaviour in C and is not modelled.
- FfmpegHevcDecPlugin.VidDecCtx.ReceiveLoop: init stores the picture callback without checking it for NULL, and the loop calls it unchecked. A NULL callback therefore makes the first delivery a call through NULL, which is undefined behaviour. The model records it as an ordinary `PictureDelivered(None, …)` event. 
- FfmpegHevcDecPlugin.Delivered: for the same reason, a NULL picture callback appears in its events as `None` rather than as undefined behaviour.
- Destroying an initialised context frees it without releasing its FFmpeg resources. The model records the free only.
