/**
 * The FFmpeg HEVC base-layer decoder plugin: a context record that is
 * created zeroed, initialised (acquiring a packet, a codec context and a
 * frame), used to decode and flush, deinitialised and destroyed.
 *
 * FFmpeg and the operating system are foreign: what their calls return is a
 * parameter (`InitEnv` for the allocations and opens of init, a script of
 * `Received` results for the receive loop). Pointers are `Option<nat>`, `None`
 * being NULL.
 */
module FfmpegHevcDecPlugin {
  import opened Wrappers
  import opened FixedWidth

  // ---- get_cpu_count ----

  /** get_cpu_count: the processor count the system reports, clamped to
      [1, 16]; it is the decoder's thread count. */
  function CpuCount(reported: int): (n: int)
    ensures 1 <= n <= 16
    ensures 1 <= reported <= 16 ==> n == reported
    ensures reported < 1 ==> n == 1
    ensures reported > 16 ==> n == 16
  {
    var cores := reported;
    var cores' := if cores < 1 then 1 else cores;
    if cores' > 16 then 16 else cores'
  }

  /** More reported processors never give fewer threads. */
  lemma CpuCountMonotonic(a: int, b: int)
    requires a <= b
    ensures CpuCount(a) <= CpuCount(b)
  {
  }

  // ---- the bit-depth switch ----

  /** FFmpeg pixel formats, as far as the plugin distinguishes them. */
  datatype PixelFormat = Yuv420p | Yuv420p10le | OtherFormat(code: int)

  /** The bit depth announced for a decoded frame's pixel format; `None` for
      a format the plugin does not support. */
  function BitDepth(f: PixelFormat): (r: Option<nat>)
    ensures r.Some? <==> f == Yuv420p || f == Yuv420p10le
    ensures r == Some(8) <==> f == Yuv420p
    ensures r == Some(10) <==> f == Yuv420p10le
  {
    match f
    case Yuv420p => Some(8)
    case Yuv420p10le => Some(10)
    case OtherFormat(_) => None
  }

  // ---- FFmpeg objects ----

  /** One image plane of a frame: its data pointer and its line size. */
  datatype Plane = Plane(data: Option<nat>, linesize: int)

  /** AVFrame's eight planes. */
  type Planes = s: seq<Plane> | |s| == 8 witness seq(8, _ => Plane(None, 0))

  /** The fields of a decoded AVFrame that the plugin reads. */
  datatype AvFrame = AvFrame(format: PixelFormat, planes: Planes, width: int, height: int, pts: Int64, pktDts: Int64)

  /** What one avcodec_receive_frame call yields: a frame, EAGAIN, EOF or another error. */
  datatype Received = Got(frame: AvFrame) | Again | EndOfFile | Failed(code: int)

  /** dvpd_input_dec_picture_t as the plugin fills it. */
  datatype DecodedPicture = DecodedPicture(
    planes: seq<Plane>, width: int, height: int, bitDepth: nat,
    pts: Int64, dts: Int64, appSpecificData: Option<nat>)

  /** What the plugin does that its caller can observe: a call of the picture
      callback, and avcodec_flush_buffers. */
  datatype Event =
    | PictureDelivered(callback: Option<nat>, pic: DecodedPicture, appData: Option<nat>, layer: Int32)
    | BuffersFlushed

  /** The picture handed on for a frame of supported depth `depth`. */
  function PictureOf(f: AvFrame, depth: nat): (r: DecodedPicture)
    ensures r.planes == f.planes[..3] && r.bitDepth == depth
    ensures r.pts == f.pts && r.dts == f.pktDts && r.appSpecificData.None?
    ensures -0x8000 <= r.width < 0x8000 && -0x8000 <= r.height < 0x8000
    ensures f.width < 0x8000 && f.height < 0x8000 && 0 <= f.width && 0 <= f.height ==>
      r.width == f.width && r.height == f.height
  {
    DecodedPicture(f.planes[..3], Int16Of(f.width), Int16Of(f.height), depth, f.pts, f.pktDts, None)
  }

  predicate Deliverable(r: Received) {
    r.Got? && BitDepth(r.frame.format).Some?
  }

  /** The callbacks the receive loop makes for the results `script`, stopping
      at the first result that is not a frame of a supported format. */
  function Delivered(script: seq<Received>, callback: Option<nat>, appData: Option<nat>, layer: Int32): (r: seq<Event>)
    ensures |r| <= |script|
  {
    if script == [] || !Deliverable(script[0]) then []
    else
      var f := script[0].frame;
      [PictureDelivered(callback, PictureOf(f, BitDepth(f.format).value), appData, layer)] +
      Delivered(script[1..], callback, appData, layer)
  }

  /** The callbacks are one per result, in order, for the longest run of
      supported frames at the head of the script: every result before the
      last callback is such a frame and the result after it is not. */
  lemma {:induction false} DeliveredIsLongestSupportedPrefix(script: seq<Received>, callback: Option<nat>, appData: Option<nat>, layer: Int32)
    ensures var ev := Delivered(script, callback, appData, layer);
      && |ev| <= |script|
      && (|ev| < |script| ==> !Deliverable(script[|ev|]))
      && forall k :: 0 <= k < |ev| ==>
           Deliverable(script[k]) &&
           ev[k] == PictureDelivered(callback, PictureOf(script[k].frame, BitDepth(script[k].frame.format).value), appData, layer)
  {
    if script != [] && Deliverable(script[0]) {
      DeliveredIsLongestSupportedPrefix(script[1..], callback, appData, layer);
      var ev := Delivered(script, callback, appData, layer);
      var tail := Delivered(script[1..], callback, appData, layer);
      forall k | 0 <= k < |ev|
        ensures Deliverable(script[k]) &&
          ev[k] == PictureDelivered(callback, PictureOf(script[k].frame, BitDepth(script[k].frame.format).value), appData, layer)
      {
        if k > 0 {
          assert ev[k] == tail[k - 1] && script[k] == script[1..][k - 1];
        }
      }
    }
  }

  /** One step of the receive loop, from result k on. */
  lemma DeliveredFrom(script: seq<Received>, k: nat, callback: Option<nat>, appData: Option<nat>, layer: Int32)
    requires k < |script|
    ensures !Deliverable(script[k]) ==> Delivered(script[k..], callback, appData, layer) == []
    ensures Deliverable(script[k]) ==>
      var f := script[k].frame;
      Delivered(script[k..], callback, appData, layer) ==
        [PictureDelivered(callback, PictureOf(f, BitDepth(f.format).value), appData, layer)] +
        Delivered(script[k + 1..], callback, appData, layer)
  {
    assert script[k..][1..] == script[k + 1..];
  }

  /** Every picture delivered has depth 8 or 10, no application-specific data,
      the frame's pts and packet dts, and the context's app data and layer. */
  lemma DeliveredPictures(script: seq<Received>, callback: Option<nat>, appData: Option<nat>, layer: Int32, k: nat)
    requires k < |Delivered(script, callback, appData, layer)|
    ensures var e := Delivered(script, callback, appData, layer)[k];
      && e.PictureDelivered?
      && (e.pic.bitDepth == 8 || e.pic.bitDepth == 10)
      && e.pic.appSpecificData == None
      && k < |script| && script[k].Got?
      && e.pic.pts == script[k].frame.pts && e.pic.dts == script[k].frame.pktDts
      && e.callback == callback && e.appData == appData && e.layer == layer
  {
    DeliveredIsLongestSupportedPrefix(script, callback, appData, layer);
  }

  /** A loop ends on an unsupported frame without a callback for it, however
      many frames follow. */
  lemma UnsupportedFrameEndsTheLoop(script: seq<Received>, callback: Option<nat>, appData: Option<nat>, layer: Int32, k: nat)
    requires k < |script| && script[k].Got? && BitDepth(script[k].frame.format).None?
    ensures |Delivered(script, callback, appData, layer)| <= k
  {
    DeliveredIsLongestSupportedPrefix(script, callback, appData, layer);
  }

  /** The codec context: its thread count and whether avcodec_open2 succeeded. */
  datatype CodecContext = CodecContext(threadCount: int, isOpen: bool)

  /** The packet the context reuses for every decode call. */
  datatype Packet = Packet(data: Option<seq<bv8>>, size: Int32, pts: Int64, dts: Int64)

  /** A packet size of 2^31 bytes or more does not fit the packet's `int`
      size field and reaches FFmpeg negative. */
  lemma LargePacketSizeWraps()
    ensures Int32Of(0x8000_0000) == -0x8000_0000
    ensures Int32Of(0xFFFF_FFFF) == -1
    ensures Int32Of(0x7FFF_FFFF) == 0x7FFF_FFFF
  {
  }

  /** A packet as av_packet_alloc returns it. */
  const FreshPacket: Packet := Packet(None, 0, -Two63, -Two63)

  // ---- the context record and its lifecycle, as values ----

  /** ffmpeg_vid_dec_ctx_t. `codecFound` is whether the codec pointer is set,
      `frame` whether the AVFrame is held. */
  datatype CtxState = CtxState(
    codecFound: bool, codecCtx: Option<CodecContext>, pkt: Option<Packet>, frame: bool,
    init: bool, callback: Option<nat>, appData: Option<nat>, layer: Int32)

  /** The context as create leaves it: all zero. */
  const Zeroed: CtxState := CtxState(false, None, None, false, false, None, None, 0)

  predicate HoldsAll(s: CtxState) {
    s.codecCtx.Some? && s.pkt.Some? && s.frame
  }

  predicate HoldsNone(s: CtxState) {
    s.codecCtx.None? && s.pkt.None? && !s.frame
  }

  /** An initialised context holds its three resources and an opened codec
      context; one that is not holds none of them. */
  predicate Consistent(s: CtxState) {
    (s.init ==> HoldsAll(s) && s.codecFound && s.codecCtx.value.isOpen) &&
    (!s.init ==> HoldsNone(s))
  }

  /** The outcomes of init's foreign calls: the packet allocation, the codec
      lookup, the context allocation, the codec open, the frame allocation,
      and the processor count the system reports. */
  datatype InitEnv = InitEnv(pktAlloc: bool, codecFound: bool, ctxAlloc: bool, openOk: bool, frameAlloc: bool, reportedCpus: int)

  predicate AllSucceed(env: InitEnv) {
    env.pktAlloc && env.codecFound && env.ctxAlloc && env.openOk && env.frameAlloc
  }

  datatype Outcome = Outcome(state: CtxState, ok: bool)

  /** The cleanup after `bail`: release whichever resources are held. */
  function Bail(s: CtxState): (r: CtxState)
    requires !s.init
    ensures HoldsNone(r) && !r.init
    ensures r.codecFound == s.codecFound && r.callback == s.callback && r.appData == s.appData && r.layer == s.layer
  {
    s.(codecCtx := None, frame := false, pkt := None)
  }

  /** ffmpeg_vid_dec_init on a non-NULL context. An initialised context is
      refused unchanged. Otherwise the callback, app data and layer are stored
      first, then the resources are acquired in order, and the first failure
      releases whatever was acquired. */
  function InitStep(s: CtxState, env: InitEnv, callback: Option<nat>, appData: Option<nat>, layer: Int32): (r: Outcome)
    requires Consistent(s)
    ensures Consistent(r.state)
    ensures s.init ==> r == Outcome(s, false)
    ensures !s.init ==> r.state.callback == callback && r.state.appData == appData && r.state.layer == layer
    ensures r.ok <==> !s.init && AllSucceed(env)
    ensures r.ok ==> r.state.init && r.state.codecCtx == Some(CodecContext(CpuCount(env.reportedCpus), true))
    ensures r.ok ==> r.state.pkt == Some(FreshPacket)
    ensures !r.ok ==> r.state.init == s.init
  {
    if s.init then Outcome(s, false)
    else
      var stored := s.(callback := callback, appData := appData, layer := layer);
      if !env.pktAlloc then Outcome(Bail(stored), false)
      else if !env.codecFound then Outcome(Bail(stored.(codecFound := false)), false)
      else if !(env.ctxAlloc && env.openOk && env.frameAlloc) then Outcome(Bail(stored.(codecFound := true)), false)
      else
        var ctx := CodecContext(CpuCount(env.reportedCpus), true);
        Outcome(stored.(pkt := Some(FreshPacket), codecFound := true, codecCtx := Some(ctx), frame := true, init := true), true)
  }

  /** ffmpeg_vid_dec_deinit on a non-NULL context: refused unchanged unless
      initialised; otherwise all three resources are released and the flag
      cleared, everything else kept. */
  function DeinitStep(s: CtxState): (r: Outcome)
    requires Consistent(s)
    ensures Consistent(r.state)
    ensures !s.init ==> r == Outcome(s, false)
    ensures s.init ==> r.ok && !r.state.init && HoldsNone(r.state)
    ensures r.state.callback == s.callback && r.state.appData == s.appData && r.state.layer == s.layer
  {
    if !s.init then Outcome(s, false)
    else Outcome(s.(codecCtx := None, frame := false, pkt := None, init := false), true)
  }

  /** A lifecycle call on a context. */
  datatype LifecycleOp = InitOp(env: InitEnv, callback: Option<nat>, appData: Option<nat>, layer: Int32) | DeinitOp

  function Apply(s: CtxState, op: LifecycleOp): (r: Outcome)
    requires Consistent(s)
    ensures Consistent(r.state)
  {
    match op
    case InitOp(env, cb, data, layer) => InitStep(s, env, cb, data, layer)
    case DeinitOp => DeinitStep(s)
  }

  /** Each call flips the flag exactly when it succeeds. */
  lemma ApplyFlipsOnSuccess(s: CtxState, op: LifecycleOp)
    requires Consistent(s)
    ensures Apply(s, op).state.init == (s.init != Apply(s, op).ok)
    ensures Apply(s, op).ok ==> op.InitOp? == !s.init
  {
  }

  /** The successful calls of a sequence, in order: true for an init, false
      for a deinit. */
  function Successes(s: CtxState, ops: seq<LifecycleOp>): seq<bool>
    requires Consistent(s)
    decreases |ops|
  {
    if ops == [] then []
    else
      var r := Apply(s, ops[0]);
      (if r.ok then [ops[0].InitOp?] else []) + Successes(r.state, ops[1..])
  }

  /** Successful inits and deinits strictly alternate, beginning with an init
      on a context that is not initialised. */
  lemma {:induction false} InitDeinitAlternate(s: CtxState, ops: seq<LifecycleOp>)
    requires Consistent(s)
    ensures forall k :: 0 <= k < |Successes(s, ops)| ==> Successes(s, ops)[k] == ((k % 2 == 0) != s.init)
    decreases |ops|
  {
    if ops != [] {
      var r := Apply(s, ops[0]);
      ApplyFlipsOnSuccess(s, ops[0]);
      InitDeinitAlternate(r.state, ops[1..]);
      var tail := Successes(r.state, ops[1..]);
      if r.ok {
        forall k | 0 <= k < |Successes(s, ops)|
          ensures Successes(s, ops)[k] == ((k % 2 == 0) != s.init)
        {
          if k > 0 {
            assert Successes(s, ops)[k] == tail[k - 1];
          }
        }
      }
    }
  }

  // ---- the context object ----

  /** A context allocated by create. `released` records that it was freed. */
  class VidDecCtx {
    var codecFound: bool
    var codecCtx: Option<CodecContext>
    var pkt: Option<Packet>
    var frame: bool
    var init: bool
    var callback: Option<nat>
    var appData: Option<nat>
    var layer: Int32
    var released: bool

    /** malloc followed by memset to zero. */
    constructor ()
      ensures State() == Zeroed && !released
    {
      codecFound, codecCtx, pkt, frame := false, None, None, false;
      init, callback, appData, layer := false, None, None, 0;
      released := false;
    }

    function State(): CtxState
      reads this
    {
      CtxState(codecFound, codecCtx, pkt, frame, init, callback, appData, layer)
    }

    predicate Valid()
      reads this
    {
      Consistent(State())
    }

    /** The static `decode` after a packet was sent (or not: `sent` is whether
        avcodec_send_packet succeeded): receive frames until EAGAIN, EOF, an
        error or an unsupported pixel format, calling back once per frame. A
        script that runs out counts as EAGAIN. */
    method ReceiveLoop(sent: bool, script: seq<Received>) returns (events: seq<Event>)
      ensures events == if sent then Delivered(script, callback, appData, layer) else []
    {
      events := [];
      if !sent {
        return;
      }
      var k := 0;
      while k < |script|
        invariant 0 <= k <= |script|
        invariant events + Delivered(script[k..], callback, appData, layer) == Delivered(script, callback, appData, layer)
        decreases |script| - k
      {
        DeliveredFrom(script, k, callback, appData, layer);
        var received := script[k];
        if !received.Got? {
          return;  // EAGAIN, EOF or a decoding error
        }
        var depth := BitDepth(received.frame.format);
        if depth.None? {
          return;  // a pixel format the plugin does not support
        }
        events := events + [PictureDelivered(callback, PictureOf(received.frame, depth.value), appData, layer)];
        k := k + 1;
      }
    }
  }

  /** create: NULL when the allocation fails, otherwise a zeroed context. */
  method Create(mallocOk: bool) returns (h: VidDecCtx?)
    ensures !mallocOk ==> h == null
    ensures mallocOk ==> h != null && fresh(h) && h.State() == Zeroed && h.Valid() && !h.released
  {
    if !mallocOk {
      return null;
    }
    h := new VidDecCtx();
  }

  /** A handle the plugin's operations accept: NULL or a context not freed. */
  predicate Usable(h: VidDecCtx?)
    reads h
  {
    h != null ==> h.Valid() && !h.released
  }

  /** ffmpeg_vid_dec_init: false on NULL; otherwise `InitStep`. */
  method Init(h: VidDecCtx?, env: InitEnv, callback: Option<nat>, appData: Option<nat>, layer: Int32) returns (ok: bool)
    requires Usable(h)
    modifies h
    ensures Usable(h)
    ensures h == null ==> !ok
    ensures h != null ==>
      var r := InitStep(old(h.State()), env, callback, appData, layer);
      h.State() == r.state && ok == r.ok
  {
    if h == null {
      return false;
    }
    if h.init {
      return false;
    }
    h.callback := callback;
    h.appData := appData;
    h.layer := layer;

    label bail: {
      h.pkt := if env.pktAlloc then Some(FreshPacket) else None;
      if h.pkt.None? {
        break bail;
      }
      h.codecFound := env.codecFound;
      if !h.codecFound {
        break bail;
      }
      h.codecCtx := if env.ctxAlloc then Some(CodecContext(0, false)) else None;
      if h.codecCtx.None? {
        break bail;
      }
      h.codecCtx := Some(h.codecCtx.value.(threadCount := CpuCount(env.reportedCpus)));
      if !env.openOk {
        break bail;
      }
      h.codecCtx := Some(h.codecCtx.value.(isOpen := true));
      h.frame := env.frameAlloc;
      if !h.frame {
        break bail;
      }
      h.init := true;
      return true;
    }

    // bail: each resource is freed under a NULL check, and freeing clears
    // its slot; a slot that is already empty stays so.
    h.codecCtx := None;
    h.frame := false;
    h.pkt := None;
    return false;
  }

  /** ffmpeg_vid_dec_deinit: false on NULL; otherwise `DeinitStep`. */
  method Deinit(h: VidDecCtx?) returns (ok: bool)
    requires Usable(h)
    modifies h
    ensures Usable(h)
    ensures h == null ==> !ok
    ensures h != null ==> h.State() == DeinitStep(old(h.State())).state && ok == DeinitStep(old(h.State())).ok
  {
    if h == null {
      return false;
    }
    if !h.init {
      return false;
    }
    h.codecCtx := None;
    h.frame := false;
    h.pkt := None;
    h.init := false;
    return true;
  }

  /** ffmpeg_vid_dec_decode: nothing on a NULL or uninitialised handle;
      otherwise the packet takes the data, the `uint32_t` size narrowed to
      the packet's `int` (2^31 and above wrap negative) and the timestamps
      reinterpreted as `int64_t`; it is sent
      (`sent` is whether avcodec_send_packet accepted it) and the frames
      received are handed on. */
  method Decode(h: VidDecCtx?, data: seq<bv8>, size: UInt32, pts: UInt64, dts: UInt64, sent: bool, script: seq<Received>)
    returns (events: seq<Event>)
    requires Usable(h)
    modifies h
    ensures Usable(h)
    ensures h == null || !old(h.init) ==> events == [] && (h != null ==> h.State() == old(h.State()))
    ensures h != null && old(h.init) ==>
      && h.State() == old(h.State()).(pkt := Some(Packet(Some(data), Int32Of(size), Int64Of(pts), Int64Of(dts))))
      && events == if sent then Delivered(script, h.callback, h.appData, h.layer) else []
  {
    events := [];
    if h == null {
      return;
    }
    if !h.init {
      return;
    }
    h.pkt := Some(Packet(Some(data), Int32Of(size), Int64Of(pts), Int64Of(dts)));
    events := h.ReceiveLoop(sent, script);
  }

  /** ffmpeg_vid_dec_flush: nothing on a NULL or uninitialised handle;
      otherwise, unless `discard`, the decoder is drained (a NULL packet sent,
      the frames received handed on), and then its buffers are flushed. */
  method Flush(h: VidDecCtx?, discard: bool, sent: bool, script: seq<Received>) returns (events: seq<Event>)
    requires Usable(h)
    ensures h == null || !h.init ==> events == []
    ensures h != null && h.init ==>
      events == (if !discard && sent then Delivered(script, h.callback, h.appData, h.layer) else []) + [BuffersFlushed]
  {
    events := [];
    if h == null {
      return;
    }
    if !h.init {
      return;
    }
    if !discard {
      events := h.ReceiveLoop(sent, script);
    }
    events := events + [BuffersFlushed];
  }

  /** ffmpeg_vid_dec_is_init: false for NULL, otherwise the flag. */
  function IsInit(h: VidDecCtx?): (r: bool)
    requires Usable(h)
    reads h
    ensures r <==> h != null && HoldsAll(h.State())
  {
    if h == null then false else h.init
  }

  /** The caller's handle variable, whose address destroy is given. */
  class HandleSlot {
    var handle: VidDecCtx?

    constructor (h: VidDecCtx?)
      ensures handle == h
    {
      handle := h;
    }
  }

  /** ffmpeg_vid_dec_destroy as written: the context is freed, but NULL is
      stored into the parameter, not through it, so the caller's handle still
      points at the freed context. Destroying a freed context again is a
      double free, so the handle must be usable. */
  method Destroy(slot: HandleSlot)
    requires Usable(slot.handle)
    modifies slot.handle
    ensures slot.handle == old(slot.handle)
    ensures slot.handle != null ==> slot.handle.released
  {
    var ctx := slot.handle;
    if ctx != null {
      ctx.released := true;
    }
  }

  /** After a destroy the caller holds a non-NULL handle to a freed context:
      every later call on it (is_init included) reads freed memory. */
  method DestroyLeavesHandleDangling() returns (slot: HandleSlot)
    ensures slot.handle != null && !Usable(slot.handle)
  {
    var h := Create(true);
    slot := new HandleSlot(h);
    Destroy(slot);
  }

  /** destroy as evidently intended: free the context and clear the
      caller's handle, which then reads as not initialised. */
  method DestroyAndClear(slot: HandleSlot)
    requires Usable(slot.handle)
    modifies slot, slot.handle
    ensures old(slot.handle) != null ==> old(slot.handle).released
    ensures slot.handle == null && Usable(slot.handle) && !IsInit(slot.handle)
  {
    var ctx := slot.handle;
    if ctx != null {
      ctx.released := true;
    }
    slot.handle := null;
  }

  /** With the corrected destroy, destroying the same handle twice is safe:
      the second call sees NULL and frees nothing. */
  method DestroyTwiceIsHarmless() returns (slot: HandleSlot)
    ensures slot.handle == null && !IsInit(slot.handle)
  {
    var h := Create(true);
    slot := new HandleSlot(h);
    DestroyAndClear(slot);
    DestroyAndClear(slot);
  }
}
