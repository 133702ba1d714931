/**
 * Frame reconciliation of the Dolby Vision professional decoder element:
 * which pending frame of the decoder's ordered registry a decoded picture is
 * delivered into, and the one-time negotiation of the output state.
 *
 * Timestamps are GStreamer clock times; `None` is GST_CLOCK_TIME_NONE. A
 * picture's timestamp is a signed 64-bit value, -1 of which reads as NONE.
 */
module DvproReconciler {
  import opened Wrappers
  import opened DvproFormats
  import opened FixedWidth

  type Payload = seq<bv8>

  /** A pending frame of the base class's registry (a GstVideoCodecFrame):
      its identity, its timestamps, its input access unit and, once filled,
      its output buffer. */
  datatype Frame = Frame(id: nat, pts: Option<int>, dts: Option<int>, input: Payload, output: Option<Payload>)

  /** A picture the engine hands to the picture-ready callback. */
  datatype OutputPicture = OutputPicture(pts: Option<int>, dts: Option<int>, width: nat, height: nat, payload: Payload)

  /** The negotiated output state: format and geometry. */
  datatype OutputState = OutputState(format: VideoFormat, width: nat, height: nat)

  /** Which timestamp a comparator looks at. */
  datatype Key = Pts | Dts

  function FrameStamp(f: Frame, key: Key): Option<int> {
    if key == Pts then f.pts else f.dts
  }

  function PictureStamp(p: OutputPicture, key: Key): Option<int> {
    if key == Pts then p.pts else p.dts
  }

  /** What a comparator's zero means: both timestamps are set and they agree
      in their low 32 bits. */
  predicate Matches(f: Frame, p: OutputPicture, key: Key) {
    FrameStamp(f, key).Some? && PictureStamp(p, key).Some? &&
    (PictureStamp(p, key).value - FrameStamp(f, key).value) % Two32 == 0
  }

  /** find_frame_pts (key Pts) and find_frame_dts (key Dts): 1 when either
      timestamp is NONE, otherwise the picture's timestamp minus the frame's,
      narrowed to `gint` (`Int32Of`). */
  function Compare(f: Frame, p: OutputPicture, key: Key): (r: int)
    ensures -0x8000_0000 <= r < 0x8000_0000
    ensures r == 0 <==> Matches(f, p, key)
    ensures PictureStamp(p, key).None? || FrameStamp(f, key).None? ==> r == 1
  {
    if PictureStamp(p, key).None? || FrameStamp(f, key).None? then 1
    else Int32Of(PictureStamp(p, key).value - FrameStamp(f, key).value)
  }

  /** When the two timestamps are less than 2^32 apart, a comparator's zero is
      plain equality. */
  lemma MatchIsEqualityWhenClose(f: Frame, p: OutputPicture, key: Key)
    requires FrameStamp(f, key).Some? && PictureStamp(p, key).Some?
    requires -Two32 < PictureStamp(p, key).value - FrameStamp(f, key).value < Two32
    ensures Matches(f, p, key) <==> PictureStamp(p, key) == FrameStamp(f, key)
  {
  }

  /** Timestamps exactly 2^32 apart (about 4.3 s of nanoseconds) match. */
  lemma DistantStampsMatch(f: Frame, p: OutputPicture, key: Key)
    requires FrameStamp(f, key).Some? && PictureStamp(p, key).Some?
    requires PictureStamp(p, key).value == FrameStamp(f, key).value + Two32
    ensures Matches(f, p, key) && PictureStamp(p, key) != FrameStamp(f, key)
  {
  }

  /** The first frame in registry order that the comparator accepts. */
  predicate IsFirstMatch(frames: seq<Frame>, p: OutputPicture, key: Key, i: nat) {
    i < |frames| && Matches(frames[i], p, key) &&
    forall j :: 0 <= j < i ==> !Matches(frames[j], p, key)
  }

  predicate NoMatch(frames: seq<Frame>, p: OutputPicture, key: Key) {
    forall j :: 0 <= j < |frames| ==> !Matches(frames[j], p, key)
  }

  /** g_list_find_custom over the registry: the index of the first frame whose
      comparator result is 0. */
  function FindCustom(frames: seq<Frame>, p: OutputPicture, key: Key): (r: Option<nat>)
    ensures r.Some? ==> IsFirstMatch(frames, p, key, r.value)
    ensures r.None? ==> NoMatch(frames, p, key)
    decreases |frames|
  {
    if frames == [] then None
    else if Compare(frames[0], p, key) == 0 then Some(0)
    else match FindCustom(frames[1..], p, key)
      case None => None
      case Some(i) => Some(i + 1)
  }

  /** How the callback picked its frame. */
  datatype MatchKind = ByPts | ByDts | Oldest

  datatype Selection = Selection(index: nat, kind: MatchKind)

  /** The frame a picture is delivered into: the first PTS match, else the
      first DTS match, else the oldest frame. The registry must not be empty
      (the fallback asserts it). */
  function Select(frames: seq<Frame>, p: OutputPicture): (s: Selection)
    requires frames != []
    ensures s.index < |frames|
    ensures s.kind == ByPts <==> !NoMatch(frames, p, Pts)
    ensures s.kind == ByPts ==> IsFirstMatch(frames, p, Pts, s.index)
    ensures s.kind == ByDts <==> NoMatch(frames, p, Pts) && !NoMatch(frames, p, Dts)
    ensures s.kind == ByDts ==> IsFirstMatch(frames, p, Dts, s.index)
    ensures s.kind == Oldest ==> s.index == 0 && NoMatch(frames, p, Pts) && NoMatch(frames, p, Dts)
  {
    match FindCustom(frames, p, Pts)
    case Some(i) => Selection(i, ByPts)
    case None =>
      match FindCustom(frames, p, Dts)
      case Some(i) => Selection(i, ByDts)
      case None => Selection(0, Oldest)
  }

  /** The registry after a callback, and the frame it finished. */
  datatype Completion = Completion(remaining: seq<Frame>, done: Frame)

  /** One picture-ready callback on the registry: the selected frame is
      removed, every other frame keeps its value and its order; the finished
      frame keeps its identity and input and carries the picture's payload;
      a PTS or DTS match keeps its timestamps, the oldest-frame fallback
      clears its PTS and takes the picture's DTS. */
  function Complete(frames: seq<Frame>, p: OutputPicture): (c: Completion)
    requires frames != []
    ensures var s := Select(frames, p);
      && c.remaining == frames[..s.index] + frames[s.index + 1..]
      && c.done.id == frames[s.index].id && c.done.input == frames[s.index].input
      && c.done.output == Some(p.payload)
      && (s.kind != Oldest ==> c.done.pts == frames[s.index].pts && c.done.dts == frames[s.index].dts)
      && (s.kind == Oldest ==> c.done.pts == None && c.done.dts == p.dts)
  {
    var s := Select(frames, p);
    var f := frames[s.index];
    var g := if s.kind == Oldest then f.(pts := None, dts := p.dts) else f;
    Completion(frames[..s.index] + frames[s.index + 1..], g.(output := Some(p.payload)))
  }

  /** Each callback removes exactly one frame: the remaining frames and the
      finished one (without its payload and timestamp rewrite) are the old
      registry. */
  lemma CompleteRemovesExactlyOne(frames: seq<Frame>, p: OutputPicture)
    requires frames != []
    ensures var s := Select(frames, p);
      && |Complete(frames, p).remaining| == |frames| - 1
      && multiset(Complete(frames, p).remaining) + multiset{frames[s.index]} == multiset(frames)
  {
    var i := Select(frames, p).index;
    assert frames == frames[..i] + [frames[i]] + frames[i + 1..];
  }

  /** The output state after a callback: negotiated from the current mode and
      this picture's geometry when there was none, otherwise kept as is. */
  function Negotiated(st: Option<OutputState>, mode: OutputMode, p: OutputPicture): (r: Option<OutputState>)
    ensures r.Some?
    ensures st.Some? ==> r == st
    ensures st.None? ==> r.value.width == p.width && r.value.height == p.height
    ensures st.None? ==> r.value.format == FormatFor(mode).format
    ensures st.None? ==> FormatLayout(r.value.format) == NameLayout(mode)
  {
    if st.None? then Some(OutputState(FormatFor(mode).format, p.width, p.height)) else st
  }

  /** The output state after a run of callbacks, the i-th under mode `modes[i]`. */
  function NegotiatedAll(st: Option<OutputState>, modes: seq<OutputMode>, pics: seq<OutputPicture>): Option<OutputState>
    requires |modes| == |pics|
    decreases |pics|
  {
    if pics == [] then st else NegotiatedAll(Negotiated(st, modes[0], pics[0]), modes[1..], pics[1..])
  }

  /** The first picture of a session fixes format and geometry: later pictures,
      whatever their size and whatever mode is set meanwhile, change nothing. */
  lemma {:induction false} FirstPictureFixesOutputState(modes: seq<OutputMode>, pics: seq<OutputPicture>)
    requires |modes| == |pics| && pics != []
    ensures NegotiatedAll(None, modes, pics) ==
      Some(OutputState(FormatFor(modes[0]).format, pics[0].width, pics[0].height))
  {
    var st := Negotiated(None, modes[0], pics[0]);
    KeptOnceNegotiated(st, modes[1..], pics[1..]);
  }

  lemma {:induction false} KeptOnceNegotiated(st: Option<OutputState>, modes: seq<OutputMode>, pics: seq<OutputPicture>)
    requires |modes| == |pics| && st.Some?
    ensures NegotiatedAll(st, modes, pics) == st
    decreases |pics|
  {
    if pics != [] {
      KeptOnceNegotiated(Negotiated(st, modes[0], pics[0]), modes[1..], pics[1..]);
    }
  }

  /** The registry after a run of callbacks, and the frames finished in order. */
  datatype Run = Run(remaining: seq<Frame>, done: seq<Frame>)

  function RunAll(frames: seq<Frame>, pics: seq<OutputPicture>): (r: Run)
    requires |pics| <= |frames|
    ensures |r.remaining| == |frames| - |pics| && |r.done| == |pics|
    decreases |pics|
  {
    if pics == [] then Run(frames, [])
    else
      var c := Complete(frames, pics[0]);
      var r := RunAll(c.remaining, pics[1..]);
      Run(r.remaining, [c.done] + r.done)
  }

  // ---- frames whose timestamps are all unset: first in, first out ----

  predicate Unstamped(frames: seq<Frame>) {
    forall i :: 0 <= i < |frames| ==> frames[i].pts.None? && frames[i].dts.None?
  }

  /** The frames finished oldest first: the k-th picture went into the k-th
      frame, which lost its PTS and took the picture's DTS. */
  predicate OldestFirst(done: seq<Frame>, frames: seq<Frame>, pics: seq<OutputPicture>)
    requires |done| == |pics| <= |frames|
  {
    forall k :: 0 <= k < |pics| ==>
      done[k] == frames[k].(pts := None, dts := pics[k].dts, output := Some(pics[k].payload))
  }

  /** With no timestamps to go by, every picture falls back to the oldest
      frame: frames finish in registry order, each with its PTS cleared and
      the picture's DTS. */
  lemma {:induction false} UnstampedFramesFinishInOrder(frames: seq<Frame>, pics: seq<OutputPicture>)
    requires |pics| <= |frames| && Unstamped(frames)
    ensures RunAll(frames, pics).remaining == frames[|pics|..]
    ensures OldestFirst(RunAll(frames, pics).done, frames, pics)
    decreases |pics|
  {
    if pics != [] {
      UnstampedFallsBack(frames, pics[0]);
      RunAllUnfold(frames, pics);
      UnstampedFramesFinishInOrder(frames[1..], pics[1..]);
      OldestFirstCons(Complete(frames, pics[0]).done, RunAll(frames[1..], pics[1..]).done, frames, pics);
    }
  }

  /** On unstamped frames a picture goes into the oldest one. */
  lemma UnstampedFallsBack(frames: seq<Frame>, p: OutputPicture)
    requires frames != [] && Unstamped(frames)
    ensures Complete(frames, p) == Completion(frames[1..], frames[0].(pts := None, dts := p.dts, output := Some(p.payload)))
    ensures Unstamped(frames[1..])
  {
    assert Select(frames, p).kind == Oldest;
  }

  lemma OldestFirstCons(d: Frame, done: seq<Frame>, frames: seq<Frame>, pics: seq<OutputPicture>)
    requires |done| + 1 == |pics| <= |frames|
    requires d == frames[0].(pts := None, dts := pics[0].dts, output := Some(pics[0].payload))
    requires OldestFirst(done, frames[1..], pics[1..])
    ensures OldestFirst([d] + done, frames, pics)
  {
    forall k | 0 <= k < |pics|
      ensures ([d] + done)[k] == frames[k].(pts := None, dts := pics[k].dts, output := Some(pics[k].payload))
    {
      if k > 0 {
        assert ([d] + done)[k] == done[k - 1] && frames[k] == frames[1..][k - 1] && pics[k] == pics[1..][k - 1];
      }
    }
  }

  // ---- frames with distinct, set timestamps: every picture finds its frame ----

  function FrameStamps(frames: seq<Frame>, key: Key): (r: seq<Option<int>>)
    ensures |r| == |frames|
    ensures forall i :: 0 <= i < |frames| ==> r[i] == FrameStamp(frames[i], key)
  {
    if frames == [] then [] else [FrameStamp(frames[0], key)] + FrameStamps(frames[1..], key)
  }

  function PictureStamps(pics: seq<OutputPicture>, key: Key): (r: seq<Option<int>>)
    ensures |r| == |pics|
    ensures forall i :: 0 <= i < |pics| ==> r[i] == PictureStamp(pics[i], key)
  {
    if pics == [] then [] else [PictureStamp(pics[0], key)] + PictureStamps(pics[1..], key)
  }

  /** Every frame has the `key` timestamp set, no two share it, and no two lie
      2^32 or more apart. */
  predicate Identifiable(frames: seq<Frame>, key: Key) {
    && (forall i :: 0 <= i < |frames| ==> FrameStamp(frames[i], key).Some?)
    && (forall i, j :: 0 <= i < j < |frames| ==> FrameStamp(frames[i], key) != FrameStamp(frames[j], key))
    && (forall i, j :: 0 <= i < |frames| && 0 <= j < |frames| ==>
          -Two32 < FrameStamp(frames[i], key).value - FrameStamp(frames[j], key).value < Two32)
  }

  /** The frames as they were before they were filled. */
  function Unfilled(frames: seq<Frame>): (r: seq<Frame>)
    ensures |r| == |frames|
    ensures forall i :: 0 <= i < |frames| ==> r[i] == frames[i].(output := None)
  {
    if frames == [] then [] else [frames[0].(output := None)] + Unfilled(frames[1..])
  }

  predicate PtsUnset(frames: seq<Frame>) {
    forall j :: 0 <= j < |frames| ==> frames[j].pts.None?
  }

  predicate Pending(frames: seq<Frame>) {
    forall i :: 0 <= i < |frames| ==> frames[i].output.None?
  }

  /** The registry without its i-th frame, index by index. */
  lemma RemovalIndices<T>(frames: seq<T>, i: nat)
    requires i < |frames|
    ensures var rest := frames[..i] + frames[i + 1..];
      |rest| == |frames| - 1 &&
      forall k :: 0 <= k < |rest| ==> rest[k] == frames[if k < i then k else k + 1]
  {
  }

  lemma RemovalKeepsIdentifiable(frames: seq<Frame>, key: Key, i: nat)
    requires i < |frames| && Identifiable(frames, key) && Pending(frames)
    ensures Identifiable(frames[..i] + frames[i + 1..], key)
    ensures Pending(frames[..i] + frames[i + 1..])
    ensures PtsUnset(frames) ==> PtsUnset(frames[..i] + frames[i + 1..])
  {
    var rest := frames[..i] + frames[i + 1..];
    RemovalIndices(frames, i);
    forall a, b | 0 <= a < b < |rest|
      ensures FrameStamp(rest[a], key) != FrameStamp(rest[b], key)
    {
      var a', b' := if a < i then a else a + 1, if b < i then b else b + 1;
      assert rest[a] == frames[a'] && rest[b] == frames[b'] && a' < b';
    }
  }

  lemma RemovalStamps(frames: seq<Frame>, key: Key, i: nat)
    requires i < |frames|
    ensures multiset(FrameStamps(frames, key)) ==
      multiset(FrameStamps(frames[..i] + frames[i + 1..], key)) + multiset{FrameStamp(frames[i], key)}
  {
    RemovalIndices(frames, i);
    RemovedAt(FrameStamps(frames, key), FrameStamps(frames[..i] + frames[i + 1..], key), i);
  }

  /** The picture's timestamp singles out one frame, and the callback picks it. */
  lemma SelectsTheFrameWithEqualStamp(frames: seq<Frame>, p: OutputPicture, key: Key, i: nat)
    requires Identifiable(frames, key)
    requires key == Dts ==> PtsUnset(frames)
    requires i < |frames| && PictureStamp(p, key) == FrameStamp(frames[i], key)
    ensures Select(frames, p) == Selection(i, if key == Pts then ByPts else ByDts)
  {
    assert Matches(frames[i], p, key);
    forall j | 0 <= j < |frames| && j != i
      ensures !Matches(frames[j], p, key)
    {
      MatchIsEqualityWhenClose(frames[j], p, key);
      if i < j {} else {}
    }
    if key == Dts {
      assert NoMatch(frames, p, Pts);
    }
  }

  lemma MultisetCancel<T>(a: multiset<T>, b: multiset<T>, v: T)
    requires multiset{v} + a == b + multiset{v}
    ensures a == b
  {
    assert a == (multiset{v} + a) - multiset{v};
    assert b == (b + multiset{v}) - multiset{v};
  }

  lemma RemovalMultiset<T>(frames: seq<T>, i: nat)
    requires i < |frames|
    ensures multiset(frames) == multiset(frames[..i] + frames[i + 1..]) + multiset{frames[i]}
  {
    assert frames == frames[..i] + [frames[i]] + frames[i + 1..];
  }

  lemma RunAllUnfold(frames: seq<Frame>, pics: seq<OutputPicture>)
    requires pics != [] && |pics| <= |frames|
    ensures var c := Complete(frames, pics[0]);
      var rest := RunAll(c.remaining, pics[1..]);
      RunAll(frames, pics) == Run(rest.remaining, [c.done] + rest.done)
  {
  }

  /** A timestamp match finishes the matched frame unchanged but for its payload. */
  lemma CompleteMatched(frames: seq<Frame>, p: OutputPicture, i: nat)
    requires frames != [] && Select(frames, p).index == i && Select(frames, p).kind != Oldest
    ensures Complete(frames, p) == Completion(frames[..i] + frames[i + 1..], frames[i].(output := Some(p.payload)))
  {
  }

  /** The first callback of the timestamp scenario: it finishes the frame
      carrying the first picture's timestamp, and what remains satisfies the
      scenario's conditions again. */
  lemma FirstPictureStep(frames: seq<Frame>, pics: seq<OutputPicture>, key: Key) returns (rest: seq<Frame>, done: Frame)
    requires |pics| == |frames| && pics != [] && Identifiable(frames, key) && Pending(frames)
    requires key == Dts ==> PtsUnset(frames)
    requires multiset(PictureStamps(pics, key)) == multiset(FrameStamps(frames, key))
    ensures |rest| == |pics[1..]|
    ensures RunAll(frames, pics) == Run(RunAll(rest, pics[1..]).remaining, [done] + RunAll(rest, pics[1..]).done)
    ensures Select(frames, pics[0]).kind != Oldest && Complete(frames, pics[0]).remaining == rest
    ensures done.output == Some(pics[0].payload)
    ensures FrameStamp(done, key) == PictureStamp(pics[0], key)
    ensures Identifiable(rest, key) && Pending(rest)
    ensures key == Dts ==> PtsUnset(rest)
    ensures multiset(PictureStamps(pics[1..], key)) == multiset(FrameStamps(rest, key))
  {
    var p := pics[0];
    var v := PictureStamp(p, key);
    assert PictureStamps(pics, key) == [v] + PictureStamps(pics[1..], key);
    assert v in multiset(FrameStamps(frames, key));
    var i :| 0 <= i < |frames| && FrameStamps(frames, key)[i] == v;
    SelectsTheFrameWithEqualStamp(frames, p, key, i);
    CompleteMatched(frames, p, i);
    RunAllUnfold(frames, pics);
    RemovalKeepsIdentifiable(frames, key, i);
    RemovalStamps(frames, key, i);
    rest, done := frames[..i] + frames[i + 1..], frames[i].(output := Some(p.payload));
    MultisetCancel(multiset(PictureStamps(pics[1..], key)), multiset(FrameStamps(rest, key)), v);
  }

  /** The scenario of matching by timestamp: N pending frames with distinct
      timestamps (PTS, or DTS when no frame has a PTS) and N pictures carrying
      the same timestamps in any order. Each picture is delivered into the
      frame with its timestamp and the registry ends empty. */
  lemma {:induction false} EveryPictureFindsItsFrame(frames: seq<Frame>, pics: seq<OutputPicture>, key: Key)
    requires |pics| == |frames| && Identifiable(frames, key) && Pending(frames)
    requires key == Dts ==> PtsUnset(frames)
    requires multiset(PictureStamps(pics, key)) == multiset(FrameStamps(frames, key))
    ensures RunAll(frames, pics).remaining == []
    ensures FilledByStamp(RunAll(frames, pics).done, pics, key)
    decreases |pics|
  {
    if pics != [] {
      var rest, done := FirstPictureStep(frames, pics, key);
      EveryPictureFindsItsFrame(rest, pics[1..], key);
      FilledByStampCons([done] + RunAll(rest, pics[1..]).done, pics, key);
    }
  }

  /** The k-th finished frame carries the k-th picture's timestamp and payload. */
  predicate FilledByStamp(done: seq<Frame>, pics: seq<OutputPicture>, key: Key)
    requires |done| == |pics|
  {
    forall k :: 0 <= k < |pics| ==>
      FrameStamp(done[k], key) == PictureStamp(pics[k], key) && done[k].output == Some(pics[k].payload)
  }

  lemma FilledByStampCons(done: seq<Frame>, pics: seq<OutputPicture>, key: Key)
    requires |done| == |pics| && pics != []
    requires FrameStamp(done[0], key) == PictureStamp(pics[0], key) && done[0].output == Some(pics[0].payload)
    requires FilledByStamp(done[1..], pics[1..], key)
    ensures FilledByStamp(done, pics, key)
  {
    forall k | 0 <= k < |pics|
      ensures FrameStamp(done[k], key) == PictureStamp(pics[k], key) && done[k].output == Some(pics[k].payload)
    {
      if k > 0 {
        assert done[k] == done[1..][k - 1] && pics[k] == pics[1..][k - 1];
      }
    }
  }

  /** Every picture of a run finds its frame by timestamp. */
  predicate AllMatched(frames: seq<Frame>, pics: seq<OutputPicture>)
    requires |pics| <= |frames|
    decreases |pics|
  {
    pics == [] ||
    (Select(frames, pics[0]).kind != Oldest && AllMatched(Complete(frames, pics[0]).remaining, pics[1..]))
  }

  /** In a run where every picture matches by timestamp, the finished frames
      and the remaining ones, without their payloads, are the registry's
      frames: nothing is lost, duplicated or altered. */
  lemma {:induction false} MatchedRunKeepsFrames(frames: seq<Frame>, pics: seq<OutputPicture>)
    requires |pics| <= |frames| && AllMatched(frames, pics)
    ensures multiset(Unfilled(RunAll(frames, pics).done)) + multiset(Unfilled(RunAll(frames, pics).remaining)) ==
      multiset(Unfilled(frames))
    decreases |pics|
  {
    if pics != [] {
      var i := Select(frames, pics[0]).index;
      CompleteMatched(frames, pics[0], i);
      var c := Complete(frames, pics[0]);
      RunAllUnfold(frames, pics);
      MatchedRunKeepsFrames(c.remaining, pics[1..]);
      UnfilledCons(c.done, RunAll(c.remaining, pics[1..]).done);
      UnfilledRemoval(frames, i);
    }
  }

  lemma UnfilledRemoval(frames: seq<Frame>, i: nat)
    requires i < |frames|
    ensures multiset(Unfilled(frames)) ==
      multiset(Unfilled(frames[..i] + frames[i + 1..])) + multiset{frames[i].(output := None)}
  {
    RemovalIndices(frames, i);
    RemovedAt(Unfilled(frames), Unfilled(frames[..i] + frames[i + 1..]), i);
  }

  /** `zs` is `ys` without its i-th element, given index by index. */
  lemma RemovedAt<T>(ys: seq<T>, zs: seq<T>, i: nat)
    requires i < |ys| && |zs| == |ys| - 1
    requires forall k :: 0 <= k < |zs| ==> zs[k] == ys[if k < i then k else k + 1]
    ensures multiset(ys) == multiset(zs) + multiset{ys[i]}
  {
    assert zs == ys[..i] + ys[i + 1..];
    RemovalMultiset(ys, i);
  }

  /** The timestamp scenario is a run where every picture matches. */
  lemma {:induction false} ScenarioIsMatched(frames: seq<Frame>, pics: seq<OutputPicture>, key: Key)
    requires |pics| == |frames| && Identifiable(frames, key) && Pending(frames)
    requires key == Dts ==> PtsUnset(frames)
    requires multiset(PictureStamps(pics, key)) == multiset(FrameStamps(frames, key))
    ensures AllMatched(frames, pics)
    decreases |pics|
  {
    if pics != [] {
      var rest, done := FirstPictureStep(frames, pics, key);
      ScenarioIsMatched(rest, pics[1..], key);
    }
  }

  /** In the timestamp scenario every frame is finished exactly once: the
      finished frames, without their payloads, are the registry's frames. */
  lemma EveryFrameFinishesOnce(frames: seq<Frame>, pics: seq<OutputPicture>, key: Key)
    requires |pics| == |frames| && Identifiable(frames, key) && Pending(frames)
    requires key == Dts ==> PtsUnset(frames)
    requires multiset(PictureStamps(pics, key)) == multiset(FrameStamps(frames, key))
    ensures multiset(Unfilled(RunAll(frames, pics).done)) == multiset(frames)
  {
    ScenarioIsMatched(frames, pics, key);
    MatchedRunKeepsFrames(frames, pics);
    PendingUnfilled(frames);
  }

  lemma PendingUnfilled(frames: seq<Frame>)
    requires Pending(frames)
    ensures Unfilled(frames) == frames
  {
  }

  lemma UnfilledCons(f: Frame, fs: seq<Frame>)
    ensures multiset(Unfilled([f] + fs)) == multiset{f.(output := None)} + multiset(Unfilled(fs))
  {
    assert Unfilled([f] + fs) == [f.(output := None)] + Unfilled(fs);
  }
}
