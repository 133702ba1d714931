/**
 * Output-mode negotiation of the Dolby Vision professional decoder element:
 * the fixed table from output mode to pixel format used on the first decoded
 * picture, and the mode-specific overrides applied to the engine's output
 * configuration when the output-mode property is set.
 */
module DvproFormats {
  import opened Wrappers

  /** The engine's output modes, in the order the element registers them.
      `Unrecognised` stands for any other value of the C enum. */
  datatype OutputMode =
    | DolbyVisionNative
    | CscItp420pFull12
    | CscRgbP3d65Full10
    | CscRgbP3d65Full12
    | CscRgbBt2100Full10
    | CscRgbBt2100Full12
    | CscYuvP3d65_420pNarrow10
    | CscYuvP3d65_420pNarrow12
    | CscYuvP3d65Mat709_420pNarrow10
    | CscYuvP3d65Mat709_420pNarrow12
    | CscYuvBt2100_420pNarrow10
    | CscYuvBt2100_420pNarrow12
    | DolbyVisionHdmi
    | DmSdr100Bt709_8
    | DmSdr100Bt709_10
    | DmHdr600Bt2100_10
    | DmHdr600Bt2100_12
    | DmHdr1000Bt2100_10
    | DmHdr1000Bt2100_12
    | Unrecognised(code: int)

  /** The GStreamer video formats the element can announce downstream. */
  datatype VideoFormat = I420 | I420_10LE | I420_12LE | I422_12LE | GBR_10LE | GBR_12LE

  /** Sample layout of a format: 4:2:0 or 4:2:2 YUV, or planar full-resolution RGB. */
  datatype Layout = Yuv420 | Yuv422 | Rgb444

  function FormatDepth(f: VideoFormat): nat {
    match f
    case I420 => 8
    case I420_10LE => 10
    case GBR_10LE => 10
    case I420_12LE => 12
    case I422_12LE => 12
    case GBR_12LE => 12
  }

  function FormatLayout(f: VideoFormat): Layout {
    match f
    case I420 => Yuv420
    case I420_10LE => Yuv420
    case I420_12LE => Yuv420
    case I422_12LE => Yuv422
    case GBR_10LE => Rgb444
    case GBR_12LE => Rgb444
  }

  /** A video format is identified by its bit depth and its layout. */
  lemma FormatDeterminedByDepthAndLayout(f: VideoFormat, g: VideoFormat)
    requires FormatDepth(f) == FormatDepth(g) && FormatLayout(f) == FormatLayout(g)
    ensures f == g
  {
  }

  /** The four full-range RGB colour-space-conversion modes. */
  predicate IsRgbFull(m: OutputMode) {
    m == CscRgbP3d65Full10 || m == CscRgbP3d65Full12 ||
    m == CscRgbBt2100Full10 || m == CscRgbBt2100Full12
  }

  /** The bit depth a mode carries in its name (`_8`, `_10`, `_12`); the two
      native Dolby Vision modes and unrecognised values carry none. */
  function NameDepth(m: OutputMode): Option<nat> {
    match m
    case DolbyVisionNative => None
    case DolbyVisionHdmi => None
    case Unrecognised(_) => None
    case DmSdr100Bt709_8 => Some(8)
    case CscRgbP3d65Full10 => Some(10)
    case CscRgbBt2100Full10 => Some(10)
    case CscYuvP3d65_420pNarrow10 => Some(10)
    case CscYuvP3d65Mat709_420pNarrow10 => Some(10)
    case CscYuvBt2100_420pNarrow10 => Some(10)
    case DmSdr100Bt709_10 => Some(10)
    case DmHdr600Bt2100_10 => Some(10)
    case DmHdr1000Bt2100_10 => Some(10)
    case CscItp420pFull12 => Some(12)
    case CscRgbP3d65Full12 => Some(12)
    case CscRgbBt2100Full12 => Some(12)
    case CscYuvP3d65_420pNarrow12 => Some(12)
    case CscYuvP3d65Mat709_420pNarrow12 => Some(12)
    case CscYuvBt2100_420pNarrow12 => Some(12)
    case DmHdr600Bt2100_12 => Some(12)
    case DmHdr1000Bt2100_12 => Some(12)
  }

  /** The layout a mode's name announces: RGB for the full-range RGB modes,
      4:2:2 for the HDMI transport mode, 4:2:0 otherwise. */
  function NameLayout(m: OutputMode): Layout {
    if IsRgbFull(m) then Rgb444 else if m == DolbyVisionHdmi then Yuv422 else Yuv420
  }

  /** The format chosen on the first picture, and whether the choice warned. */
  datatype FormatChoice = FormatChoice(format: VideoFormat, warned: bool)

  /** The mode-to-format switch of the picture callback. Every mode gets the
      layout its name announces and the depth of its name's suffix (12 bits
      where there is none); only an unrecognised mode warns. */
  function FormatFor(m: OutputMode): (r: FormatChoice)
    ensures FormatLayout(r.format) == NameLayout(m)
    ensures FormatDepth(r.format) == NameDepth(m).GetOr(12)
    ensures r.warned <==> m.Unrecognised?
  {
    match m
    case DolbyVisionNative => FormatChoice(I420_12LE, false)
    case CscItp420pFull12 => FormatChoice(I420_12LE, false)
    case CscRgbP3d65Full10 => FormatChoice(GBR_10LE, false)
    case CscRgbP3d65Full12 => FormatChoice(GBR_12LE, false)
    case CscRgbBt2100Full10 => FormatChoice(GBR_10LE, false)
    case CscRgbBt2100Full12 => FormatChoice(GBR_12LE, false)
    case CscYuvP3d65_420pNarrow10 => FormatChoice(I420_10LE, false)
    case CscYuvP3d65_420pNarrow12 => FormatChoice(I420_12LE, false)
    case CscYuvP3d65Mat709_420pNarrow10 => FormatChoice(I420_10LE, false)
    case CscYuvP3d65Mat709_420pNarrow12 => FormatChoice(I420_12LE, false)
    case CscYuvBt2100_420pNarrow10 => FormatChoice(I420_10LE, false)
    case CscYuvBt2100_420pNarrow12 => FormatChoice(I420_12LE, false)
    case DolbyVisionHdmi => FormatChoice(I422_12LE, false)
    case DmSdr100Bt709_8 => FormatChoice(I420, false)
    case DmSdr100Bt709_10 => FormatChoice(I420_10LE, false)
    case DmHdr600Bt2100_10 => FormatChoice(I420_10LE, false)
    case DmHdr600Bt2100_12 => FormatChoice(I420_12LE, false)
    case DmHdr1000Bt2100_10 => FormatChoice(I420_10LE, false)
    case DmHdr1000Bt2100_12 => FormatChoice(I420_12LE, false)
    case Unrecognised(_) => FormatChoice(I420_12LE, true)
  }

  /** The format table, case by case: RGB full-range modes give GBR, HDMI
      gives 4:2:2 12-bit, the 8-bit SDR mode gives I420, every other mode
      (unrecognised ones included) gives 4:2:0 at its suffix's depth. */
  lemma FormatTable(m: OutputMode)
    ensures IsRgbFull(m) ==> FormatFor(m).format == (if NameDepth(m) == Some(10) then GBR_10LE else GBR_12LE)
    ensures m == DolbyVisionHdmi ==> FormatFor(m).format == I422_12LE
    ensures m == DmSdr100Bt709_8 ==> FormatFor(m).format == I420
    ensures !IsRgbFull(m) && m != DolbyVisionHdmi && m != DmSdr100Bt709_8 ==>
              FormatFor(m).format == (if NameDepth(m) == Some(10) then I420_10LE else I420_12LE)
  {
    var f := FormatFor(m).format;
    if IsRgbFull(m) {
      FormatDeterminedByDepthAndLayout(f, if NameDepth(m) == Some(10) then GBR_10LE else GBR_12LE);
    } else if m == DolbyVisionHdmi {
      FormatDeterminedByDepthAndLayout(f, I422_12LE);
    } else if m == DmSdr100Bt709_8 {
      FormatDeterminedByDepthAndLayout(f, I420);
    } else {
      FormatDeterminedByDepthAndLayout(f, if NameDepth(m) == Some(10) then I420_10LE else I420_12LE);
    }
  }

  /** Planar arrangement of the engine's output. The element names only the
      two it forces; every other arrangement is the engine's own code. */
  datatype Arrangement = Planar422 | Planar444 | EngineArrangement(code: int)

  /** Display-management algorithm version. */
  datatype DmAlgo = DmVer3 | DmVer4

  /** The part of the engine's output configuration the element reads or writes. */
  datatype OutputConfig = OutputConfig(arrangement: Arrangement, dmMetadataEmbedding: bool, algo: DmAlgo)

  /** The modes whose configuration the element overrides. */
  predicate HasOverride(m: OutputMode) {
    m == DolbyVisionHdmi || IsRgbFull(m)
  }

  /** The arrangement that carries a format's samples, where the element forces one. */
  function ArrangementFor(l: Layout): Option<Arrangement> {
    match l
    case Yuv422 => Some(Planar422)
    case Rgb444 => Some(Planar444)
    case Yuv420 => None
  }

  /** Overrides of the output-mode property applied to the engine's configuration
      `base` for mode `m`: HDMI forces 4:2:2 and turns metadata embedding off,
      the RGB full-range modes force 4:4:4, every other mode keeps `base`. The
      algorithm version is never touched. */
  function WithOverrides(base: OutputConfig, m: OutputMode): (c: OutputConfig)
    ensures c.algo == base.algo
    ensures !HasOverride(m) ==> c == base
    ensures HasOverride(m) ==> Some(c.arrangement) == ArrangementFor(FormatLayout(FormatFor(m).format))
    ensures c.dmMetadataEmbedding == (base.dmMetadataEmbedding && m != DolbyVisionHdmi)
  {
    match m
    case DolbyVisionHdmi => base.(arrangement := Planar422, dmMetadataEmbedding := false)
    case CscRgbP3d65Full10 => base.(arrangement := Planar444)
    case CscRgbP3d65Full12 => base.(arrangement := Planar444)
    case CscRgbBt2100Full10 => base.(arrangement := Planar444)
    case CscRgbBt2100Full12 => base.(arrangement := Planar444)
    case _ => base
  }
}
