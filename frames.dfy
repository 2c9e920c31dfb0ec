/** One decoded picture (models.py, class Frame and its four subclasses).

    The Python code builds an empty Frame, fills its fields from one probe
    record and then replaces the object's class by BFrame, PFrame, IFrame or
    IDRFrame. Here the class is a Variant fixed when the record is parsed,
    and a Frame is an immutable value. Times are exact seconds. */
module Frames {
  import opened Common
  import opened Numerals

  /** The class a parsed frame ends up with. PlainFrame is a Frame whose
      pict_type is none of "B", "P" and "I". */
  datatype Variant = PlainFrame | BFrame | PFrame | IFrame | IdrFrame

  /** isinstance(frame, kind) for the hierarchy
      Frame > BFrame, PFrame, IFrame > IDRFrame. */
  predicate IsA(v: Variant, kind: Variant) {
    v == kind || kind == PlainFrame || (kind == IFrame && v == IdrFrame)
  }

  /** The variant parse_from_json gives a record with this pict_type and
      key_frame; key_frame counts as set when it is non-zero. */
  function Classify(pictType: string, keyFrame: int): (v: Variant)
    ensures v == BFrame <==> pictType == "B"
    ensures v == PFrame <==> pictType == "P"
    ensures IsA(v, IFrame) <==> pictType == "I"
    ensures v == IdrFrame <==> pictType == "I" && keyFrame != 0
    ensures v == PlainFrame <==> pictType != "B" && pictType != "P" && pictType != "I"
  {
    if pictType == "B" then BFrame
    else if pictType == "P" then PFrame
    else if pictType == "I" then (if keyFrame != 0 then IdrFrame else IFrame)
    else PlainFrame
  }

  /** The packet size as the probe writes it: a number or a numeric string. */
  datatype PacketSize = SizeNumber(n: int) | SizeText(text: string)

  /** One raw frame record of the probe output. */
  datatype FrameRecord = FrameRecord(
    mediaType: string,
    streamIndex: int,
    pktPts: int,
    pktSize: PacketSize,
    pictType: string,
    keyFrame: int)

  datatype Frame = Frame(
    variant: Variant,
    pktPts: int,
    pktSize: int,          // bytes
    pictType: string,
    keyFrame: int,
    mediaType: string,
    timeBase: Option<real>,  // seconds per tick
    frameRate: Option<real>, // frames per second
    position: Option<int>)

  /** int(json['pkt_size']). */
  function PacketSizeValue(p: PacketSize): Result<int> {
    match p
    case SizeNumber(n) => Ok(n)
    case SizeText(t) => ParseInt(t)
  }

  /** Frame(time_base, frame_rate, position) followed by parse_from_json(record). */
  function ParseFrame(rec: FrameRecord, timeBase: Option<real>, frameRate: Option<real>,
                      position: Option<int>): (r: Result<Frame>)
    ensures r.Err? <==> PacketSizeValue(rec.pktSize).Err?
    ensures r.Ok? ==>
      && r.value.variant == Classify(rec.pictType, rec.keyFrame)
      && Ok(r.value.pktSize) == PacketSizeValue(rec.pktSize)
      && r.value.pktPts == rec.pktPts && r.value.pictType == rec.pictType
      && r.value.keyFrame == rec.keyFrame && r.value.mediaType == rec.mediaType
      && r.value.timeBase == timeBase && r.value.frameRate == frameRate
      && r.value.position == position
  {
    match PacketSizeValue(rec.pktSize)
    case Err(e) => Err(e)
    case Ok(bytes) =>
      Ok(Frame(Classify(rec.pictType, rec.keyFrame), rec.pktPts, bytes, rec.pictType,
               rec.keyFrame, rec.mediaType, timeBase, frameRate, position))
  }

  /** Python truthiness of an optional number: set and non-zero. */
  predicate IsSet(o: Option<real>) {
    o.Some? && o.value != 0.0
  }

  /** Size in bits. */
  function Size(f: Frame): int {
    f.pktSize * 8
  }

  /** Duration in seconds: one frame period. */
  function Duration(f: Frame): (r: Result<real>)
    ensures r.Ok? <==> IsSet(f.frameRate)
    ensures r.Err? ==> r.error == NoFrameRate
    ensures r.Ok? ==> r.value * f.frameRate.value == 1.0
  {
    if IsSet(f.frameRate) then Ok(1.0 / f.frameRate.value) else Err(NoFrameRate)
  }

  /** Instantaneous bitrate in bits per second. */
  function Bitrate(f: Frame): (r: Result<real>)
    ensures r.Ok? <==> IsSet(f.frameRate)
    ensures r.Err? ==> r.error == NoFrameRate
  {
    if IsSet(f.frameRate) then Ok(Size(f) as real * f.frameRate.value) else Err(NoFrameRate)
  }

  /** Presentation time in seconds. */
  function StartTime(f: Frame): (r: Result<real>)
    ensures r.Ok? <==> IsSet(f.timeBase)
    ensures r.Err? ==> r.error == NoTimeBase
    ensures r.Ok? ==> r.value == f.pktPts as real * f.timeBase.value
  {
    if IsSet(f.timeBase) then Ok(f.pktPts as real * f.timeBase.value) else Err(NoTimeBase)
  }

  /** End of the frame: the time base is checked first, then the frame rate. */
  function EndTime(f: Frame): (r: Result<real>)
    ensures r.Ok? <==> IsSet(f.timeBase) && IsSet(f.frameRate)
    ensures r.Err? ==> r.error == if IsSet(f.timeBase) then NoFrameRate else NoTimeBase
    ensures r.Ok? ==> r.value == StartTime(f).value + Duration(f).value
  {
    if !IsSet(f.timeBase) then Err(NoTimeBase)
    else match Duration(f)
      case Err(e) => Err(e)
      case Ok(d) => Ok(f.pktPts as real * f.timeBase.value + d)
  }

  /** str(frame): "B", "P", "i" (non-IDR I), "I" (IDR) or "frame". */
  function Code(v: Variant): string {
    match v
    case PlainFrame => "frame"
    case BFrame => "B"
    case PFrame => "P"
    case IFrame => "i"
    case IdrFrame => "I"
  }

  /** The letter of each variant tells the variant back. */
  lemma CodeIsInjective(v: Variant, w: Variant)
    ensures Code(v) == Code(w) <==> v == w
  {
    if Code(v) == Code(w) {
      assert Code(v)[0] == Code(w)[0];
    }
  }

  /** Two records agreeing on pict_type and on whether key_frame is set get
      the same variant, in both directions of the IDR test. */
  lemma VariantDependsOnTypeAndKey(a: FrameRecord, b: FrameRecord)
    requires a.pictType == b.pictType
    ensures Classify(a.pictType, a.keyFrame) == Classify(b.pictType, b.keyFrame)
            <==> (a.pictType != "I" || (a.keyFrame != 0 <==> b.keyFrame != 0))
  {
  }

  /** A numeric string or a number for pkt_size both give eight bits per byte. */
  lemma ParsedSize(rec: FrameRecord, n: int, tb: Option<real>, fr: Option<real>, pos: Option<int>)
    requires rec.pktSize == SizeText(IntToString(n)) || rec.pktSize == SizeNumber(n)
    ensures ParseFrame(rec, tb, fr, pos).Ok?
    ensures Size(ParseFrame(rec, tb, fr, pos).value) == 8 * n
  {
    ParseIntRoundTrip(n);
  }

  /** Bits per second times seconds per frame gives the frame's bits back. */
  lemma BitrateTimesDuration(f: Frame)
    requires IsSet(f.frameRate)
    ensures Bitrate(f).value * Duration(f).value == Size(f) as real
  {
    var r := f.frameRate.value;
    calc {
      Bitrate(f).value * Duration(f).value;
      (Size(f) as real * r) * (1.0 / r);
      Size(f) as real * (r * (1.0 / r));
    }
  }

  /** Changing the frame rate changes the duration and the end time but not
      the start time. */
  lemma FrameRateChange(f: Frame, rate: real)
    requires IsSet(f.timeBase) && rate != 0.0
    ensures StartTime(f.(frameRate := Some(rate))) == StartTime(f)
    ensures Duration(f.(frameRate := Some(rate))) == Ok(1.0 / rate)
    ensures EndTime(f.(frameRate := Some(rate))) == Ok(StartTime(f).value + 1.0 / rate)
  {
    var g := f.(frameRate := Some(rate));
    assert StartTime(g).value == StartTime(f).value;
  }

  /** The B frame of the unit tests: 50 fps, a time base of 1/10^7 s, pts
      400000 and 4440 bytes; then the frame rate changed to 25. */
  lemma BFrameExample()
    ensures
      var rec := FrameRecord("video", 0, 400000, SizeText("4440"), "B", 0);
      var r := ParseFrame(rec, Some(1.0 / 10000000.0), Some(50.0), Some(5));
      && r.Ok? && r.value.variant == BFrame && r.value.position == Some(5)
      && Size(r.value) == 4440 * 8
      && StartTime(r.value) == Ok(0.04)
      && Duration(r.value) == Ok(0.02)
      && EndTime(r.value) == Ok(0.06)
      && Duration(r.value.(frameRate := Some(25.0))) == Ok(0.04)
      && EndTime(r.value.(frameRate := Some(25.0))) == Ok(0.08)
  {
    assert "4440" == IntToString(4440);
    ParseIntRoundTrip(4440);
  }
}
