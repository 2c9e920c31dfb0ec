/** Groups of pictures (models.py, class GOP and the scan in Stream.gops).

    A GOP is an object whose frame list and closed flag add_frame updates in
    place, so it is a class here. The partition that Stream.gops computes
    is specified by the function Partition on the frame sequence. */
module Gops {
  import opened Common
  import opened Numerals
  import opened Frames

  predicate ContainsIdr(fs: seq<Frame>) {
    exists k :: 0 <= k < |fs| && fs[k].variant == IdrFrame
  }

  predicate IsIFrame(f: Frame) {
    IsA(f.variant, IFrame)
  }

  /** reduce(lambda x, y: x + y.size, frames, 0). */
  function TotalSize(fs: seq<Frame>): int {
    if fs == [] then 0 else TotalSize(fs[..|fs| - 1]) + Frames.Size(fs[|fs| - 1])
  }

  /** The str() of each frame, concatenated. */
  function FramesCode(fs: seq<Frame>): string {
    if fs == [] then "" else FramesCode(fs[..|fs| - 1]) + Code(fs[|fs| - 1].variant)
  }

  /** The observable state of a GOP object. */
  datatype GopValue = GopValue(position: Option<int>, frames: seq<Frame>, closed: bool)

  /** The state after add_frame(f). */
  function Added(g: GopValue, f: Frame): GopValue {
    g.(frames := g.frames + [f], closed := g.closed || f.variant == IdrFrame)
  }

  class Gop {
    var position: Option<int>
    var frames: seq<Frame>
    var closed: bool

    /** The flag is set exactly when the GOP holds an IDR frame. */
    ghost predicate Valid()
      reads this
    {
      closed <==> ContainsIdr(frames)
    }

    function View(): GopValue
      reads this
    {
      GopValue(position, frames, closed)
    }

    constructor(position: Option<int>)
      ensures View() == GopValue(position, [], false)
      ensures Valid()
    {
      this.position := position;
      frames := [];
      closed := false;
    }

    method AddFrame(f: Frame)
      modifies this
      ensures View() == Added(old(View()), f)
      ensures old(Valid()) ==> Valid()
      ensures old(closed) ==> closed
    {
      frames := frames + [f];
      if f.variant == IdrFrame {
        closed := true;
      }
      assert frames[|frames| - 1] == f;
      assert forall k :: 0 <= k < |old(frames)| ==> frames[k] == old(frames)[k];
    }

    function Length(): nat
      reads this
    {
      |frames|
    }

    /** Size in bits: the sum of the frames' sizes. */
    function Size(): int
      reads this
    {
      TotalSize(frames)
    }

    /** The start of the first frame; a GOP without frames has none. */
    function StartTime(): (r: Result<real>)
      reads this
      ensures frames == [] ==> r == Err(EmptyGop)
      ensures frames != [] ==> r == Frames.StartTime(frames[0])
    {
      if frames == [] then Err(EmptyGop) else Frames.StartTime(frames[0])
    }

    /** The end of the last frame. */
    function EndTime(): (r: Result<real>)
      reads this
      ensures frames == [] ==> r == Err(EmptyGop)
      ensures frames != [] ==> r == Frames.EndTime(frames[|frames| - 1])
    {
      if frames == [] then Err(EmptyGop) else Frames.EndTime(frames[|frames| - 1])
    }

    /** end_time - start_time; the end time is evaluated first. */
    function Duration(): (r: Result<real>)
      reads this
      ensures r.Ok? <==> EndTime().Ok? && StartTime().Ok?
      ensures r.Ok? ==> StartTime().value + r.value == EndTime().value
    {
      match EndTime()
      case Err(e) => Err(e)
      case Ok(t1) =>
        (match StartTime()
         case Err(e) => Err(e)
         case Ok(t0) => Ok(t1 - t0))
    }

    /** repr(gop): "GOP: " + frame letters + " " + count + " CLOSED"/" OPEN". */
    function ToString(): string
      reads this
    {
      "GOP: " + FramesCode(frames) + " " + NatToString(|frames|) + " " +
      (if closed then "CLOSED" else "OPEN")
    }
  }

  /** One step of the scan in Stream.gops: an I frame (IDR or not) met while
      the current GOP already holds frames opens the next GOP; the frame is
      then added to the current GOP. */
  function ScanStep(q: seq<GopValue>, f: Frame): (p: seq<GopValue>)
    requires |q| >= 1
    ensures |p| >= 1
  {
    var cur := q[|q| - 1];
    if IsIFrame(f) && |cur.frames| > 0 then q + [Added(GopValue(Some(|q| + 1), [], false), f)]
    else q[..|q| - 1] + [Added(cur, f)]
  }

  /** What one step of the scan leaves in place and what it changes. */
  lemma {:induction false} ScanStepShape(q: seq<GopValue>, f: Frame)
    requires |q| >= 1
    ensures var p, n := ScanStep(q, f), |q|;
      var opens := IsIFrame(f) && |q[n - 1].frames| > 0;
      && |p| == (if opens then n + 1 else n)
      && (forall k :: 0 <= k < n - 1 ==> p[k] == q[k])
      && (opens ==> p[n - 1] == q[n - 1] && p[n] == Added(GopValue(Some(n + 1), [], false), f))
      && (!opens ==> p[n - 1] == Added(q[n - 1], f))
  {
  }

  /** The GOPs Stream.gops builds from frames: GOP 1 is opened before the
      first frame, then every frame is scanned in order. */
  function Partition(fs: seq<Frame>): (p: seq<GopValue>)
    ensures |p| >= 1
  {
    if fs == [] then [GopValue(Some(1), [], false)]
    else ScanStep(Partition(fs[..|fs| - 1]), fs[|fs| - 1])
  }

  /** The frames of the GOPs, in order. */
  function Flatten(gs: seq<GopValue>): seq<Frame> {
    if gs == [] then [] else Flatten(gs[..|gs| - 1]) + gs[|gs| - 1].frames
  }

  /** The number of I frames (IDR or not) in fs. */
  function CountIFrames(fs: seq<Frame>): nat {
    if fs == [] then 0 else CountIFrames(fs[..|fs| - 1]) + (if IsIFrame(fs[|fs| - 1]) then 1 else 0)
  }

  lemma {:induction false} FlattenDropLast(gs: seq<GopValue>, g: GopValue)
    ensures Flatten(gs + [g]) == Flatten(gs) + g.frames
  {
    assert (gs + [g])[..|gs|] == gs;
  }

  /** One step of the scan appends the frame to the GOPs' frames. */
  lemma {:induction false} ScanStepFlatten(q: seq<GopValue>, f: Frame)
    requires |q| >= 1
    ensures Flatten(ScanStep(q, f)) == Flatten(q) + [f]
  {
    var cur, pre := q[|q| - 1], q[..|q| - 1];
    assert q == pre + [cur];
    FlattenDropLast(pre, cur);
    if IsIFrame(f) && |cur.frames| > 0 {
      var g := Added(GopValue(Some(|q| + 1), [], false), f);
      assert g.frames == [f];
      FlattenDropLast(q, g);
    } else {
      var g := Added(cur, f);
      assert ScanStep(q, f) == pre + [g];
      assert g.frames == cur.frames + [f];
      FlattenDropLast(pre, g);
      assert Flatten(pre) + (cur.frames + [f]) == (Flatten(pre) + cur.frames) + [f];
    }
  }

  /** Concatenating the GOPs' frames gives the stream's frames back. */
  lemma {:induction false} PartitionConcat(fs: seq<Frame>)
    ensures Flatten(Partition(fs)) == fs
  {
    if fs != [] {
      var init, f := fs[..|fs| - 1], fs[|fs| - 1];
      assert fs == init + [f];
      PartitionConcat(init);
      ScanStepFlatten(Partition(init), f);
    }
  }

  /** GOP positions are 1, 2, ..., k in order. */
  lemma {:induction false} PartitionPositions(fs: seq<Frame>)
    ensures forall i :: 0 <= i < |Partition(fs)| ==> Partition(fs)[i].position == Some(i + 1)
  {
    if fs != [] {
      PartitionPositions(fs[..|fs| - 1]);
    }
  }

  /** Without frames there is one empty, open GOP; with frames no GOP is empty. */
  lemma {:induction false} PartitionNonEmpty(fs: seq<Frame>)
    ensures fs == [] ==> Partition(fs) == [GopValue(Some(1), [], false)]
    ensures fs != [] ==> forall i :: 0 <= i < |Partition(fs)| ==> |Partition(fs)[i].frames| > 0
  {
    if fs != [] {
      PartitionNonEmpty(fs[..|fs| - 1]);
    }
  }

  /** An I frame (IDR or not) can only be the first frame of a GOP, and every
      GOP after the first starts with one. */
  lemma {:induction false} PartitionBoundaries(fs: seq<Frame>)
    ensures forall i, k :: 0 <= i < |Partition(fs)| && 0 < k < |Partition(fs)[i].frames| ==>
              !IsIFrame(Partition(fs)[i].frames[k])
    ensures forall i :: 0 < i < |Partition(fs)| ==>
              |Partition(fs)[i].frames| > 0 && IsIFrame(Partition(fs)[i].frames[0])
  {
    if fs != [] {
      var init := fs[..|fs| - 1];
      PartitionBoundaries(init);
      PartitionNonEmpty(init);
      ScanStepShape(Partition(init), fs[|fs| - 1]);
    }
  }

  /** There is one GOP more than there are I frames after the first frame. */
  lemma {:induction false} PartitionCount(fs: seq<Frame>)
    ensures fs == [] ==> |Partition(fs)| == 1
    ensures fs != [] ==> |Partition(fs)| == 1 + CountIFrames(fs[1..])
  {
    if fs != [] {
      var init, f := fs[..|fs| - 1], fs[|fs| - 1];
      var q := Partition(init);
      ScanStepShape(q, f);
      if init != [] {
        PartitionCount(init);
        PartitionNonEmpty(init);
        assert |q[|q| - 1].frames| > 0;
        assert |Partition(fs)| == |q| + (if IsIFrame(f) then 1 else 0);
        var t := fs[1..];
        assert t[..|t| - 1] == init[1..];
        assert t[|t| - 1] == f;
        assert CountIFrames(t) == CountIFrames(init[1..]) + (if IsIFrame(f) then 1 else 0);
      } else {
        assert |Partition(fs)| == 1;
        assert fs[1..] == [];
      }
    }
  }

  /** A GOP of the partition is closed exactly when it holds an IDR frame. */
  lemma {:induction false} PartitionClosed(fs: seq<Frame>)
    ensures forall i :: 0 <= i < |Partition(fs)| ==>
              (Partition(fs)[i].closed <==> ContainsIdr(Partition(fs)[i].frames))
  {
    if fs != [] {
      var init, f := fs[..|fs| - 1], fs[|fs| - 1];
      PartitionClosed(init);
      AddedKeepsClosed(GopValue(Some(|Partition(init)| + 1), [], false), f);
      AddedKeepsClosed(Partition(init)[|Partition(init)| - 1], f);
    }
  }

  lemma AddedKeepsClosed(g: GopValue, f: Frame)
    requires g.closed <==> ContainsIdr(g.frames)
    ensures Added(g, f).closed <==> ContainsIdr(Added(g, f).frames)
  {
    var fs := Added(g, f).frames;
    assert fs[|fs| - 1] == f;
    assert forall k :: 0 <= k < |g.frames| ==> fs[k] == g.frames[k];
  }

  lemma {:induction false} TotalSizeAppend(a: seq<Frame>, b: seq<Frame>)
    ensures TotalSize(a + b) == TotalSize(a) + TotalSize(b)
  {
    if b == [] {
      assert a + b == a;
    } else {
      var b0 := b[..|b| - 1];
      assert (a + b)[..|a + b| - 1] == a + b0;
      assert (a + b)[|a + b| - 1] == b[|b| - 1];
      TotalSizeAppend(a, b0);
    }
  }

  /** The sum of the GOP sizes of all GOPs. */
  function SumGopSizes(gs: seq<GopValue>): int {
    if gs == [] then 0 else SumGopSizes(gs[..|gs| - 1]) + TotalSize(gs[|gs| - 1].frames)
  }

  lemma {:induction false} SumGopSizesFlatten(gs: seq<GopValue>)
    ensures SumGopSizes(gs) == TotalSize(Flatten(gs))
  {
    if gs != [] {
      var init := gs[..|gs| - 1];
      SumGopSizesFlatten(init);
      TotalSizeAppend(Flatten(init), gs[|gs| - 1].frames);
    }
  }

  /** The GOP sizes add up to the size of the whole frame sequence. */
  lemma {:induction false} PartitionSizes(fs: seq<Frame>)
    ensures SumGopSizes(Partition(fs)) == TotalSize(fs)
  {
    SumGopSizesFlatten(Partition(fs));
    PartitionConcat(fs);
  }

  /** When no frame is a plain Frame, the frame part of repr(gop) has one
      letter per frame, which is that frame's letter. */
  lemma {:induction false} FramesCodeLetters(fs: seq<Frame>)
    requires forall k :: 0 <= k < |fs| ==> fs[k].variant != PlainFrame
    ensures |FramesCode(fs)| == |fs|
    ensures forall k :: 0 <= k < |fs| ==> [FramesCode(fs)[k]] == Code(fs[k].variant)
  {
    if fs != [] {
      var init := fs[..|fs| - 1];
      FramesCodeLetters(init);
      assert FramesCode(fs) == FramesCode(init) + Code(fs[|fs| - 1].variant);
    }
  }

  /** The GOP objects hold the states q, one distinct object per GOP. */
  ghost predicate Holds(gops: seq<Gop>, q: seq<GopValue>)
    reads gops
  {
    && |gops| == |q|
    && (forall k :: 0 <= k < |gops| ==> gops[k].View() == q[k])
    && (forall k, l :: 0 <= k < l < |gops| ==> gops[k] != gops[l])
  }

  /** One pass of the loop of Stream.gops on the frame f: the current GOP
      is the last one. */
  method ScanFrame(gops: seq<Gop>, f: Frame, ghost q: seq<GopValue>) returns (gops': seq<Gop>)
    requires |q| >= 1 && Holds(gops, q)
    modifies gops
    ensures Holds(gops', ScanStep(q, f))
    ensures |gops| <= |gops'| && gops'[..|gops|] == gops
    ensures forall j :: |gops| <= j < |gops'| ==> fresh(gops'[j])
  {
    var gop := gops[|gops| - 1];
    ScanStepShape(q, f);
    if IsIFrame(f) && |gop.frames| > 0 {
      gop := new Gop(Some(|gops| + 1));
      gops' := gops + [gop];
    } else {
      gops' := gops;
    }
    gop.AddFrame(f);
    forall k | 0 <= k < |gops'|
      ensures gops'[k].View() == ScanStep(q, f)[k]
    {
      if k != |gops'| - 1 {
        assert gops'[k] != gop;
      }
    }
  }

  /** The four frames of the closed GOP of the unit tests: I B B P at 50 fps
      and a time base of 1/10^7 s. */
  function ClosedGopFrames(): seq<Frame> {
    var tb, fr := Some(1.0 / 10000000.0), Some(50.0);
    [Frame(IdrFrame, 200000, 104000, "I", 1, "video", tb, fr, Some(0)),
     Frame(BFrame, 400000, 4440, "B", 0, "video", tb, fr, Some(1)),
     Frame(BFrame, 600000, 1324, "B", 0, "video", tb, fr, Some(2)),
     Frame(PFrame, 800000, 10612, "P", 0, "video", tb, fr, Some(3))]
  }

  lemma ClosedGopFramesFacts()
    ensures TotalSize(ClosedGopFrames()) == (104000 + 4440 + 1324 + 10612) * 8
    ensures FramesCode(ClosedGopFrames()) == "IBBP"
    ensures Frames.StartTime(ClosedGopFrames()[0]) == Ok(0.02)
    ensures Frames.EndTime(ClosedGopFrames()[3]) == Ok(0.1)
  {
    var fs := ClosedGopFrames();
    assert fs[..0] == [];
    assert fs[..1][..0] == [];
    assert fs[..2][..1] == fs[..1];
    assert fs[..3][..2] == fs[..2];
    assert fs[..3] == fs[..4][..3];
    assert fs == fs[..4];
    assert TotalSize(fs[..1]) == 104000 * 8;
    assert TotalSize(fs[..2]) == (104000 + 4440) * 8;
    assert TotalSize(fs[..3]) == (104000 + 4440 + 1324) * 8;
    assert FramesCode(fs[..1]) == "I";
    assert FramesCode(fs[..2]) == "IB";
    assert FramesCode(fs[..3]) == "IBB";
  }

  /** The closed GOP of the unit tests, built with add_frame. */
  method BuildClosedGop() returns (gop: Gop)
    ensures fresh(gop) && gop.View() == GopValue(None, ClosedGopFrames(), true)
  {
    var fs := ClosedGopFrames();
    gop := new Gop(None);
    gop.AddFrame(fs[0]);
    gop.AddFrame(fs[1]);
    gop.AddFrame(fs[2]);
    gop.AddFrame(fs[3]);
    assert gop.frames == fs;
  }

  /** Its metrics and its text: I B B P, from 0.02 s to 0.1 s. */
  method ClosedGopExample()
  {
    var gop := BuildClosedGop();
    ClosedGopFramesFacts();
    assert gop.Length() == 4;
    assert gop.StartTime() == Ok(0.02);
    assert gop.EndTime() == Ok(0.1);
    assert gop.Size() == (104000 + 4440 + 1324 + 10612) * 8;
    assert NatToString(4) == "4";
    assert gop.ToString() == "GOP: IBBP 4 CLOSED";
  }

  /** The open GOP of the unit tests, built with add_frame: i B. */
  method OpenGopExample()
  {
    var tb, fr := Some(1.0 / 10000000.0), Some(50.0);
    var i := Frame(IFrame, 200000, 104000, "I", 0, "video", tb, fr, None);
    var b := Frame(BFrame, 400000, 4440, "B", 0, "video", tb, fr, None);
    var gop := new Gop(None);
    gop.AddFrame(i);
    gop.AddFrame(b);
    assert gop.frames == [i, b];
    assert gop.Length() == 2;
    assert !gop.closed;
    assert FramesCode([i, b]) == "iB" by {
      assert [i, b][..1] == [i];
      assert [i][..0] == [];
      assert FramesCode([i]) == "i";
    }
    assert NatToString(2) == "2";
    assert gop.ToString() == "GOP: iB 2 OPEN";
  }
}
