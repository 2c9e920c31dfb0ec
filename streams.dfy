/** One elementary video stream (models.py, class Stream).

    The Python object is filled in place by parse_from_json and add_frame,
    so it is a class. Its type query and its GOP scan are loops that build
    fresh lists; both are proved against specification functions about
    which the properties of the source are stated as lemmas. */
module Streams {
  import opened Common
  import opened Numerals
  import opened Frames
  import opened Gops

  /** One stream descriptor of the probe output. */
  datatype StreamRecord = StreamRecord(
    index: int,
    avgFrameRate: string,
    timeBase: string,
    durationTs: int,
    width: int,
    height: int)

  /** Whether get_frames_for_type(kind, strict) keeps f: type(f) == kind when
      strict, isinstance(f, kind) otherwise. */
  predicate Matches(f: Frame, kind: Variant, strict: bool) {
    if strict then f.variant == kind else IsA(f.variant, kind)
  }

  /** The matching frames, in their original order. */
  function Filter(fs: seq<Frame>, kind: Variant, strict: bool): seq<Frame> {
    if fs == [] then []
    else Filter(fs[..|fs| - 1], kind, strict) +
         (if Matches(fs[|fs| - 1], kind, strict) then [fs[|fs| - 1]] else [])
  }

  /** get_frames_for_type: no type gives all frames. */
  function FramesOfType(fs: seq<Frame>, kind: Option<Variant>, strict: bool): seq<Frame> {
    if kind.None? then fs else Filter(fs, kind.value, strict)
  }

  /** The positions in fs of the frames Filter keeps. */
  function FilterIndices(fs: seq<Frame>, kind: Variant, strict: bool): seq<nat> {
    if fs == [] then []
    else FilterIndices(fs[..|fs| - 1], kind, strict) +
         (if Matches(fs[|fs| - 1], kind, strict) then [|fs| - 1] else [])
  }

  lemma {:induction false} FilterIndicesShape(fs: seq<Frame>, kind: Variant, strict: bool)
    ensures var ix := FilterIndices(fs, kind, strict);
      && (forall k :: 0 <= k < |ix| ==> ix[k] < |fs|)
      && (forall k, l :: 0 <= k < l < |ix| ==> ix[k] < ix[l])
      && (forall j :: 0 <= j < |fs| ==> (Matches(fs[j], kind, strict) <==> j in ix))
  {
    if fs != [] {
      var init := fs[..|fs| - 1];
      FilterIndicesShape(init, kind, strict);
      var ix0 := FilterIndices(init, kind, strict);
      var ix := FilterIndices(fs, kind, strict);
      assert forall k :: 0 <= k < |ix0| ==> ix[k] == ix0[k];
      forall j | 0 <= j < |fs|
        ensures Matches(fs[j], kind, strict) <==> j in ix
      {
        if j < |init| {
          assert fs[j] == init[j];
          assert j in ix0 <==> j in ix;
        }
      }
    }
  }

  lemma {:induction false} FilterAtIndices(fs: seq<Frame>, kind: Variant, strict: bool)
    ensures var r, ix := Filter(fs, kind, strict), FilterIndices(fs, kind, strict);
      && |r| == |ix|
      && (forall k :: 0 <= k < |ix| ==> ix[k] < |fs| && r[k] == fs[ix[k]])
  {
    if fs != [] {
      var init := fs[..|fs| - 1];
      FilterAtIndices(init, kind, strict);
      var r0, ix0 := Filter(init, kind, strict), FilterIndices(init, kind, strict);
      var r, ix := Filter(fs, kind, strict), FilterIndices(fs, kind, strict);
      forall k | 0 <= k < |ix0|
        ensures ix[k] == ix0[k] && r[k] == r0[k] && fs[ix0[k]] == init[ix0[k]]
      {
      }
    }
  }

  /** Filter keeps exactly the matching frames, in order: its k-th frame is
      the frame at the k-th matching position, the positions increase, and
      a position is listed exactly when its frame matches. */
  lemma FilterIsOrderedSubsequence(fs: seq<Frame>, kind: Variant, strict: bool)
    ensures var r, ix := Filter(fs, kind, strict), FilterIndices(fs, kind, strict);
      && |r| == |ix|
      && (forall k :: 0 <= k < |ix| ==> ix[k] < |fs| && r[k] == fs[ix[k]])
      && (forall k, l :: 0 <= k < l < |ix| ==> ix[k] < ix[l])
      && (forall j :: 0 <= j < |fs| ==> (Matches(fs[j], kind, strict) <==> j in ix))
  {
    FilterIndicesShape(fs, kind, strict);
    FilterAtIndices(fs, kind, strict);
  }

  /** The number of frames of fs that match. */
  function CountMatching(fs: seq<Frame>, kind: Variant, strict: bool): nat {
    if fs == [] then 0
    else CountMatching(fs[..|fs| - 1], kind, strict) +
         (if Matches(fs[|fs| - 1], kind, strict) then 1 else 0)
  }

  lemma {:induction false} FilterLength(fs: seq<Frame>, kind: Variant, strict: bool)
    ensures |Filter(fs, kind, strict)| == CountMatching(fs, kind, strict)
  {
    if fs != [] {
      FilterLength(fs[..|fs| - 1], kind, strict);
    }
  }

  /** A strict query never returns more frames than the same query without
      strict. */
  lemma {:induction false} StrictAtMostLoose(fs: seq<Frame>, kind: Variant)
    ensures |Filter(fs, kind, true)| <= |Filter(fs, kind, false)|
  {
    if fs != [] {
      StrictAtMostLoose(fs[..|fs| - 1], kind);
    }
  }

  /** The non-strict I frame query counts the plain I frames and the IDR
      frames; it equals the strict one exactly when there is no IDR frame. */
  lemma {:induction false} IFrameCounts(fs: seq<Frame>)
    ensures |Filter(fs, IFrame, false)| == |Filter(fs, IFrame, true)| + |Filter(fs, IdrFrame, true)|
    ensures |Filter(fs, IFrame, false)| == |Filter(fs, IFrame, true)| <==> !ContainsIdr(fs)
  {
    if fs != [] {
      var init := fs[..|fs| - 1];
      IFrameCounts(init);
      if ContainsIdr(init) {
        var k :| 0 <= k < |init| && init[k].variant == IdrFrame;
        assert fs[k] == init[k];
      }
      if ContainsIdr(fs) && fs[|fs| - 1].variant != IdrFrame {
        var k :| 0 <= k < |fs| && fs[k].variant == IdrFrame;
        assert init[k] == fs[k];
      }
    }
  }

  /** duration_ts * time_base: a tick count in seconds. */
  function Seconds(ticks: int, timeBase: real): real {
    ticks as real * timeBase
  }

  /** The failure parse_from_json meets on a descriptor, if any: the frame
      rate is read before the time base. */
  function DescriptorError(rec: StreamRecord): (e: Option<Error>)
    ensures e.None? <==> ParseRatio(rec.avgFrameRate).Ok? && ParseRatio(rec.timeBase).Ok?
  {
    if ParseRatio(rec.avgFrameRate).Err? then Some(ParseRatio(rec.avgFrameRate).error)
    else if ParseRatio(rec.timeBase).Err? then Some(ParseRatio(rec.timeBase).error)
    else None
  }

  class Stream {
    var index: int
    var frameRate: Option<real>   // frames per second
    var timeBase: Option<real>    // seconds per tick
    var duration: Option<real>    // seconds
    var frames: seq<Frame>

    /** The stream's fields are those a successful parse_from_json of rec sets. */
    ghost predicate Describes(rec: StreamRecord)
      reads this
    {
      && DescriptorError(rec).None?
      && frameRate == Some(ParseRatio(rec.avgFrameRate).value)
      && timeBase == Some(ParseRatio(rec.timeBase).value)
      && duration == Some(Seconds(rec.durationTs, ParseRatio(rec.timeBase).value))
      && index == rec.index
    }

    /** Stream(stream_index=...) without an origin. */
    constructor(streamIndex: int)
      ensures index == streamIndex && frames == []
      ensures frameRate == None && timeBase == None && duration == None
    {
      index := streamIndex;
      frameRate, timeBase, duration := None, None, None;
      frames := [];
    }

    /** parse_from_json: the frame rate, then the time base, then the
        duration and the index. A ratio that does not parse stops the update
        where it fails. */
    method ParseFromJson(rec: StreamRecord) returns (err: Option<Error>)
      modifies this
      ensures err == DescriptorError(rec)
      ensures err.None? ==> Describes(rec)
      ensures frames == old(frames)
      ensures ParseRatio(rec.avgFrameRate).Err? ==>
        && err == Some(ParseRatio(rec.avgFrameRate).error)
        && frameRate == old(frameRate) && timeBase == old(timeBase)
        && duration == old(duration) && index == old(index)
      ensures ParseRatio(rec.avgFrameRate).Ok? && ParseRatio(rec.timeBase).Err? ==>
        && err == Some(ParseRatio(rec.timeBase).error)
        && frameRate == Some(ParseRatio(rec.avgFrameRate).value)
        && timeBase == old(timeBase) && duration == old(duration) && index == old(index)
      ensures ParseRatio(rec.avgFrameRate).Ok? && ParseRatio(rec.timeBase).Ok? ==>
        && err == None
        && frameRate == Some(ParseRatio(rec.avgFrameRate).value)
        && timeBase == Some(ParseRatio(rec.timeBase).value)
        && duration == Some(Seconds(rec.durationTs, ParseRatio(rec.timeBase).value))
        && index == rec.index
    {
      var fr := ParseRatio(rec.avgFrameRate);
      if fr.Err? {
        return Some(fr.error);
      }
      frameRate := Some(fr.value);
      var tb := ParseRatio(rec.timeBase);
      if tb.Err? {
        return Some(tb.error);
      }
      timeBase := Some(tb.value);
      duration := Some(Seconds(rec.durationTs, tb.value));
      index := rec.index;
      err := None;
    }

    method AddFrame(f: Frame)
      modifies this
      ensures frames == old(frames) + [f]
      ensures index == old(index) && frameRate == old(frameRate)
      ensures timeBase == old(timeBase) && duration == old(duration)
    {
      frames := frames + [f];
    }

    /** get_frames_for_type(frame_type, strict). */
    method GetFramesForType(kind: Option<Variant>, strict: bool) returns (fs: seq<Frame>)
      ensures fs == FramesOfType(frames, kind, strict)
    {
      if kind.None? {
        return frames;
      }
      fs := [];
      var i := 0;
      while i < |frames|
        invariant 0 <= i <= |frames|
        invariant fs == Filter(frames[..i], kind.value, strict)
      {
        var f := frames[i];
        if Matches(f, kind.value, strict) {
          fs := fs + [f];
        }
        assert frames[..i + 1][..i] == frames[..i];
        i := i + 1;
      }
      assert frames[..i] == frames;
    }

    /** The gops property: a fresh list of fresh GOP objects, computed anew
        on each call, whose states are the partition of the frames. */
    method Gops() returns (gops: seq<Gop>)
      ensures |gops| == |Partition(frames)|
      ensures forall k :: 0 <= k < |gops| ==> fresh(gops[k]) && gops[k].View() == Partition(frames)[k]
      ensures forall k, l :: 0 <= k < l < |gops| ==> gops[k] != gops[l]
    {
      var gop := new Gop(Some(1));
      gops := [gop];
      var i := 0;
      while i < |frames|
        invariant 0 <= i <= |frames|
        invariant forall k :: 0 <= k < |gops| ==> fresh(gops[k])
        invariant Holds(gops, Partition(frames[..i]))
      {
        assert frames[..i + 1][..i] == frames[..i];
        ghost var gops0 := gops;
        gops := ScanFrame(gops, frames[i], Partition(frames[..i]));
        forall k | 0 <= k < |gops|
          ensures fresh(gops[k])
        {
          if k < |gops0| {
            assert gops[k] == gops0[k];
          }
        }
        i := i + 1;
      }
      assert frames[..i] == frames;
    }
  }
}
