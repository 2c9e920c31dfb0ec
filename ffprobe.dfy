/** Streams and frames from the probe output (ffprobe_parser.py, class
    FFProbeResponse).

    Running the probe and decoding its JSON are left out: the response is
    given as a value holding the stream descriptors and the raw frame
    records in the order the probe printed them. */
module FFProbe {
  import opened Common
  import opened Numerals
  import opened Frames
  import opened Streams

  datatype ProbeResponse = ProbeResponse(streams: seq<StreamRecord>, frames: seq<FrameRecord>)

  /** The records get_frames_for_stream keeps for a stream index. */
  predicate Kept(rec: FrameRecord, index: int) {
    rec.mediaType == "video" && rec.streamIndex == index
  }

  /** The frames get_frames_for_stream builds from recs: each kept record
      becomes a Frame with the stream's time base and frame rate and with
      position (its index in recs) + 1. The first record that fails to
      parse ends the scan. */
  function FramesFor(recs: seq<FrameRecord>, index: int, tb: Option<real>, fr: Option<real>)
    : Result<seq<Frame>>
  {
    if recs == [] then Ok([])
    else
      match FramesFor(recs[..|recs| - 1], index, tb, fr)
      case Err(e) => Err(e)
      case Ok(fs) =>
        var rec := recs[|recs| - 1];
        if Kept(rec, index) then
          match ParseFrame(rec, tb, fr, Some(|recs|))
          case Err(e) => Err(e)
          case Ok(f) => Ok(fs + [f])
        else Ok(fs)
  }

  /** The positions of the kept records, in order. */
  function KeptIndices(recs: seq<FrameRecord>, index: int): seq<nat> {
    if recs == [] then []
    else KeptIndices(recs[..|recs| - 1], index) +
         (if Kept(recs[|recs| - 1], index) then [|recs| - 1] else [])
  }

  /** Building the frames succeeds exactly when every kept record has a
      numeric packet size. */
  lemma {:induction false} FramesForSucceeds(recs: seq<FrameRecord>, index: int, tb: Option<real>, fr: Option<real>)
    ensures FramesFor(recs, index, tb, fr).Ok? <==>
            forall j :: 0 <= j < |recs| && Kept(recs[j], index) ==> PacketSizeValue(recs[j].pktSize).Ok?
  {
    if recs != [] {
      var init := recs[..|recs| - 1];
      FramesForSucceeds(init, index, tb, fr);
      assert forall j :: 0 <= j < |init| ==> init[j] == recs[j];
    }
  }

  /** The kept positions increase and are exactly those of the records
      with media type "video" and the stream's index. */
  lemma {:induction false} KeptIndicesShape(recs: seq<FrameRecord>, index: int)
    ensures var ix := KeptIndices(recs, index);
      && (forall k :: 0 <= k < |ix| ==> ix[k] < |recs|)
      && (forall k, l :: 0 <= k < l < |ix| ==> ix[k] < ix[l])
      && (forall j :: 0 <= j < |recs| ==> (Kept(recs[j], index) <==> j in ix))
  {
    if recs != [] {
      var init := recs[..|recs| - 1];
      KeptIndicesShape(init, index);
      var ix0 := KeptIndices(init, index);
      var ix := KeptIndices(recs, index);
      assert forall k :: 0 <= k < |ix0| ==> ix[k] == ix0[k];
      forall j | 0 <= j < |recs|
        ensures Kept(recs[j], index) <==> j in ix
      {
        if j < |init| {
          assert recs[j] == init[j];
          assert j in ix0 <==> j in ix;
        }
      }
    }
  }

  /** The k-th frame is the parse of the record at the k-th kept position,
      with position (that raw index) + 1. */
  predicate FramesAreKept(recs: seq<FrameRecord>, fs: seq<Frame>, ix: seq<nat>, tb: Option<real>, fr: Option<real>) {
    && |fs| == |ix|
    && (forall k :: 0 <= k < |ix| ==>
          ix[k] < |recs| && Ok(fs[k]) == ParseFrame(recs[ix[k]], tb, fr, Some(ix[k] + 1)))
  }

  lemma {:induction false} FramesForAreKeptRecords(recs: seq<FrameRecord>, index: int, tb: Option<real>, fr: Option<real>)
    requires FramesFor(recs, index, tb, fr).Ok?
    ensures var fs, ix := FramesFor(recs, index, tb, fr).value, KeptIndices(recs, index);
      && |fs| == |ix|
      && (forall k :: 0 <= k < |ix| ==>
            ix[k] < |recs| && Ok(fs[k]) == ParseFrame(recs[ix[k]], tb, fr, Some(ix[k] + 1)))
  {
    if recs != [] {
      var init := recs[..|recs| - 1];
      FramesForAreKeptRecords(init, index, tb, fr);
      FramesForLast(recs, index, tb, fr);
      KeptStep(recs, FramesFor(init, index, tb, fr).value, KeptIndices(init, index),
               FramesFor(recs, index, tb, fr).value, KeptIndices(recs, index), tb, fr);
    }
  }

  /** Adding the last record to the kept list, or leaving it out, keeps
      every frame the parse of its record. */
  lemma KeptStep(recs: seq<FrameRecord>, fs0: seq<Frame>, ix0: seq<nat>, fs: seq<Frame>, ix: seq<nat>,
                 tb: Option<real>, fr: Option<real>)
    requires recs != [] && FramesAreKept(recs[..|recs| - 1], fs0, ix0, tb, fr)
    requires var n := |recs| - 1;
      || (fs == fs0 && ix == ix0)
      || (ParseFrame(recs[n], tb, fr, Some(n + 1)).Ok? &&
          fs == fs0 + [ParseFrame(recs[n], tb, fr, Some(n + 1)).value] && ix == ix0 + [n])
    ensures FramesAreKept(recs, fs, ix, tb, fr)
  {
    var init := recs[..|recs| - 1];
    forall k | 0 <= k < |ix|
      ensures ix[k] < |recs| && Ok(fs[k]) == ParseFrame(recs[ix[k]], tb, fr, Some(ix[k] + 1))
    {
      if k < |ix0| {
        assert ix[k] == ix0[k] && fs[k] == fs0[k] && recs[ix0[k]] == init[ix0[k]];
      }
    }
  }

  /** One step of FramesFor and KeptIndices, for the last record. */
  lemma {:induction false} FramesForLast(recs: seq<FrameRecord>, index: int, tb: Option<real>, fr: Option<real>)
    requires recs != [] && FramesFor(recs, index, tb, fr).Ok?
    ensures var init, n := recs[..|recs| - 1], |recs| - 1;
      && FramesFor(init, index, tb, fr).Ok?
      && (Kept(recs[n], index) ==>
            && ParseFrame(recs[n], tb, fr, Some(n + 1)).Ok?
            && FramesFor(recs, index, tb, fr).value ==
               FramesFor(init, index, tb, fr).value + [ParseFrame(recs[n], tb, fr, Some(n + 1)).value]
            && KeptIndices(recs, index) == KeptIndices(init, index) + [n])
      && (!Kept(recs[n], index) ==>
            && FramesFor(recs, index, tb, fr).value == FramesFor(init, index, tb, fr).value
            && KeptIndices(recs, index) == KeptIndices(init, index))
  {
  }

  /** Every frame carries the stream's time base and frame rate, and the
      positions strictly increase. */
  lemma {:induction false} FramesForPositions(recs: seq<FrameRecord>, index: int, tb: Option<real>, fr: Option<real>)
    requires FramesFor(recs, index, tb, fr).Ok?
    ensures var fs := FramesFor(recs, index, tb, fr).value;
      && (forall k :: 0 <= k < |fs| ==>
            && fs[k].timeBase == tb && fs[k].frameRate == fr
            && fs[k].position.Some? && 1 <= fs[k].position.value <= |recs|)
      && (forall k, l :: 0 <= k < l < |fs| ==> fs[k].position.value < fs[l].position.value)
  {
    FramesForAreKeptRecords(recs, index, tb, fr);
    KeptIndicesShape(recs, index);
  }

  /** get_frames_for_stream(stream). An empty record list is an error; a
      list without any matching record gives no frames. */
  method GetFramesForStream(resp: ProbeResponse, stream: Stream) returns (r: Result<seq<Frame>>)
    ensures resp.frames == [] ==> r == Err(NoFrames)
    ensures resp.frames != [] ==> r == FramesFor(resp.frames, stream.index, stream.timeBase, stream.frameRate)
  {
    if resp.frames == [] {
      return Err(NoFrames);
    }
    var recs := resp.frames;
    var frames: seq<Frame> := [];
    var idx := 0;
    while idx < |recs|
      invariant 0 <= idx <= |recs|
      invariant FramesFor(recs[..idx], stream.index, stream.timeBase, stream.frameRate) == Ok(frames)
    {
      var jframe := recs[idx];
      assert recs[..idx + 1][..idx] == recs[..idx];
      if jframe.mediaType == "video" && jframe.streamIndex == stream.index {
        var frame := ParseFrame(jframe, stream.timeBase, stream.frameRate, Some(idx + 1));
        if frame.Err? {
          FramesForErrorSticks(recs, idx + 1, stream.index, stream.timeBase, stream.frameRate);
          return Err(frame.error);
        }
        frames := frames + [frame.value];
      }
      idx := idx + 1;
    }
    assert recs[..idx] == recs;
    return Ok(frames);
  }

  /** Once a prefix fails, the whole list fails with the same error. */
  lemma {:induction false} FramesForErrorSticks(recs: seq<FrameRecord>, n: nat, index: int, tb: Option<real>, fr: Option<real>)
    requires n <= |recs|
    requires FramesFor(recs[..n], index, tb, fr).Err?
    ensures FramesFor(recs, index, tb, fr) == FramesFor(recs[..n], index, tb, fr)
    decreases |recs| - n
  {
    if n < |recs| {
      assert recs[..n + 1][..n] == recs[..n];
      FramesForErrorSticks(recs, n + 1, index, tb, fr);
    } else {
      assert recs[..n] == recs;
    }
  }

  /** The failure of the first descriptor that does not parse, if any. */
  function FirstDescriptorError(recs: seq<StreamRecord>): Option<Error> {
    if recs == [] then None
    else if FirstDescriptorError(recs[..|recs| - 1]).Some? then FirstDescriptorError(recs[..|recs| - 1])
    else DescriptorError(recs[|recs| - 1])
  }

  lemma {:induction false} FirstDescriptorErrorStep(recs: seq<StreamRecord>, n: nat)
    requires n < |recs|
    ensures FirstDescriptorError(recs[..n + 1]) ==
      if FirstDescriptorError(recs[..n]).Some? then FirstDescriptorError(recs[..n]) else DescriptorError(recs[n])
  {
    assert recs[..n + 1][..n] == recs[..n];
  }

  /** Stream() followed by parse_from_json(record). */
  method NewStream(rec: StreamRecord) returns (err: Option<Error>, stream: Stream)
    ensures fresh(stream) && stream.frames == []
    ensures err == DescriptorError(rec)
    ensures err.None? ==> stream.Describes(rec)
  {
    stream := new Stream(0);
    err := stream.ParseFromJson(rec);
  }

  /** get_streams: one Stream per descriptor, in order, each filled by
      parse_from_json and holding no frames. No descriptor is an error. */
  method GetStreams(resp: ProbeResponse) returns (r: Result<seq<Stream>>)
    ensures resp.streams == [] ==> r == Err(NoStreams)
    ensures resp.streams != [] && FirstDescriptorError(resp.streams).Some? ==>
              r == Err(FirstDescriptorError(resp.streams).value)
    ensures resp.streams != [] && FirstDescriptorError(resp.streams).None? ==>
      && r.Ok? && |r.value| == |resp.streams|
      && (forall k :: 0 <= k < |r.value| ==>
            fresh(r.value[k]) && r.value[k].Describes(resp.streams[k]) && r.value[k].frames == [])
      && (forall k, l :: 0 <= k < l < |r.value| ==> r.value[k] != r.value[l])
  {
    if resp.streams == [] {
      return Err(NoStreams);
    }
    var recs := resp.streams;
    var streams: seq<Stream> := [];
    var idx := 0;
    while idx < |recs|
      invariant 0 <= idx <= |recs|
      invariant FirstDescriptorError(recs[..idx]).None?
      invariant |streams| == idx
      invariant forall k :: 0 <= k < idx ==>
        fresh(streams[k]) && streams[k].Describes(recs[k]) && streams[k].frames == []
      invariant forall k, l :: 0 <= k < l < idx ==> streams[k] != streams[l]
    {
      var jstream := recs[idx];
      FirstDescriptorErrorStep(recs, idx);
      var err, stream := NewStream(jstream);
      if err.Some? {
        FirstDescriptorErrorSticks(recs, idx + 1);
        return Err(err.value);
      }
      ghost var streams0 := streams;
      streams := streams + [stream];
      forall k | 0 <= k < idx + 1
        ensures fresh(streams[k]) && streams[k].Describes(recs[k]) && streams[k].frames == []
      {
        if k < idx {
          assert streams[k] == streams0[k];
        }
      }
      idx := idx + 1;
    }
    assert recs[..idx] == recs;
    return Ok(streams);
  }

  lemma {:induction false} FirstDescriptorErrorSticks(recs: seq<StreamRecord>, n: nat)
    requires n <= |recs|
    requires FirstDescriptorError(recs[..n]).Some?
    ensures FirstDescriptorError(recs) == FirstDescriptorError(recs[..n])
    decreases |recs| - n
  {
    if n < |recs| {
      assert recs[..n + 1][..n] == recs[..n];
      FirstDescriptorErrorSticks(recs, n + 1);
    } else {
      assert recs[..n] == recs;
    }
  }

  /** Stream(origin=response, stream_index=i): the i-th descriptor (Python
      indexing, so a negative i counts from the end) is parsed, then the
      frames for the index the descriptor names are attached. */
  method StreamFromProbe(resp: ProbeResponse, streamIndex: int) returns (r: Result<Stream>)
    ensures !(-|resp.streams| <= streamIndex < |resp.streams|) ==>
              r == Err(StreamIndexOutOfRange(streamIndex))
    ensures -|resp.streams| <= streamIndex < |resp.streams| ==>
      var rec := resp.streams[streamIndex % |resp.streams|];
      && (DescriptorError(rec).Some? ==> r == Err(DescriptorError(rec).value))
      && (DescriptorError(rec).None? ==>
           var fs := if resp.frames == [] then Err(NoFrames)
                     else FramesFor(resp.frames, rec.index,
                                    Some(ParseRatio(rec.timeBase).value),
                                    Some(ParseRatio(rec.avgFrameRate).value));
           && (fs.Err? ==> r == Err(fs.error))
           && (fs.Ok? ==> r.Ok? && fresh(r.value) && r.value.Describes(rec) && r.value.frames == fs.value))
  {
    var n := |resp.streams|;
    if !(-n <= streamIndex < n) {
      return Err(StreamIndexOutOfRange(streamIndex));
    }
    var stream := new Stream(streamIndex);
    var err := stream.ParseFromJson(resp.streams[streamIndex % n]);
    if err.Some? {
      return Err(err.value);
    }
    var frames := GetFramesForStream(resp, stream);
    if frames.Err? {
      return Err(frames.error);
    }
    stream.frames := frames.value;
    return Ok(stream);
  }
}
