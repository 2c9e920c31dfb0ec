/** One track of a fragmented MP4 file and its fragments (models.py,
    classes MP4Track and Fragment).

    A fragment is a 'moof' box and the 'mdat' box that follows it. The
    Python Fragment keeps a reference to its track and reads the track's
    time scale whenever a time is asked for; here that time scale is the
    argument of each timing function. Times are exact seconds. */
module Tracks {
  import opened Common
  import opened Boxes

  datatype Fragment = Fragment(moof: Box, mdat: Box, position: int)

  /** Decode time of the first sample in seconds: the tfdt decode time over
      the track time scale. The decode time is read first. */
  function StartTime(f: Fragment, timeScale: Option<int>): (r: Result<real>)
    ensures r.Ok? <==> DecodeTime(f.moof).Ok? && timeScale.Some? && timeScale.value != 0
    ensures r.Ok? ==> r.value * timeScale.value as real == DecodeTime(f.moof).value as real
    ensures DecodeTime(f.moof).Err? ==> r == Err(DecodeTime(f.moof).error)
    ensures DecodeTime(f.moof).Ok? && timeScale.None? ==> r == Err(NoTimeScale)
    ensures DecodeTime(f.moof).Ok? && timeScale == Some(0) ==> r == Err(DivisionByZero)
  {
    match DecodeTime(f.moof)
    case Err(e) => Err(e)
    case Ok(dt) =>
      if timeScale.None? then Err(NoTimeScale)
      else if timeScale.value == 0 then Err(DivisionByZero)
      else Ok(dt as real / timeScale.value as real)
  }

  /** Number of samples: the trun sample count. */
  function Length(f: Fragment): Result<int> {
    SampleCount(f.moof)
  }

  /** Duration in seconds: the tfhd default sample duration times the
      sample count over the time scale, read in that order. */
  function Duration(f: Fragment, timeScale: Option<int>): (r: Result<real>)
    ensures r.Ok? <==>
      && DefaultSampleDuration(f.moof).Ok? && Length(f).Ok?
      && timeScale.Some? && timeScale.value != 0
    ensures r.Ok? ==>
      r.value * timeScale.value as real ==
      (DefaultSampleDuration(f.moof).value * Length(f).value) as real
    ensures DefaultSampleDuration(f.moof).Err? ==> r == Err(DefaultSampleDuration(f.moof).error)
    ensures DefaultSampleDuration(f.moof).Ok? && Length(f).Err? ==> r == Err(Length(f).error)
  {
    match DefaultSampleDuration(f.moof)
    case Err(e) => Err(e)
    case Ok(sd) =>
      (match Length(f)
       case Err(e) => Err(e)
       case Ok(n) =>
         if timeScale.None? then Err(NoTimeScale)
         else if timeScale.value == 0 then Err(DivisionByZero)
         else Ok((sd * n) as real / timeScale.value as real))
  }

  /** The start time plus the duration; the start time is computed first. */
  function EndTime(f: Fragment, timeScale: Option<int>): (r: Result<real>)
    ensures r.Ok? <==> StartTime(f, timeScale).Ok? && Duration(f, timeScale).Ok?
    ensures r.Ok? ==> r.value == StartTime(f, timeScale).value + Duration(f, timeScale).value
    ensures StartTime(f, timeScale).Err? ==> r == Err(StartTime(f, timeScale).error)
  {
    match StartTime(f, timeScale)
    case Err(e) => Err(e)
    case Ok(s) =>
      (match Duration(f, timeScale)
       case Err(e) => Err(e)
       case Ok(d) => Ok(s + d))
  }

  /** Size of the media data in bits. */
  function Size(f: Fragment): int {
    f.mdat.size * 8
  }

  /** With a usable time scale, the end time in ticks is the decode time
      plus the samples' total duration in ticks. */
  lemma EndTimeInTicks(f: Fragment, ts: int)
    requires ts != 0
    requires EndTime(f, Some(ts)).Ok?
    ensures EndTime(f, Some(ts)).value * ts as real ==
      (DecodeTime(f.moof).value + DefaultSampleDuration(f.moof).value * Length(f).value) as real
  {
    var s, d := StartTime(f, Some(ts)).value, Duration(f, Some(ts)).value;
    calc {
      EndTime(f, Some(ts)).value * ts as real;
      (s + d) * ts as real;
      s * ts as real + d * ts as real;
    }
  }

  /** The fragment of the unit tests: decode time 153600000 and 48 samples
      of 400000 ticks at 10^7 ticks per second, in 66055 bytes of media
      data. */
  lemma FragmentExample()
    ensures
      var tfhd := Box("tfhd", 24, map["track ID" := 2, "default sample duration" := 400000,
                                      "default sample flags" := 16842752], []);
      var tfdt := Box("tfdt", 20, map["base media decode time" := 153600000], []);
      var trun := Box("trun", 408, map["sample count" := 48, "data offset" := 492,
                                      "first sample flags" := 33554432], []);
      var mfhd := Box("mfhd", 16, map["sequence number" := 9], []);
      var traf := Box("traf", 460, map[], [tfhd, tfdt, trun]);
      var f := Fragment(Box("moof", 484, map[], [mfhd, traf]), Box("mdat", 66055, map[], []), 5);
      var ts := Some(10000000);
      && f.position == 5
      && StartTime(f, ts) == Ok(15.36)
      && Length(f) == Ok(48)
      && Duration(f, ts) == Ok(0.04 * 48.0)
      && EndTime(f, ts) == Ok(15.36 + 0.04 * 48.0)
      && Size(f) == 66055 * 8
  {
    var tfhd := Box("tfhd", 24, map["track ID" := 2, "default sample duration" := 400000,
                                    "default sample flags" := 16842752], []);
    var tfdt := Box("tfdt", 20, map["base media decode time" := 153600000], []);
    var trun := Box("trun", 408, map["sample count" := 48, "data offset" := 492,
                                    "first sample flags" := 33554432], []);
    var mfhd := Box("mfhd", 16, map["sequence number" := 9], []);
    var traf := Box("traf", 460, map[], [tfhd, tfdt, trun]);
    var moof := Box("moof", 484, map[], [mfhd, traf]);
    FieldAtTwoSteps(moof, 1, 1, "base media decode time");
    FieldAtTwoSteps(moof, 1, 2, "sample count");
    FieldAtTwoSteps(moof, 1, 0, "default sample duration");
  }

  /** models.py MP4Track: the track id, the time scale found in the 'sidx'
      box, the duration found in the 'moov' box, in seconds, and the
      fragments. */
  class Mp4Track {
    var id: Option<int>
    var timeScale: Option<int>
    var duration: Option<real>
    var fragments: seq<Fragment>

    /** MP4Track(track_id) without a parser. */
    constructor(trackId: Option<int>)
      ensures id == trackId && timeScale == None && duration == None && fragments == []
    {
      id := trackId;
      timeScale, duration := None, None;
      fragments := [];
    }
  }
}
