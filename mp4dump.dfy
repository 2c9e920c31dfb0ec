/** The reader of the MP4 dumper's box list (mp4dump_parser.py, class
    MP4DumpResponse).

    Both operations walk the top-level boxes once, in order. The track
    information is written into the track object as it is found, so a
    failure part-way leaves what was written before it. */
module Mp4Dump {
  import opened Common
  import opened Boxes
  import opened Tracks

  /** The track fields get_info_for_track writes, and the failure that
      stopped it, if any. */
  datatype TrackInfo = TrackInfo(timeScale: Option<int>, duration: Option<real>, err: Option<Error>)

  /** The effect of one top-level box: a 'moov' sets the duration, a 'sidx'
      sets the time scale. */
  function InfoStep(s: TrackInfo, b: Box): TrackInfo {
    if s.err.Some? then s
    else if b.name == "moov" then
      (match MoovDuration(b)
       case Err(e) => s.(err := Some(e))
       case Ok(d) => s.(duration := Some(d)))
    else if b.name == "sidx" then
      (match SidxTimescale(b)
       case Err(e) => s.(err := Some(e))
       case Ok(ts) => s.(timeScale := Some(ts)))
    else s
  }

  function InfoScan(bs: seq<Box>, s: TrackInfo): TrackInfo {
    if bs == [] then s else InfoStep(InfoScan(bs[..|bs| - 1], s), bs[|bs| - 1])
  }

  /** get_info_for_track. */
  method GetInfoForTrack(bs: seq<Box>, track: Mp4Track) returns (err: Option<Error>)
    modifies track
    ensures TrackInfo(track.timeScale, track.duration, err) ==
            InfoScan(bs, TrackInfo(old(track.timeScale), old(track.duration), None))
    ensures track.id == old(track.id) && track.fragments == old(track.fragments)
  {
    ghost var s0 := TrackInfo(track.timeScale, track.duration, None);
    var i := 0;
    while i < |bs|
      invariant 0 <= i <= |bs|
      invariant track.id == old(track.id) && track.fragments == old(track.fragments)
      invariant InfoScan(bs[..i], s0) == TrackInfo(track.timeScale, track.duration, None)
    {
      var b := bs[i];
      assert bs[..i + 1][..i] == bs[..i];
      if b.name == "moov" {
        var d := MoovDuration(b);
        if d.Err? {
          InfoFailureSticks(bs[..i + 1], bs[i + 1..], s0);
          assert bs[..i + 1] + bs[i + 1..] == bs;
          return Some(d.error);
        }
        track.duration := Some(d.value);
      } else if b.name == "sidx" {
        var ts := SidxTimescale(b);
        if ts.Err? {
          InfoFailureSticks(bs[..i + 1], bs[i + 1..], s0);
          assert bs[..i + 1] + bs[i + 1..] == bs;
          return Some(ts.error);
        }
        track.timeScale := Some(ts.value);
      }
      i := i + 1;
    }
    assert bs[..i] == bs;
    err := None;
  }

  /** Once a box has failed, the boxes after it change nothing. */
  lemma {:induction false} InfoFailureSticks(bs: seq<Box>, rest: seq<Box>, s: TrackInfo)
    requires InfoScan(bs, s).err.Some?
    ensures InfoScan(bs + rest, s) == InfoScan(bs, s)
    decreases |rest|
  {
    if rest != [] {
      var init := rest[..|rest| - 1];
      assert (bs + rest)[..|bs + rest| - 1] == bs + init;
      assert (bs + rest)[|bs + rest| - 1] == rest[|rest| - 1];
      InfoFailureSticks(bs, init, s);
    } else {
      assert bs + rest == bs;
    }
  }

  /** The reading succeeds exactly when every 'moov' has a usable duration
      and every 'sidx' a time scale. */
  lemma {:induction false} InfoScanSucceeds(bs: seq<Box>, s: TrackInfo)
    requires s.err.None?
    ensures InfoScan(bs, s).err.None? <==>
      forall j :: 0 <= j < |bs| ==>
        && (bs[j].name == "moov" ==> MoovDuration(bs[j]).Ok?)
        && (bs[j].name == "sidx" ==> SidxTimescale(bs[j]).Ok?)
  {
    if bs != [] {
      var init := bs[..|bs| - 1];
      InfoScanSucceeds(init, s);
      assert forall j :: 0 <= j < |init| ==> init[j] == bs[j];
    }
  }

  /** When the reading succeeds, the last 'moov' gives the duration; without
      one the duration keeps its earlier value. */
  lemma {:induction false} LastMoovWins(bs: seq<Box>, s: TrackInfo)
    requires InfoScan(bs, s).err.None?
    ensures match LastNamed(bs, "moov")
      case None => InfoScan(bs, s).duration == s.duration
      case Some(m) => MoovDuration(m).Ok? && InfoScan(bs, s).duration == Some(MoovDuration(m).value)
  {
    if bs != [] {
      LastMoovWins(bs[..|bs| - 1], s);
    }
  }

  /** When the reading succeeds, the last 'sidx' gives the time scale;
      without one the time scale keeps its earlier value. */
  lemma {:induction false} LastSidxWins(bs: seq<Box>, s: TrackInfo)
    requires InfoScan(bs, s).err.None?
    ensures match LastNamed(bs, "sidx")
      case None => InfoScan(bs, s).timeScale == s.timeScale
      case Some(x) => SidxTimescale(x).Ok? && InfoScan(bs, s).timeScale == Some(SidxTimescale(x).value)
  {
    if bs != [] {
      LastSidxWins(bs[..|bs| - 1], s);
    }
  }

  /** What get_fragments_for_track holds while it walks the boxes: the last
      'moof' seen and the fragments built so far. */
  datatype PairState = PairState(moof: Option<Box>, fragments: seq<Fragment>)

  /** A 'moof' becomes the pending one; an 'mdat' after some 'moof' makes a
      fragment numbered from 1; any other box, and an 'mdat' with no 'moof'
      before it, changes nothing. */
  function PairStep(s: PairState, b: Box): PairState {
    if b.name == "moof" then s.(moof := Some(b))
    else if b.name == "mdat" && s.moof.Some? then
      s.(fragments := s.fragments + [Fragment(s.moof.value, b, |s.fragments| + 1)])
    else s
  }

  function PairScan(bs: seq<Box>): PairState {
    if bs == [] then PairState(None, []) else PairStep(PairScan(bs[..|bs| - 1]), bs[|bs| - 1])
  }

  /** get_fragments_for_track. The track argument is only stored in each
      fragment by the Python code and is not modelled. */
  method GetFragmentsForTrack(bs: seq<Box>) returns (fragments: seq<Fragment>)
    ensures fragments == PairScan(bs).fragments
  {
    fragments := [];
    var moof: Option<Box> := None;
    var count := 1;
    var i := 0;
    while i < |bs|
      invariant 0 <= i <= |bs|
      invariant PairScan(bs[..i]) == PairState(moof, fragments)
      invariant count == |fragments| + 1
    {
      var b := bs[i];
      assert bs[..i + 1][..i] == bs[..i];
      if b.name == "moof" {
        moof := Some(b);
      }
      if b.name == "mdat" {
        if moof.Some? {
          fragments := fragments + [Fragment(moof.value, b, count)];
          count := count + 1;
        }
      }
      i := i + 1;
    }
    assert bs[..i] == bs;
  }

  /** Whether the box at j is an 'mdat' with some 'moof' before it. */
  predicate Paired(bs: seq<Box>, j: nat)
    requires j < |bs|
  {
    bs[j].name == "mdat" && LastNamed(bs[..j], "moof").Some?
  }

  /** The positions of the 'mdat' boxes that have some 'moof' before them. */
  function PairedIndices(bs: seq<Box>): seq<nat> {
    if bs == [] then []
    else PairedIndices(bs[..|bs| - 1]) + (if Paired(bs, |bs| - 1) then [|bs| - 1] else [])
  }

  lemma {:induction false} PairedIndicesShape(bs: seq<Box>)
    ensures var ix := PairedIndices(bs);
      && (forall k :: 0 <= k < |ix| ==> ix[k] < |bs|)
      && (forall k, l :: 0 <= k < l < |ix| ==> ix[k] < ix[l])
      && (forall j :: 0 <= j < |bs| ==> (Paired(bs, j) <==> j in ix))
  {
    if bs != [] {
      var init := bs[..|bs| - 1];
      PairedIndicesShape(init);
      var ix0, ix := PairedIndices(init), PairedIndices(bs);
      assert forall k :: 0 <= k < |ix0| ==> ix[k] == ix0[k];
      forall j | 0 <= j < |bs|
        ensures Paired(bs, j) <==> j in ix
      {
        if j < |init| {
          assert bs[..j] == init[..j];
          assert Paired(bs, j) == Paired(init, j);
          assert j in ix0 <==> j in ix;
        }
      }
    }
  }

  /** The pending box is the last 'moof' so far. */
  lemma {:induction false} PendingMoof(bs: seq<Box>)
    ensures PairScan(bs).moof == LastNamed(bs, "moof")
  {
    if bs != [] {
      PendingMoof(bs[..|bs| - 1]);
    }
  }

  lemma {:induction false} FragmentsAtPairedIndices(bs: seq<Box>)
    ensures var fs, ix := PairScan(bs).fragments, PairedIndices(bs);
      && |fs| == |ix|
      && (forall k :: 0 <= k < |ix| ==>
            && ix[k] < |bs| && Paired(bs, ix[k])
            && fs[k] == Fragment(LastNamed(bs[..ix[k]], "moof").value, bs[ix[k]], k + 1))
  {
    if bs != [] {
      var init := bs[..|bs| - 1];
      FragmentsAtPairedIndices(init);
      PendingMoof(init);
      var fs0, ix0 := PairScan(init).fragments, PairedIndices(init);
      var fs, ix := PairScan(bs).fragments, PairedIndices(bs);
      forall k | 0 <= k < |ix0|
        ensures ix[k] == ix0[k] && fs[k] == fs0[k]
        ensures bs[..ix0[k]] == init[..ix0[k]] && bs[ix0[k]] == init[ix0[k]]
      {
      }
    }
  }

  /** The fragments, characterised: one per 'mdat' that follows some 'moof',
      in order, numbered 1, 2, ..., each made of that 'mdat' and the last
      'moof' before it. So an 'mdat' before the first 'moof' is ignored,
      consecutive 'mdat' boxes share their 'moof', and a trailing 'moof'
      yields nothing. */
  lemma {:induction false} FragmentsPairBoxes(bs: seq<Box>)
    ensures var fs, ix := PairScan(bs).fragments, PairedIndices(bs);
      && |fs| == |ix|
      && (forall k :: 0 <= k < |ix| ==>
            && ix[k] < |bs| && bs[ix[k]].name == "mdat" && LastNamed(bs[..ix[k]], "moof").Some?
            && fs[k] == Fragment(LastNamed(bs[..ix[k]], "moof").value, bs[ix[k]], k + 1))
      && (forall k, l :: 0 <= k < l < |ix| ==> ix[k] < ix[l])
      && (forall j :: 0 <= j < |bs| ==>
            (j in ix <==> bs[j].name == "mdat" && LastNamed(bs[..j], "moof").Some?))
  {
    PairedIndicesShape(bs);
    FragmentsAtPairedIndices(bs);
  }

  /** MP4Track(track_id, parser): the track information, then the
      fragments. A failure of the first step is returned instead of a track. */
  method TrackFromDump(bs: seq<Box>, trackId: Option<int>) returns (r: Result<Mp4Track>)
    ensures var info := InfoScan(bs, TrackInfo(None, None, None));
      && (r.Err? <==> info.err.Some?)
      && (r.Err? ==> r.error == info.err.value)
      && (r.Ok? ==>
            && fresh(r.value) && r.value.id == trackId
            && r.value.timeScale == info.timeScale && r.value.duration == info.duration
            && r.value.fragments == PairScan(bs).fragments)
  {
    var track := new Mp4Track(trackId);
    var err := GetInfoForTrack(bs, track);
    if err.Some? {
      return Err(err.value);
    }
    var fragments := GetFragmentsForTrack(bs);
    track.fragments := fragments;
    r := Ok(track);
  }
}
