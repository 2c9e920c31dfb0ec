/** What extract_fragments computes, stated on the boxes (fragments.py,
    lines 20-53).

    The store of the walk holds the initial empty dictionary at position 0
    and the dictionary of the i-th 'moof' at position i + 1. Each 'mdat'
    appends the dictionary of the last 'moof' before it, the initial one
    when there is none. A dictionary's duration is the gap to the decode
    time of the next 'moof' after its last 'mdat'. */
module FragmentFacts {
  import opened Common
  import opened Boxes
  import opened Mp4Dump
  import opened FragmentExtractor

  /** The number of boxes named name. */
  function CountNamed(bs: seq<Box>, name: string): nat {
    if bs == [] then 0
    else CountNamed(bs[..|bs| - 1], name) + (if bs[|bs| - 1].name == name then 1 else 0)
  }

  /** The positions of the boxes named name, in order. */
  function Positions(bs: seq<Box>, name: string): seq<nat> {
    if bs == [] then []
    else Positions(bs[..|bs| - 1], name) + (if bs[|bs| - 1].name == name then [|bs| - 1] else [])
  }

  /** For each 'mdat' in order, the number of 'moof' boxes before it. */
  function Owners(bs: seq<Box>): seq<nat> {
    if bs == [] then []
    else Owners(bs[..|bs| - 1]) +
         (if bs[|bs| - 1].name == "mdat" then [CountNamed(bs[..|bs| - 1], "moof")] else [])
  }

  /** The k-th and the (k + 1)-th entries of the result differ: a 'moof'
      came between the two 'mdat' boxes. */
  predicate ChangesAt(list: seq<nat>, k: int) {
    0 <= k < |list| - 1 && list[k] != list[k + 1]
  }

  /** The k-th entry is the last appearance of its dictionary in a row. */
  predicate LastInRun(list: seq<nat>, k: int) {
    0 <= k < |list| && (k == |list| - 1 || list[k] != list[k + 1])
  }

  /** Dictionary i holds, as its duration, the gap from its decode time to
      that of dictionary j. */
  predicate Timed(s: ExState, i: nat, j: nat)
    requires i < |s.recs| && j < |s.recs|
  {
    && s.recs[i].decodeTime.Some? && s.recs[j].decodeTime.Some?
    && s.recs[i].duration == Some((s.recs[j].decodeTime.value - s.recs[i].decodeTime.value) as real)
  }

  /** What holds of the store while no box has failed. */
  ghost predicate Inv(s: ExState)
    requires Good(s)
  {
    && s.current == |s.recs| - 1
    && s.recs[0].decodeTime.None?
    && (forall i :: 1 <= i < |s.recs| ==> s.recs[i].decodeTime.Some?)
    && (forall k, l :: 0 <= k < l < |s.list| ==> s.list[k] <= s.list[l])
    && s.previous == (if s.list == [] then None else Some(s.list[|s.list| - 1]))
    && (s.list != [] && s.list[0] == 0 ==> s.current == 0)
    && (s.previous.Some? && s.previous.value != s.current ==> Timed(s, s.previous.value, s.current))
    && (forall k :: ChangesAt(s.list, k) ==> Timed(s, s.list[k], s.list[k + 1]))
  }

  lemma StartInv(ts: Option<int>, dur: Option<real>)
    ensures Inv(Start(ts, dur))
  {
  }

  lemma MoofInv(s: ExState, b: Box)
    requires Good(s) && Inv(s) && OpenStep(s, b).err.None?
    ensures Inv(OpenStep(s, b))
  {
    var r := OpenStep(s, b);
    var dt := DecodeTime(b).value;
    assert r.list == s.list && r.previous == s.previous && |r.recs| == |s.recs| + 1;
    assert r.current == |s.recs| && r.recs[r.current].decodeTime == Some(dt);
    assert forall i :: 0 <= i < |s.recs| ==> r.recs[i].decodeTime == s.recs[i].decodeTime;
    if s.list != [] {
      var p := s.list[|s.list| - 1];
      assert s.recs[p].decodeTime.Some?;
      assert r.recs[p].duration == Some((dt - s.recs[p].decodeTime.value) as real);
      forall k | ChangesAt(r.list, k)
        ensures Timed(r, r.list[k], r.list[k + 1])
      {
        assert Timed(s, s.list[k], s.list[k + 1]);
        assert s.list[k] < s.list[k + 1] <= p;
        assert r.recs[s.list[k]] == s.recs[s.list[k]];
      }
    }
  }

  lemma MdatInv(s: ExState, b: Box)
    requires Good(s) && Inv(s)
    ensures Inv(CloseStep(s, b))
  {
    var r := CloseStep(s, b);
    var c := s.current;
    assert r.list == s.list + [c] && r.previous == Some(c) && r.current == c;
    assert forall i :: 0 <= i < |s.recs| ==>
      r.recs[i].decodeTime == s.recs[i].decodeTime && r.recs[i].duration == s.recs[i].duration;
    forall k | ChangesAt(r.list, k)
      ensures Timed(r, r.list[k], r.list[k + 1])
    {
      if k == |s.list| - 1 {
        assert Timed(s, s.list[k], c);
      } else {
        assert Timed(s, s.list[k], s.list[k + 1]);
      }
    }
  }

  lemma KeepInv(s: ExState, r: ExState)
    requires Good(s) && Good(r) && Inv(s)
    requires r.recs == s.recs && r.list == s.list && r.current == s.current && r.previous == s.previous
    ensures Inv(r)
  {
    assert forall i, j :: 0 <= i < |s.recs| && 0 <= j < |s.recs| ==> (Timed(r, i, j) <==> Timed(s, i, j));
  }

  /** Every box that does not fail keeps the invariant. */
  lemma StepInv(s: ExState, b: Box)
    requires Good(s) && Inv(s) && ExStep(s, b).err.None?
    ensures Inv(ExStep(s, b))
  {
    var r := ExStep(s, b);
    if b.name == "moof" {
      assert r == OpenStep(s, b);
      MoofInv(s, b);
    } else if b.name == "mdat" {
      assert r == CloseStep(s, b);
      MdatInv(s, b);
    } else {
      KeepInv(s, r);
    }
  }

  lemma {:induction false} ScanInv(bs: seq<Box>, ts: Option<int>, dur: Option<real>)
    ensures var s := Scan(bs, Start(ts, dur));
      s.err.None? ==> Inv(s)
  {
    if bs == [] {
      StartInv(ts, dur);
    } else {
      var init := bs[..|bs| - 1];
      ScanInv(init, ts, dur);
      if Scan(bs, Start(ts, dur)).err.None? {
        StepInv(Scan(init, Start(ts, dur)), bs[|bs| - 1]);
      }
    }
  }

  /** What one box that does not fail changes in the store, from s to r. */
  predicate StepShape(s: ExState, b: Box, r: ExState)
    requires Good(s) && Good(r)
  {
    && (b.name == "moof" ==>
          && |r.recs| == |s.recs| + 1 && r.current == |s.recs|
          && r.list == s.list && r.previous == s.previous
          && r.recs[|s.recs|].moof == Some(b) && r.recs[|s.recs|].decodeTime.Some?
          && DecodeTime(b) == Ok(r.recs[|s.recs|].decodeTime.value))
    && (b.name == "mdat" ==>
          && |r.recs| == |s.recs| && r.current == s.current
          && r.list == s.list + [s.current] && r.previous == Some(s.current)
          && r.recs[s.current].mdat == Some(b)
          && (forall i :: 0 <= i < |s.recs| && i != s.current ==> r.recs[i].mdat == s.recs[i].mdat))
    && (b.name != "moof" && b.name != "mdat" ==>
          r.recs == s.recs && r.list == s.list && r.current == s.current && r.previous == s.previous)
    && |s.recs| <= |r.recs|
    && (b.name != "mdat" ==> forall i :: 0 <= i < |s.recs| ==> r.recs[i].mdat == s.recs[i].mdat)
    && (forall i :: 0 <= i < |s.recs| ==>
          r.recs[i].moof == s.recs[i].moof && r.recs[i].decodeTime == s.recs[i].decodeTime)
  }

  lemma StepFacts(s: ExState, b: Box)
    requires Good(s) && ExStep(s, b).err.None?
    ensures s.err.None? && StepShape(s, b, ExStep(s, b))
  {
  }

  /** One dictionary per 'moof' besides the initial one, the current one is
      the newest, and the result lists, for each 'mdat', the number of
      'moof' boxes before it. */
  lemma {:induction false} ScanCounts(bs: seq<Box>, ts: Option<int>, dur: Option<real>)
    ensures var s := Scan(bs, Start(ts, dur));
      s.err.None? ==>
        && |s.recs| == 1 + CountNamed(bs, "moof")
        && s.current == |s.recs| - 1
        && s.list == Owners(bs)
  {
    if bs != [] {
      var init := bs[..|bs| - 1];
      ScanCounts(init, ts, dur);
      var s0 := Scan(init, Start(ts, dur));
      if Scan(bs, Start(ts, dur)).err.None? {
        StepFacts(s0, bs[|bs| - 1]);
      }
    }
  }

  /** The positions of the boxes named name are increasing positions of
      such boxes, one per box. */
  lemma {:induction false} PositionsShape(bs: seq<Box>, name: string)
    ensures var ps := Positions(bs, name);
      && |ps| == CountNamed(bs, name)
      && (forall i :: 0 <= i < |ps| ==> ps[i] < |bs| && bs[ps[i]].name == name)
      && (forall i, j :: 0 <= i < j < |ps| ==> ps[i] < ps[j])
  {
    if bs != [] {
      var init := bs[..|bs| - 1];
      PositionsShape(init, name);
      var ps0, ps := Positions(init, name), Positions(bs, name);
      assert forall i :: 0 <= i < |ps0| ==> ps[i] == ps0[i] && bs[ps0[i]] == init[ps0[i]];
    }
  }

  /** Dictionary i + 1 holds the i-th 'moof' of bs and its decode time. */
  predicate MoofsHeld(bs: seq<Box>, s: ExState)
    requires Good(s)
  {
    var ps := Positions(bs, "moof");
    && |s.recs| == |ps| + 1
    && (forall i :: 0 <= i < |ps| ==>
          && ps[i] < |bs|
          && s.recs[i + 1].moof == Some(bs[ps[i]])
          && s.recs[i + 1].decodeTime.Some?
          && DecodeTime(bs[ps[i]]) == Ok(s.recs[i + 1].decodeTime.value))
  }

  lemma {:induction false} MoofsStep(bs: seq<Box>, s0: ExState, s: ExState)
    requires bs != [] && Good(s0) && Good(s)
    requires MoofsHeld(bs[..|bs| - 1], s0) && StepShape(s0, bs[|bs| - 1], s)
    ensures MoofsHeld(bs, s)
  {
    var init, b := bs[..|bs| - 1], bs[|bs| - 1];
    var ps0, ps := Positions(init, "moof"), Positions(bs, "moof");
    assert forall i :: 0 <= i < |ps0| ==> ps[i] == ps0[i] && bs[ps0[i]] == init[ps0[i]];
    if b.name == "moof" {
      assert ps == ps0 + [|bs| - 1];
    } else {
      assert ps == ps0;
    }
  }

  /** Dictionary i + 1 holds the i-th 'moof' and its decode time. */
  lemma {:induction false} ScanMoofs(bs: seq<Box>, ts: Option<int>, dur: Option<real>)
    ensures var s := Scan(bs, Start(ts, dur));
      s.err.None? ==> MoofsHeld(bs, s)
  {
    if bs != [] {
      var init := bs[..|bs| - 1];
      ScanMoofs(init, ts, dur);
      var s0 := Scan(init, Start(ts, dur));
      if Scan(bs, Start(ts, dur)).err.None? {
        StepFacts(s0, bs[|bs| - 1]);
        MoofsStep(bs, s0, Scan(bs, Start(ts, dur)));
      }
    }
  }

  /** The k-th 'mdat' of bs is the one its dictionary holds, unless the
      dictionary is appended again by the next 'mdat'. */
  ghost predicate MdatsHeld(bs: seq<Box>, s: ExState)
    requires Good(s)
  {
    var ms := Positions(bs, "mdat");
    && |ms| == |s.list|
    && (forall k :: 0 <= k < |ms| ==> ms[k] < |bs|)
    && (forall k :: LastInRun(s.list, k) ==> s.recs[s.list[k]].mdat == Some(bs[ms[k]]))
  }

  lemma {:induction false} MdatAt(bs: seq<Box>, s: ExState, k: nat)
    requires Good(s) && MdatsHeld(bs, s)
    requires LastInRun(s.list, k)
    ensures Positions(bs, "mdat")[k] < |bs|
    ensures s.recs[s.list[k]].mdat == Some(bs[Positions(bs, "mdat")[k]])
  {
  }

  lemma {:induction false} MdatsStep(bs: seq<Box>, s0: ExState, s: ExState)
    requires bs != [] && Good(s0) && Good(s) && Inv(s0)
    requires MdatsHeld(bs[..|bs| - 1], s0) && StepShape(s0, bs[|bs| - 1], s)
    ensures MdatsHeld(bs, s)
  {
    if bs[|bs| - 1].name == "mdat" {
      MdatsStepMdat(bs, s0, s);
    } else {
      MdatsStepOther(bs, s0, s);
    }
  }

  lemma {:induction false} MdatsStepMdat(bs: seq<Box>, s0: ExState, s: ExState)
    requires bs != [] && Good(s0) && Good(s) && Inv(s0) && bs[|bs| - 1].name == "mdat"
    requires MdatsHeld(bs[..|bs| - 1], s0) && StepShape(s0, bs[|bs| - 1], s)
    ensures MdatsHeld(bs, s)
  {
    var init, c := bs[..|bs| - 1], s0.current;
    var ms0, ms := Positions(init, "mdat"), Positions(bs, "mdat");
    assert ms == ms0 + [|bs| - 1];
    forall k | LastInRun(s.list, k)
      ensures s.recs[s.list[k]].mdat == Some(bs[ms[k]])
    {
      if k < |ms0| {
        assert s.list[k] == s0.list[k] && s.list[k + 1] <= c;
        assert LastInRun(s0.list, k);
        assert s.list[k] != c;
        MdatAt(init, s0, k);
        assert s.recs[s.list[k]].mdat == s0.recs[s0.list[k]].mdat;
        assert bs[ms0[k]] == init[ms0[k]];
      } else {
        assert s.list[k] == c;
      }
    }
  }

  lemma {:induction false} MdatsStepOther(bs: seq<Box>, s0: ExState, s: ExState)
    requires bs != [] && Good(s0) && Good(s) && bs[|bs| - 1].name != "mdat"
    requires MdatsHeld(bs[..|bs| - 1], s0) && StepShape(s0, bs[|bs| - 1], s)
    ensures MdatsHeld(bs, s)
  {
    var init := bs[..|bs| - 1];
    var ms0, ms := Positions(init, "mdat"), Positions(bs, "mdat");
    assert ms == ms0 && s.list == s0.list;
    forall k | LastInRun(s.list, k)
      ensures s.recs[s.list[k]].mdat == Some(bs[ms[k]])
    {
      MdatAt(init, s0, k);
      assert s.recs[s.list[k]].mdat == s0.recs[s0.list[k]].mdat;
      assert bs[ms0[k]] == init[ms0[k]];
    }
  }

  /** An 'mdat' that is the last one of its dictionary is the one the
      dictionary holds; a dictionary appended again holds a later one. */
  lemma {:induction false} ScanMdats(bs: seq<Box>, ts: Option<int>, dur: Option<real>)
    ensures var s := Scan(bs, Start(ts, dur));
      s.err.None? ==> MdatsHeld(bs, s)
  {
    if bs != [] {
      var init := bs[..|bs| - 1];
      ScanMdats(init, ts, dur);
      ScanInv(init, ts, dur);
      var s0 := Scan(init, Start(ts, dur));
      if Scan(bs, Start(ts, dur)).err.None? {
        StepFacts(s0, bs[|bs| - 1]);
        MdatsStep(bs, s0, Scan(bs, Start(ts, dur)));
      }
    }
  }

  /** The walk reads the time scale and the duration exactly as
      get_info_for_track does. */
  lemma {:induction false} SameGlobalsAsInfo(bs: seq<Box>, ts: Option<int>, dur: Option<real>)
    ensures var s := Scan(bs, Start(ts, dur));
      s.err.None? ==> InfoScan(bs, TrackInfo(ts, dur, None)) == TrackInfo(s.timescale, s.duration, None)
  {
    if bs != [] {
      var init := bs[..|bs| - 1];
      SameGlobalsAsInfo(init, ts, dur);
      if Scan(bs, Start(ts, dur)).err.None? {
        GlobalsStep(Scan(init, Start(ts, dur)), bs[|bs| - 1]);
      }
    }
  }

  lemma GlobalsStep(s: ExState, b: Box)
    requires Good(s) && ExStep(s, b).err.None?
    ensures s.err.None?
    ensures InfoStep(TrackInfo(s.timescale, s.duration, None), b) ==
            TrackInfo(ExStep(s, b).timescale, ExStep(s, b).duration, None)
  {
    if b.name == "moof" {
      assert ExStep(s, b) == OpenStep(s, b);
    } else if b.name == "mdat" {
      assert ExStep(s, b) == CloseStep(s, b);
    }
  }

  /** The final statement on a store that has not failed. */
  lemma FinishState(s: ExState)
    requires Good(s) && Inv(s) && s.err.None?
    ensures
      && (Finish(s).Ok? <==>
            s.duration.Some? && s.timescale.Some? && s.list != [] && s.list[0] != 0)
      && (Finish(s).Ok? ==>
            var f, p := Finish(s).value, s.list[|s.list| - 1];
            && f.list == s.list
            && f.recs[p].decodeTime.Some?
            && f.recs[p].duration ==
               Some(Ticks(s.duration.value, s.timescale.value) - f.recs[p].decodeTime.value as real)
            && (forall k :: ChangesAt(f.list, k) ==> Timed(f, f.list[k], f.list[k + 1])))
  {
    if s.list != [] {
      var p := s.list[|s.list| - 1];
      assert p == 0 <==> s.list[0] == 0 by {
        if s.list[0] == 0 {
          assert p <= s.current == 0;
        }
      }
      if Finish(s).Ok? {
        var f := Finish(s).value;
        forall k | ChangesAt(f.list, k)
          ensures Timed(f, f.list[k], f.list[k + 1])
        {
          assert Timed(s, s.list[k], s.list[k + 1]);
          assert s.list[k] < s.list[k + 1] <= p;
        }
      }
    }
  }

  /** The final statement only writes a duration: the store keeps its size
      and every dictionary its moof, decode time and mdat. */
  lemma FinishKeeps(s: ExState)
    requires Good(s) && Finish(s).Ok?
    ensures var f := Finish(s).value;
      && f.list == s.list && |f.recs| == |s.recs|
      && f.timescale == s.timescale && f.duration == s.duration
      && (forall i :: 0 <= i < |s.recs| ==>
            f.recs[i].moof == s.recs[i].moof && f.recs[i].decodeTime == s.recs[i].decodeTime &&
            f.recs[i].mdat == s.recs[i].mdat)
      && (forall i :: 0 <= i < |s.recs| && i != s.list[|s.list| - 1] ==> f.recs[i] == s.recs[i])
  {
  }

  /** The extraction succeeds exactly when no box fails, both globals are
      set, there is an 'mdat', and the first 'mdat' follows a 'moof': an
      'mdat' before the first 'moof' always makes it fail. */
  lemma {:induction false} ExtractSucceeds(bs: seq<Box>, ts: Option<int>, dur: Option<real>)
    ensures var s := Scan(bs, Start(ts, dur));
      Finish(s).Ok? <==>
        && s.err.None? && s.duration.Some? && s.timescale.Some?
        && Owners(bs) != [] && Owners(bs)[0] != 0
  {
    var s := Scan(bs, Start(ts, dur));
    if s.err.None? {
      ScanInv(bs, ts, dur);
      ScanCounts(bs, ts, dur);
      FinishState(s);
    }
  }

  /** On success the last fragment's duration is the duration in ticks
      minus its decode time, and every other fragment followed by a 'moof'
      keeps the gap to that 'moof''s decode time. */
  lemma {:induction false} ExtractDurations(bs: seq<Box>, ts: Option<int>, dur: Option<real>)
    ensures var s := Scan(bs, Start(ts, dur));
      Finish(s).Ok? ==>
        var f, p := Finish(s).value, s.list[|s.list| - 1];
        && f.list == s.list
        && f.recs[p].decodeTime.Some?
        && f.recs[p].duration ==
           Some(Ticks(s.duration.value, s.timescale.value) - f.recs[p].decodeTime.value as real)
        && (forall k :: ChangesAt(f.list, k) ==> Timed(f, f.list[k], f.list[k + 1]))
  {
    var s := Scan(bs, Start(ts, dur));
    if s.err.None? {
      ScanInv(bs, ts, dur);
      FinishState(s);
    }
  }
}
