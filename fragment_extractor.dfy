/** The standalone fragment extractor (fragments.py, extract_fragments).

    It walks the top-level boxes once. The time scale and the duration it
    finds are module-level variables that keep their values from one call
    to the next. Each 'moof' starts a new fragment dictionary, each 'mdat'
    completes the current one and appends it to the result, and the
    dictionaries are updated in place after they are appended: a fragment's
    duration, in ticks, is written when the next 'moof' arrives, and the
    last one's at the end. The dictionaries are objects here, and the
    result may hold the same object more than once.

    The model keeps every dictionary ever created in a store
    (recs; recs[0] is the initial empty one) and the result as a list of
    positions in that store. */
module FragmentExtractor {
  import opened Common
  import opened Boxes
  import opened Mp4Dump

  /** The module-level variables timescale and duration (in seconds). */
  class Globals {
    var timescale: Option<int>
    var duration: Option<real>

    constructor()
      ensures timescale == None && duration == None
    {
      timescale, duration := None, None;
    }
  }

  /** The keys a fragment dictionary may hold; a missing key is None. */
  datatype Rec = Rec(moof: Option<Box>, decodeTime: Option<int>, mdat: Option<Box>, duration: Option<real>)

  class FragmentRecord {
    var moof: Option<Box>
    var decodeTime: Option<int>
    var mdat: Option<Box>
    var duration: Option<real>

    function View(): Rec
      reads this
    {
      Rec(moof, decodeTime, mdat, duration)
    }

    constructor(m: Option<Box>, dt: Option<int>)
      ensures View() == Rec(m, dt, None, None)
    {
      moof, decodeTime, mdat, duration := m, dt, None, None;
    }
  }

  /** The extractor's state: the two globals, the store of dictionaries,
      the result as store positions, the current and the previous
      dictionary, and the failure that stopped the walk, if any. */
  datatype ExState = ExState(
    timescale: Option<int>,
    duration: Option<real>,
    recs: seq<Rec>,
    list: seq<nat>,
    current: nat,
    previous: Option<nat>,
    err: Option<Error>)

  /** Every position the state holds is in the store. */
  predicate Good(s: ExState) {
    && s.current < |s.recs|
    && (s.previous.Some? ==> s.previous.value < |s.recs|)
    && (forall k :: 0 <= k < |s.list| ==> s.list[k] < |s.recs|)
  }

  /** The state at the start of a call, with the globals' earlier values. */
  function Start(timescale: Option<int>, duration: Option<real>): (s: ExState)
    ensures Good(s)
  {
    ExState(timescale, duration, [Rec(None, None, None, None)], [], 0, None, None)
  }

  /** A 'moof' opens a new dictionary with its decode time; when an 'mdat'
      came before, the dictionary it completed gets the gap between the two
      decode times as its duration. */
  function OpenStep(s: ExState, b: Box): (r: ExState)
    requires Good(s)
    ensures Good(r)
  {
    match DecodeTime(b)
    case Err(e) => s.(err := Some(e))
    case Ok(dt) =>
      var t := s.(recs := s.recs + [Rec(Some(b), Some(dt), None, None)], current := |s.recs|);
      if s.previous.None? then t
      else
        var p := s.previous.value;
        if s.recs[p].decodeTime.None? then t.(err := Some(MissingField("decodeTime")))
        else t.(recs := t.recs[p := t.recs[p].(duration := Some((dt - s.recs[p].decodeTime.value) as real))])
  }

  /** An 'mdat' completes the current dictionary and appends it. */
  function CloseStep(s: ExState, b: Box): (r: ExState)
    requires Good(s)
    ensures Good(r)
  {
    s.(recs := s.recs[s.current := s.recs[s.current].(mdat := Some(b))],
       list := s.list + [s.current],
       previous := Some(s.current))
  }

  /** The effect of one top-level box. */
  function ExStep(s: ExState, b: Box): (r: ExState)
    requires Good(s)
    ensures Good(r)
  {
    if s.err.Some? then s
    else if b.name == "moov" then
      (match MoovDuration(b)
       case Err(e) => s.(err := Some(e))
       case Ok(d) => s.(duration := Some(d)))
    else if b.name == "sidx" then
      (match SidxTimescale(b)
       case Err(e) => s.(err := Some(e))
       case Ok(ts) => s.(timescale := Some(ts)))
    else if b.name == "moof" then OpenStep(s, b)
    else if b.name == "mdat" then CloseStep(s, b)
    else s
  }

  function Scan(bs: seq<Box>, s: ExState): (r: ExState)
    requires Good(s)
    ensures Good(r)
  {
    if bs == [] then s else ExStep(Scan(bs[..|bs| - 1], s), bs[|bs| - 1])
  }

  /** duration * timescale: a duration in seconds in ticks. */
  function Ticks(duration: real, timescale: int): real {
    duration * timescale as real
  }

  /** The final statement: the last fragment's duration is the duration
      times the time scale minus its decode time, evaluated in that order. */
  function Finish(s: ExState): (r: Result<ExState>)
    requires Good(s)
  {
    if s.err.Some? then Err(s.err.value)
    else if s.duration.None? then Err(NoDuration)
    else if s.timescale.None? then Err(NoTimeScale)
    else if s.list == [] then Err(EmptyFragments)
    else
      var last := s.list[|s.list| - 1];
      if s.recs[last].decodeTime.None? then Err(MissingField("decodeTime"))
      else
        var d := Ticks(s.duration.value, s.timescale.value) - s.recs[last].decodeTime.value as real;
        Ok(s.(recs := s.recs[last := s.recs[last].(duration := Some(d))]))
  }

  lemma {:induction false} ScanPrefix(bs: seq<Box>, i: nat, s: ExState)
    requires Good(s) && i < |bs|
    ensures Scan(bs[..i + 1], s) == ExStep(Scan(bs[..i], s), bs[i])
  {
    assert bs[..i + 1][..i] == bs[..i];
  }

  /** A failure at position i is the outcome of the whole scan. */
  lemma {:induction false} FailureAt(bs: seq<Box>, i: nat, s: ExState)
    requires Good(s) && i < |bs| && Scan(bs[..i + 1], s).err.Some?
    ensures Scan(bs, s) == Scan(bs[..i + 1], s)
    decreases |bs| - i
  {
    if i + 1 == |bs| {
      assert bs[..i + 1] == bs;
    } else {
      var init := bs[..|bs| - 1];
      assert init[..i + 1] == bs[..i + 1];
      FailureAt(init, i, s);
    }
  }

  /** The objects hold the store, one object per dictionary. */
  ghost predicate Mirrors(objs: seq<FragmentRecord>, s: ExState)
    reads objs
  {
    && |objs| == |s.recs|
    && (forall j :: 0 <= j < |objs| ==> objs[j].View() == s.recs[j])
    && (forall j, l :: 0 <= j < l < |objs| ==> objs[j] != objs[l])
  }

  /** A 'moof' box: a new dictionary with the box and its decode time
      becomes the current one, and the previous fragment, if any, gets its
      duration in ticks. */
  method OpenFragment(b: Box, previous: FragmentRecord?, ghost objs: seq<FragmentRecord>, ghost s: ExState)
    returns (err: Option<Error>, fragment: FragmentRecord, ghost objs': seq<FragmentRecord>)
    requires Good(s) && s.err.None? && b.name == "moof"
    requires Mirrors(objs, s)
    requires previous == null <==> s.previous.None?
    requires previous != null ==> previous == objs[s.previous.value]
    modifies objs
    ensures err == ExStep(s, b).err
    ensures fresh(fragment) && objs' == objs + [fragment]
    ensures err.None? ==> Mirrors(objs', ExStep(s, b))
  {
    var dt := DecodeTime(b);
    if dt.Err? {
      fragment := new FragmentRecord(None, None);
      return Some(dt.error), fragment, objs + [fragment];
    }
    fragment := new FragmentRecord(Some(b), Some(dt.value));
    objs' := objs + [fragment];
    err := None;
    if previous != null {
      if previous.decodeTime.None? {
        return Some(MissingField("decodeTime")), fragment, objs';
      }
      ghost var p := s.previous.value;
      previous.duration := Some((dt.value - previous.decodeTime.value) as real);
      forall j | 0 <= j < |objs'|
        ensures objs'[j].View() == ExStep(s, b).recs[j]
      {
        if j != p {
          assert objs'[j] != objs'[p];
        }
      }
    }
  }

  /** An 'mdat' box: it goes into the current dictionary, which is appended
      to the result and becomes the previous fragment. */
  method CloseFragment(b: Box, fragment: FragmentRecord, ghost objs: seq<FragmentRecord>, ghost s: ExState)
    requires Good(s) && s.err.None? && b.name == "mdat"
    requires Mirrors(objs, s) && fragment == objs[s.current]
    modifies fragment
    ensures Mirrors(objs, ExStep(s, b))
  {
    fragment.mdat := Some(b);
    forall j | 0 <= j < |objs|
      ensures objs[j].View() == ExStep(s, b).recs[j]
    {
      if j != s.current {
        assert objs[j] != objs[s.current];
      }
    }
  }

  /** The final statement on the objects. */
  method FinishFragments(g: Globals, fragments: seq<FragmentRecord>, ghost objs: seq<FragmentRecord>, ghost s: ExState)
    returns (r: Result<seq<FragmentRecord>>)
    requires Good(s) && s.err.None?
    requires g.timescale == s.timescale && g.duration == s.duration
    requires Mirrors(objs, s)
    requires |fragments| == |s.list|
    requires forall k :: 0 <= k < |fragments| ==> fragments[k] == objs[s.list[k]]
    modifies objs
    ensures r.Err? <==> Finish(s).Err?
    ensures r.Err? ==> r.error == Finish(s).error
    ensures r.Ok? ==>
      var f := Finish(s).value;
      && |r.value| == |f.list|
      && (forall k :: 0 <= k < |r.value| ==> r.value[k] == objs[f.list[k]] && r.value[k].View() == f.recs[f.list[k]])
      && (forall k, l :: 0 <= k < |r.value| && 0 <= l < |r.value| ==>
            (r.value[k] == r.value[l] <==> f.list[k] == f.list[l]))
  {
    if g.duration.None? {
      return Err(NoDuration);
    }
    if g.timescale.None? {
      return Err(NoTimeScale);
    }
    if |fragments| == 0 {
      return Err(EmptyFragments);
    }
    var last := fragments[|fragments| - 1];
    if last.decodeTime.None? {
      return Err(MissingField("decodeTime"));
    }
    ghost var p := s.list[|s.list| - 1];
    assert last == objs[p] && last.View() == s.recs[p];
    ghost var d := Ticks(s.duration.value, s.timescale.value) - s.recs[p].decodeTime.value as real;
    ghost var f := s.(recs := s.recs[p := s.recs[p].(duration := Some(d))]);
    assert Finish(s) == Ok(f);
    last.duration := Some(Ticks(g.duration.value, g.timescale.value) - last.decodeTime.value as real);
    forall j | 0 <= j < |objs|
      ensures objs[j].View() == f.recs[j]
    {
      if j != p {
        assert objs[j] != objs[p];
      }
    }
    forall k, l | 0 <= k < |fragments| && 0 <= l < |fragments|
      ensures fragments[k] == fragments[l] <==> f.list[k] == f.list[l]
    {
      assert fragments[k] == objs[s.list[k]] && fragments[l] == objs[s.list[l]];
    }
    r := Ok(fragments);
  }

  /** The objects and variables of extract_fragments hold the state s. */
  ghost predicate Holds(s: ExState, g: Globals, objs: seq<FragmentRecord>, fragment: FragmentRecord,
                        previous: FragmentRecord?, fragments: seq<FragmentRecord>)
    requires Good(s)
    reads g, objs
  {
    && g.timescale == s.timescale && g.duration == s.duration
    && Mirrors(objs, s)
    && fragment == objs[s.current]
    && (previous == null <==> s.previous.None?)
    && (previous != null ==> previous == objs[s.previous.value])
    && |fragments| == |s.list|
    && (forall k :: 0 <= k < |fragments| ==> fragments[k] == objs[s.list[k]])
  }

  /** One pass of the loop of extract_fragments. */
  method Feed(g: Globals, b: Box, fragment: FragmentRecord, previous: FragmentRecord?,
              fragments: seq<FragmentRecord>, ghost objs: seq<FragmentRecord>, ghost s: ExState)
    returns (err: Option<Error>, fragment': FragmentRecord, previous': FragmentRecord?,
             fragments': seq<FragmentRecord>, ghost objs': seq<FragmentRecord>)
    requires Good(s) && s.err.None?
    requires Holds(s, g, objs, fragment, previous, fragments)
    modifies g, objs
    ensures err == ExStep(s, b).err
    ensures g.timescale == ExStep(s, b).timescale && g.duration == ExStep(s, b).duration
    ensures err.None? ==> Holds(ExStep(s, b), g, objs', fragment', previous', fragments')
    ensures |objs| <= |objs'| && objs'[..|objs|] == objs
    ensures forall j :: |objs| <= j < |objs'| ==> fresh(objs'[j])
  {
    fragment', previous', fragments', objs' := fragment, previous, fragments, objs;
    err := None;
    if b.name == "moov" {
      var d := MoovDuration(b);
      if d.Err? {
        return Some(d.error), fragment', previous', fragments', objs';
      }
      g.duration := Some(d.value);
    } else if b.name == "sidx" {
      var ts := SidxTimescale(b);
      if ts.Err? {
        return Some(ts.error), fragment', previous', fragments', objs';
      }
      g.timescale := Some(ts.value);
    } else if b.name == "moof" {
      err, fragment', objs' := OpenFragment(b, previous, objs, s);
    } else if b.name == "mdat" {
      CloseFragment(b, fragment, objs, s);
      fragments' := fragments + [fragment];
      previous' := fragment;
    }
  }

  /** Feed on the box at position i, stated on the scan of the prefixes. */
  method FeedAt(g: Globals, bs: seq<Box>, i: nat, fragment: FragmentRecord, previous: FragmentRecord?,
                fragments: seq<FragmentRecord>, ghost objs: seq<FragmentRecord>, ghost s0: ExState)
    returns (err: Option<Error>, fragment': FragmentRecord, previous': FragmentRecord?,
             fragments': seq<FragmentRecord>, ghost objs': seq<FragmentRecord>)
    requires Good(s0) && i < |bs| && Scan(bs[..i], s0).err.None?
    requires Holds(Scan(bs[..i], s0), g, objs, fragment, previous, fragments)
    modifies g, objs
    ensures err == Scan(bs[..i + 1], s0).err
    ensures g.timescale == Scan(bs[..i + 1], s0).timescale && g.duration == Scan(bs[..i + 1], s0).duration
    ensures err.None? ==> Holds(Scan(bs[..i + 1], s0), g, objs', fragment', previous', fragments')
    ensures |objs| <= |objs'| && objs'[..|objs|] == objs
    ensures forall j :: |objs| <= j < |objs'| ==> fresh(objs'[j])
  {
    ScanPrefix(bs, i, s0);
    err, fragment', previous', fragments', objs' := Feed(g, bs[i], fragment, previous, fragments, objs, Scan(bs[..i], s0));
  }

  /** The loop of extract_fragments, up to the first failure. */
  method Walk(g: Globals, bs: seq<Box>)
    returns (err: Option<Error>, fragments: seq<FragmentRecord>, ghost objs: seq<FragmentRecord>, ghost s: ExState)
    modifies g
    ensures Good(s) && s == Scan(bs, Start(old(g.timescale), old(g.duration)))
    ensures err == s.err
    ensures g.timescale == s.timescale && g.duration == s.duration
    ensures err.None? ==>
      && Mirrors(objs, s)
      && (forall j :: 0 <= j < |objs| ==> fresh(objs[j]))
      && |fragments| == |s.list|
      && (forall k :: 0 <= k < |fragments| ==> fragments[k] == objs[s.list[k]])
  {
    ghost var s0 := Start(g.timescale, g.duration);
    fragments := [];
    var previous: FragmentRecord? := null;
    var fragment := new FragmentRecord(None, None);
    objs := [fragment];
    assert bs[..0] == [];
    var i := 0;
    while i < |bs|
      invariant 0 <= i <= |bs|
      invariant Scan(bs[..i], s0).err.None?
      invariant forall j :: 0 <= j < |objs| ==> fresh(objs[j])
      invariant Holds(Scan(bs[..i], s0), g, objs, fragment, previous, fragments)
    {
      ghost var objs0 := objs;
      err, fragment, previous, fragments, objs := FeedAt(g, bs, i, fragment, previous, fragments, objs, s0);
      forall j | 0 <= j < |objs|
        ensures fresh(objs[j])
      {
        if j < |objs0| {
          assert objs[j] == objs0[j];
        }
      }
      if err.Some? {
        FailureAt(bs, i, s0);
        s := Scan(bs, s0);
        return;
      }
      i := i + 1;
    }
    assert bs[..i] == bs;
    s := Scan(bs, s0);
    err := None;
  }

  /** extract_fragments(boxes). The globals end as the walk left them,
      also when it fails. The result lists one object per appended
      dictionary, the same object where the same dictionary was appended
      again. */
  method ExtractFragments(g: Globals, bs: seq<Box>) returns (r: Result<seq<FragmentRecord>>)
    modifies g
    ensures var s := Scan(bs, Start(old(g.timescale), old(g.duration)));
      && g.timescale == s.timescale && g.duration == s.duration
      && (r.Err? <==> Finish(s).Err?)
      && (r.Err? ==> r.error == Finish(s).error)
      && (r.Ok? ==>
            var f := Finish(s).value;
            && |r.value| == |f.list|
            && (forall k :: 0 <= k < |r.value| ==> fresh(r.value[k]) && r.value[k].View() == f.recs[f.list[k]])
            && (forall k, l :: 0 <= k < |r.value| && 0 <= l < |r.value| ==>
                  (r.value[k] == r.value[l] <==> f.list[k] == f.list[l])))
  {
    var err, fragments, objs, s := Walk(g, bs);
    if err.Some? {
      return Err(err.value);
    }
    r := FinishFragments(g, fragments, objs, s);
  }
}
