/** The box tree the MP4 dumper prints (ISO/IEC 14496-12, the ISO base
    media file format): every box has a name, a size, scalar fields and an
    ordered list of child boxes.

    The analyser reads a few fields at fixed child positions, assuming the
    dumper's order: 'moov' (section 8.2.1) whose first child is 'mvhd'
    (8.2.2); 'sidx' (8.16.3); 'moof' (8.8.4) whose second child is 'traf'
    holding 'tfhd' (8.8.7), 'tfdt' (8.8.12) and 'trun' (8.8.8) in that
    order. A position or a key that is not there is an error. */
module Boxes {
  import opened Common

  datatype Box = Box(name: string, size: int, fields: map<string, int>, children: seq<Box>)

  /** box['children'][i]. */
  function Child(b: Box, i: nat): (r: Result<Box>)
    ensures r.Ok? <==> i < |b.children|
    ensures r.Ok? ==> r.value == b.children[i]
    ensures r.Err? ==> r.error == MissingChild(i)
  {
    if i < |b.children| then Ok(b.children[i]) else Err(MissingChild(i))
  }

  /** box[key] for a scalar field. */
  function Field(b: Box, key: string): (r: Result<int>)
    ensures r.Ok? <==> key in b.fields
    ensures r.Ok? ==> r.value == b.fields[key]
    ensures r.Err? ==> r.error == MissingField(key)
  {
    if key in b.fields then Ok(b.fields[key]) else Err(MissingField(key))
  }

  /** The box reached from b by following child positions in order. */
  function Descend(b: Box, path: seq<nat>): Result<Box>
    decreases |path|
  {
    if path == [] then Ok(b)
    else match Child(b, path[0])
      case Err(e) => Err(e)
      case Ok(c) => Descend(c, path[1..])
  }

  /** A field of the box at a fixed path. */
  function FieldAt(b: Box, path: seq<nat>, key: string): Result<int> {
    match Descend(b, path)
    case Err(e) => Err(e)
    case Ok(c) => Field(c, key)
  }

  /** A two-step path reads the field of the grandchild, or fails with the
      first missing position or with the missing key. */
  lemma FieldAtTwoSteps(b: Box, i: nat, j: nat, key: string)
    ensures FieldAt(b, [i, j], key) ==
      if i >= |b.children| then Err(MissingChild(i))
      else if j >= |b.children[i].children| then Err(MissingChild(j))
      else Field(b.children[i].children[j], key)
  {
    assert [i, j][1..] == [j];
    assert [j][1..] == [];
    if i < |b.children| {
      var c := b.children[i];
      assert Descend(b, [i, j]) == Descend(c, [j]);
      if j < |c.children| {
        assert Descend(c, [j]) == Descend(c.children[j], []);
      }
    }
  }

  /** moof.children[1].children[1]['base media decode time'] (traf, tfdt). */
  function DecodeTime(moof: Box): Result<int> {
    FieldAt(moof, [1, 1], "base media decode time")
  }

  /** moof.children[1].children[2]['sample count'] (traf, trun). */
  function SampleCount(moof: Box): Result<int> {
    FieldAt(moof, [1, 2], "sample count")
  }

  /** moof.children[1].children[0]['default sample duration'] (traf, tfhd). */
  function DefaultSampleDuration(moof: Box): Result<int> {
    FieldAt(moof, [1, 0], "default sample duration")
  }

  /** moov.children[0]['duration'] / moov.children[0]['timescale'] (mvhd),
      in seconds; the duration is read before the time scale. */
  function MoovDuration(moov: Box): (r: Result<real>)
    ensures r.Ok? <==>
      && FieldAt(moov, [0], "duration").Ok?
      && FieldAt(moov, [0], "timescale").Ok? && FieldAt(moov, [0], "timescale").value != 0
    ensures FieldAt(moov, [0], "duration").Err? ==> r == Err(FieldAt(moov, [0], "duration").error)
    ensures FieldAt(moov, [0], "duration").Ok? && FieldAt(moov, [0], "timescale").Err? ==>
      r == Err(FieldAt(moov, [0], "timescale").error)
    ensures FieldAt(moov, [0], "duration").Ok? && FieldAt(moov, [0], "timescale") == Ok(0) ==>
      r == Err(DivisionByZero)
    ensures r.Ok? ==>
      && FieldAt(moov, [0], "duration").Ok?
      && FieldAt(moov, [0], "timescale").Ok? && FieldAt(moov, [0], "timescale").value != 0
      && r.value * FieldAt(moov, [0], "timescale").value as real ==
         FieldAt(moov, [0], "duration").value as real
  {
    match FieldAt(moov, [0], "duration")
    case Err(e) => Err(e)
    case Ok(d) =>
      (match FieldAt(moov, [0], "timescale")
       case Err(e) => Err(e)
       case Ok(ts) => if ts == 0 then Err(DivisionByZero) else Ok(d as real / ts as real))
  }

  /** sidx['timescale']. */
  function SidxTimescale(sidx: Box): Result<int> {
    Field(sidx, "timescale")
  }

  /** The last box of bs with this name, if any. */
  function LastNamed(bs: seq<Box>, name: string): (r: Option<Box>)
    ensures r.None? <==> forall j :: 0 <= j < |bs| ==> bs[j].name != name
    ensures r.Some? ==>
      && r.value.name == name
      && exists j :: 0 <= j < |bs| && bs[j] == r.value && forall l :: j < l < |bs| ==> bs[l].name != name
  {
    if bs == [] then None
    else if bs[|bs| - 1].name == name then Some(bs[|bs| - 1])
    else LastNamed(bs[..|bs| - 1], name)
  }
}
