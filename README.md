# vviz: frames, GOPs and MP4 fragments, modelled in Dafny

vviz is a video analyser. It reads the JSON that a media probe prints
about a video stream (its stream descriptors and one record per decoded
frame). It also reads the box list that an MP4 dumper prints about a
fragmented MP4 file. From these it draws charts. This project models the
analyser's core:

- the frame model: the five frame classes, sizes, durations, bitrates and times;
- the partition of a stream's frames into groups of pictures (GOPs);
- the assembly of streams from probe output;
- the fragments of an MP4 track, read from the top-level boxes:
  - by the dumper reader;
  - by the standalone fragment extractor, which keeps a time scale and a
    duration in module-level variables.

The files, in dependency order:

- `common.dfy`: `Option`, `Result` and the analyser's failures.
- `numerals.dfy`: `int()` of a packet size, and the evaluation of an
  "N/D" ratio.
- `frames.dfy`: the frame variants and the frame metrics.
- `gops.dfy`: the `Gop` class and the GOP scan.
- `streams.dfy`: the `Stream` class.
- `ffprobe.dfy`: streams and frames from the probe response.
- `boxes.dfy`: the box tree and its fixed-path reads. These follow
  ISO/IEC 14496-12: `mvhd` in section 8.2.2, `sidx` in section 8.16.3,
  and `traf`/`tfhd`/`tfdt`/`trun` in sections 8.8.6-8.8.12.
- `tracks.dfy`: `Fragment` timing and the `Mp4Track` class.
- `mp4dump.dfy`: the dumper reader.
- `fragment_extractor.dfy`: `extract_fragments` on objects.
- `fragment_facts.dfy`: what `extract_fragments` computes, stated on the
  boxes.

How the model is built:

- Objects that the Python code updates in place are classes:
  - `Stream`, `Gop` and `Mp4Track`;
  - the fragment dictionaries of the extractor;
  - the extractor's module-level variables.

  Their methods carry `modifies` clauses.
- The loops that build lists or update objects are `while` loops:
  `get_frames_for_type`, `gops`, `get_streams`, `get_frames_for_stream`,
  `get_info_for_track`, `get_fragments_for_track` and the loop of
  `extract_fragments`. Each invariant ties the loop's variables to a
  specification function on the prefix it has handled, such as
  `Partition`, `FramesFor`, `InfoScan`, `PairScan` or `Scan`. The lemmas
  state the source's promises about those functions.
- Two accumulations that only compute a value are recursive functions:
  the string loop of `GOP.__repr__` (models.py:316-317) is `FramesCode`,
  and the `reduce` of `GOP.size` (models.py:293) is `TotalSize`.
- A Python exception is an `Err` value. Python truthiness of a frame
  rate or a time base (`None` and `0` both count as unset) is written
  out as `IsSet`.
- Floating point numbers and `datetime`/`timedelta` values are exact
  reals, in seconds.

Some behaviours of the code worth knowing:

- A frame's position is its index in the whole frame list plus one
  (ffprobe_parser.py:67). It is not its rank among the kept frames, so
  positions increase but can skip values.
- `get_frames_for_stream` fails in two cases. The first is when the
  probe printed no frames at all (ffprobe_parser.py:64). The second is
  when a kept record's pkt_size is not an integer (ffprobe_parser.py:68,
  models.py:168). When no frame matches the stream, the result is an
  empty list, without a failure.
- A box that does not have the expected children or keys fails with the
  missing position or key (`MissingChild`, `MissingField`), as Python's
  `IndexError`/`KeyError` would. No dedicated structural error is raised.
- `get_fragments_for_track` pairs an `mdat` with the last `moof` seen so
  far, even one that already made a fragment. So consecutive `mdat`
  boxes share their `moof`.

## Model

| member | source | states |
|---|---|---|
| Numerals.ParseInt | models.py:168 | `int()` of a string succeeds exactly on an optionally signed run of digits. The sign of the value follows the sign character. Anything else is `NotANumber` |
| Numerals.ParseIntRoundTrip | models.py:168 | reading back the decimal spelling of any integer gives that integer |
| Numerals.ParseRatio | models.py:124-125 | without a slash the field is an integer, or fails as a bad ratio. With a slash it succeeds exactly when both sides are integers and the denominator is non-zero, and then the result is `Quotient(N, D)`, the real q with q × D = N. A zero denominator is a division by zero, and a side that is not an integer is a bad ratio |
| Numerals.Quotient | models.py:124-125 | the exact value of N / D: the number that gives N when multiplied by a non-zero D |
| Numerals.RatioRoundTrip | models.py:124-125 | "N/D" evaluates to exactly N / D for every pair of integers, and to a division by zero when D is 0 |
| Numerals.PlainRatio | models.py:124-125 | a ratio field written as a plain integer evaluates to that integer |
| Frames.Classify | models.py:172-180 | B, P and I map to their classes, and an I frame is IDR exactly when key_frame is non-zero. Any other pict_type stays a plain Frame. Each direction holds as an if-and-only-if |
| Frames.ParseFrame | models.py:152-180 | parsing fails exactly when pkt_size is not an integer. On success it copies every field, fixes the variant by Classify, and keeps the time base, frame rate and position given at construction |
| Frames.Duration | models.py:190-195 | defined exactly when the frame rate is set. Then it is one frame period (duration × rate = 1). Otherwise it fails with "no frame rate" |
| Frames.Bitrate | models.py:198-204 | defined exactly when the frame rate is set, otherwise "no frame rate" |
| Frames.StartTime | models.py:206-211 | defined exactly when the time base is set, otherwise "no time base". The start is pkt_pts × time base, in seconds |
| Frames.EndTime | models.py:213-218 | needs both the time base (checked first) and the frame rate, and fails with the first one missing. The end is the start plus the duration |
| Frames.CodeIsInjective | models.py:162-163 | the letters "frame", B, P, i and I tell the five classes apart: the letters are equal exactly when the variants are |
| Frames.VariantDependsOnTypeAndKey | models.py:176-180 | two records with the same pict_type get the same class exactly when, for I frames, both or neither have key_frame set |
| Frames.ParsedSize | models.py:168 | a pkt_size given as a number or as its decimal string parses, and the size is eight bits per byte (models.py:183-185) |
| Frames.BitrateTimesDuration | models.py:198-204 | bitrate × duration gives the frame's size in bits back |
| Frames.FrameRateChange | models.py:190-218 | setting a new non-zero frame rate leaves the start time alone and moves the duration and the end time to the new rate |
| Frames.BFrameExample | tests.py:22-44 | the B frame of the unit tests has the size, start, duration and end those tests expect, before and after its frame rate changes to 25 |
| Gops.Gop.constructor | models.py:278-281 | a new GOP has the given position, no frames, and is open |
| Gops.Gop.AddFrame | models.py:307-311 | appends the frame and sets `closed` when the frame is IDR. It keeps "closed exactly when the GOP holds an IDR frame", and a closed GOP stays closed |
| Gops.Gop.StartTime | models.py:295-297 | the start time of the first frame. A GOP without frames fails (Python's IndexError) |
| Gops.Gop.EndTime | models.py:299-301 | the end time of the last frame. A GOP without frames fails |
| Gops.Gop.Duration | models.py:303-305 | defined exactly when both ends are, and then the start plus the duration is the end |
| Gops.FramesCodeLetters | models.py:313-318 | when no frame is a plain Frame, the frame part of a GOP's repr has one letter per frame, and that letter is the frame's own |
| Gops.ScanStepShape | models.py:111-118 | one scan step opens GOP n + 1 exactly when an I frame (IDR or not) meets a non-empty current GOP. Otherwise it adds the frame to the current GOP. Earlier GOPs are untouched |
| Gops.ScanStepFlatten | models.py:111-118 | one scan step appends the frame to the concatenated frames of the GOPs |
| Gops.ScanFrame | models.py:111-118 | one loop pass on the GOP objects: they end holding the states of one scan step, one distinct object per GOP, with any new GOP fresh |
| Gops.PartitionConcat | models.py:106-120 | concatenating the GOPs' frames gives the stream's frames back, in order |
| Gops.PartitionPositions | models.py:109-115 | GOP positions are 1, 2, ..., k, in order |
| Gops.PartitionNonEmpty | models.py:108-118 | a stream with no frames has one empty open GOP. Otherwise no GOP is empty |
| Gops.PartitionBoundaries | models.py:111-116 | an I frame (IDR or not) can only be the first frame of a GOP, and every GOP after the first starts with one |
| Gops.PartitionCount | models.py:108-118 | there is one GOP more than there are I frames after the first frame |
| Gops.PartitionClosed | models.py:307-311 | every GOP of the partition is closed exactly when it holds an IDR frame. So an I frame that is not IDR starts an open GOP |
| Gops.AddedKeepsClosed | models.py:307-311 | appending a frame preserves "closed exactly when it holds an IDR frame" |
| Gops.PartitionSizes | models.py:291-293 | the GOP sizes add up to the size of all the frames |
| Gops.ClosedGopFramesFacts | tests.py:74-116 | the unit tests' closed GOP I B B P has the size, letters, start and end those tests expect |
| Gops.BuildClosedGop | tests.py:74-99 | building that GOP with add_frame gives those four frames and a closed GOP |
| Streams.FilterIsOrderedSubsequence | models.py:88-98 | the frames of a type query are exactly the matching frames, each at its matching position, with the positions increasing. A position is listed exactly when its frame matches |
| Streams.FilterLength | models.py:88-98 | a query returns as many frames as there are matching frames |
| Streams.StrictAtMostLoose | models.py:92-97 | a strict query never returns more frames than the same query without strict |
| Streams.IFrameCounts | models.py:92-97 | the non-strict I frame query counts the I frames and the IDR frames. It equals the strict one exactly when the stream has no IDR frame |
| Streams.DescriptorError | models.py:122-125 | a descriptor fails exactly when its frame rate or its time base is not a usable ratio, and the frame rate is read first |
| Streams.Stream.constructor | models.py:35-40 | a bare stream has the given index, no frames and no rates |
| Streams.Stream.ParseFromJson | models.py:122-127 | on success it sets the frame rate, the time base, the duration (duration_ts × time base) and the index. A failure stops the update where it happens, leaving the fields before it written. Frames are untouched |
| Streams.Stream.AddFrame | models.py:102-103 | appends the frame and changes nothing else |
| Streams.Stream.GetFramesForType | models.py:88-100 | returns all frames when no type is given. Otherwise it returns the ordered filter, exact for strict and by subclass otherwise |
| Streams.Stream.Gops | models.py:106-120 | returns fresh, distinct GOP objects on each call, holding exactly the partition of the frames |
| FFProbe.FramesForSucceeds | ffprobe_parser.py:65-70 | building the frames succeeds exactly when every kept record has an integer pkt_size |
| FFProbe.KeptIndicesShape | ffprobe_parser.py:65-66 | the kept positions increase and are exactly those of the records with media type "video" and the stream's index |
| FFProbe.FramesForAreKeptRecords | ffprobe_parser.py:65-70 | the k-th frame is the parse of the k-th kept record, at position (its raw index) + 1 |
| FFProbe.FramesForPositions | ffprobe_parser.py:67 | every frame carries the stream's time base and frame rate. The positions lie in 1..(number of records) and strictly increase |
| FFProbe.GetFramesForStream | ffprobe_parser.py:61-73 | no frame records is "no frames". Otherwise it returns the frames FramesFor builds, or the first parse failure |
| FFProbe.NewStream | ffprobe_parser.py:53-54 | a fresh stream without frames, whose fields are those of the descriptor when that parses |
| FFProbe.GetStreams | ffprobe_parser.py:49-58 | no descriptors is "no streams". Otherwise it fails with the first descriptor that does not parse, or returns one fresh stream per descriptor, in order, each described by it, without frames, and no two the same object |
| FFProbe.StreamFromProbe | models.py:35-48 | the descriptor is picked with Python indexing, negative indices included, and an index out of range fails. Then the descriptor is parsed and the frames for the index it names are attached |
| Boxes.Child | mp4dump_parser.py:30 | a child position is read exactly when it exists, otherwise it fails naming the position |
| Boxes.Field | mp4dump_parser.py:34 | a key is read exactly when it is present, otherwise it fails naming the key |
| Boxes.FieldAtTwoSteps | models.py:425-435 | a two-step path reads the grandchild's field, or fails with the first missing position or the missing key |
| Boxes.MoovDuration | mp4dump_parser.py:30 | succeeds exactly when the mvhd duration and time scale are present and the time scale is non-zero, and then result × time scale = duration. A missing duration fails first, then a missing time scale, then a zero time scale as a division by zero |
| Boxes.LastNamed | mp4dump_parser.py:27-34 | names the last box of that name, and nothing of that name follows it. None exactly when there is no such box |
| Tracks.StartTime | models.py:423-426 | defined exactly when the tfdt decode time is present and the time scale is set and non-zero. Then start × time scale = decode time. A missing decode time wins over a missing time scale |
| Tracks.Duration | models.py:433-436 | defined exactly when the default sample duration and the sample count are present and the time scale is usable. Then duration × time scale = sample duration × count. Failures follow the source's reading order |
| Tracks.EndTime | models.py:438-440 | defined exactly when the start and the duration are, and then it is their sum. A start failure wins |
| Tracks.EndTimeInTicks | models.py:423-440 | end × time scale = decode time + sample duration × sample count |
| Tracks.FragmentExample | tests.py:180-237 | the unit tests' fragment has the position, start, length, duration, end and size those tests expect |
| Tracks.Mp4Track.constructor | models.py:337-342 | a bare track has the given id, no time scale, no duration and no fragments |
| Mp4Dump.GetInfoForTrack | mp4dump_parser.py:25-34 | the track's time scale, duration and failure are those of the box-by-box reading `InfoScan`, started from the track's earlier values. The id and the fragments are untouched |
| Mp4Dump.InfoScanSucceeds | mp4dump_parser.py:27-34 | the reading succeeds exactly when every moov has a usable duration and every sidx a time scale |
| Mp4Dump.LastMoovWins | mp4dump_parser.py:28-30 | on success the last moov gives the duration. Without a moov the earlier duration stays |
| Mp4Dump.LastSidxWins | mp4dump_parser.py:33-34 | on success the last sidx gives the time scale. Without a sidx the earlier time scale stays |
| Mp4Dump.GetFragmentsForTrack | mp4dump_parser.py:39-62 | returns the fragments of the pairing scan `PairScan` |
| Mp4Dump.PendingMoof | mp4dump_parser.py:48-49 | the pending moof is always the last moof seen so far |
| Mp4Dump.FragmentsPairBoxes | mp4dump_parser.py:46-60 | one fragment per mdat that has some moof before it, in order, numbered from 1, each made of that mdat and the last moof before it. An mdat is listed exactly when it has a moof before it, so a trailing moof yields nothing |
| Mp4Dump.TrackFromDump | models.py:337-374 | the track fails exactly when its information cannot be read. Otherwise it is a fresh track with the id, the time scale and duration read from the boxes, and the paired fragments |
| FragmentExtractor.Globals.constructor | fragments.py:10-11 | both module-level variables start unset |
| FragmentExtractor.FragmentRecord.constructor | fragments.py:36-39 | a new dictionary holds its moof and decode time, and no mdat or duration |
| FragmentExtractor.OpenFragment | fragments.py:35-42 | a moof opens a fresh dictionary. If a previous fragment exists, it gets the gap between the two decode times. A moof without a decode time, or a previous dictionary without one, fails |
| FragmentExtractor.CloseFragment | fragments.py:45-48 | an mdat goes into the current dictionary and nothing else changes |
| FragmentExtractor.FinishFragments | fragments.py:50-53 | fails exactly as the final statement does: no duration, no time scale, no fragment, or no decode time. Otherwise the last fragment gets duration × time scale − decode time, and the result keeps its sharing |
| FragmentExtractor.Feed | fragments.py:26-48 | one loop pass: the globals and the dictionaries follow one model step, and new dictionaries are fresh |
| FragmentExtractor.Walk | fragments.py:20-48 | the loop ends in the state of the box-by-box scan. The globals keep what it wrote, also on failure |
| FragmentExtractor.ExtractFragments | fragments.py:20-53 | fails exactly when the scan or the final statement does. Otherwise it returns one object per appended dictionary, holding its final contents, and the same object exactly where the same dictionary was appended twice |
| FragmentFacts.ScanInv | fragments.py:26-48 | while no box fails: dictionary 0 is the initial empty one, the others have decode times, the result never goes back to an older dictionary, and the durations written so far are decode-time gaps |
| FragmentFacts.ScanCounts | fragments.py:34-48 | one dictionary per moof besides the initial one, the current one is the newest, and the result lists, for each mdat, the number of moofs before it |
| FragmentFacts.ScanMoofs | fragments.py:35-39 | dictionary i + 1 holds the i-th moof and its decode time |
| FragmentFacts.ScanMdats | fragments.py:45-48 | the k-th mdat is the one its dictionary holds unless the next mdat goes into the same dictionary |
| FragmentFacts.SameGlobalsAsInfo | fragments.py:27-32 | the extractor reads the time scale and the duration exactly as get_info_for_track does |
| FragmentFacts.FinishState | fragments.py:50-51 | the final statement succeeds exactly when both globals are set, there is a fragment, and the first mdat follows a moof. On success the result is unchanged, the last entry gets duration × time scale − its decode time, and every entry followed by a different dictionary holds the gap to that dictionary's decode time |
| FragmentFacts.FinishKeeps | fragments.py:51 | the final statement writes only the last fragment's duration: the result list, the globals and every dictionary's moof, decode time and mdat stay as the walk left them |
| FragmentFacts.ExtractSucceeds | fragments.py:20-53 | the extraction succeeds exactly when no box fails, both globals are set, there is an mdat, and the first mdat follows a moof. An mdat before the first moof always makes it fail |
| FragmentFacts.ExtractDurations | fragments.py:40-51 | on success the last fragment's duration is the duration in ticks minus its decode time. Every other fragment keeps the gap to the next fragment's decode time |

## Left out

- Running the probe and the dumper, reading their JSON, and `print`: the inputs are values (`ProbeResponse`, `seq<Box>`).
- Charts, labels and formatting: `to_label`, `render_chart`, `secs2time`, `sizeof_fmt`, `time_to_str`, and the rest of vviz.py. They are presentation only.
- Frames.StartTime, Frames.EndTime, Tracks.StartTime and Tracks.EndTime: these give seconds, not timezone-aware `datetime` values. Floating point rounding is not modelled; floats are exact reals.
- Numerals.ParseRatio: models `eval` only on "N" and "N/D" with integers. Other Python expressions are rejected. Surrounding spaces, which `eval` ignores, are rejected here. A numeral with a leading zero such as "010/1" is accepted here, where `eval` raises SyntaxError.
- Numerals.ParseInt: `int()`'s acceptance of surrounding whitespace and digit-group underscores is not modelled.
- The `isinstance` checks on arguments ("'stream' argument should be a Stream" and the like): Dafny's types rule those calls out.
- `to_dict`, `width` and `height`: these only read fields that are already modelled.
- Missing keys in probe records and box records (`pkt_pts`, `media_type`, `name`, `size`, ...): records are typed, so every key is present. Keys read at fixed box paths are looked up in a map and may be missing.
- Streams.Stream.Gops: does not state the GOPs' `Valid()` on the objects. Gops.PartitionClosed states it on the partition those objects hold.
- Fragment's `track` reference: each timing function takes the track's time scale as an argument instead. Mp4Dump.GetFragmentsForTrack takes no track, since the track is only stored in each fragment.
- Frames.Size: no contract of its own. Frames.ParsedSize states eight bits per byte of pkt_size (models.py:183-185).
- Frames.Code: no contract of its own. Frames.CodeIsInjective and Gops.FramesCodeLetters state what its letters (models.py:162-163, 237-274) tell apart and how repr uses them.
- Tracks.Size: no contract of its own. Tracks.FragmentExample states it for the unit tests' fragment: eight bits per byte of the mdat size (models.py:442-444).
- Gops.Gop.ToString, Gops.Gop.Length, Gops.Gop.Size and Tracks.Length: they have no contract of their own. Gops.FramesCodeLetters, Gops.PartitionSizes and Tracks.Duration state what they compute.
- The unit tests that load fixture files (tests.py:145-178, tests.py:239-257): the fixtures are not part of this model.
- FragmentExtractor.FinishFragments: extract_fragments' module-level `duration` is a float in Python and an exact real here, like every time.
- fragments.py's `read_mp4dump_boxes_content_from_url`, `render_chart` and `main`: I/O and presentation.
