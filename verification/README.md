# A verified model of the streaming node

This project models three parts of the node in Dafny 4.11 and proves what they are for. `dafny verify dfyconfig.toml`
checks everything.

* **MP4 to fragmented MP4** (`core/src/media`). The tracks of a regular file and their sample tables are read from the
  bytes of its `moov`, resolved into byte ranges, cut into GOPs or audio chunks and printed as `moof` + `mdat` fragments.
  The specification side is a demuxer written from ISO/IEC 14496-12 (`Demux.dfy`) and a description of well-formed moovs
  (`TrackMeaning.dfy`): reading all fragments of a track back gives exactly the source samples, in order, with their
  bytes, decode times, durations, sync flags and composition offsets, from the boxes of the file on, with the defaults
  that a reader of the initialization segment finds there (`FileMeaningPreserved`). The other half rewrites box trees at byte level: moov
  and mvex filtering, tfdt insertion, and the in-place tfhd flag patch whose recursion runs past the end of a traf.
* **The browser relay** (`web_viewer/webrtc-client.js`). Chunk framing over ordered channels, per-peer reassembly, TTL
  and dedup flooding with a pruned seen set, the replay window for late joiners, and what a viewer has after a replay. The network is a step system of
  nodes and in-flight copies; channels may interleave in any way, and the network that hears one message at a time is
  proved to refine it (`ChunksRefineCopies`).
* **Signaling and admission** (`node/src/web_server.rs`). Rooms with caps, the notifications from which every client
  can rebuild its room, connection slots counted by atomic operations, and a lazily reset rate limiter.

## How it is built

Code that changes state is a class or a method with the loops of the original (`FragmentedMp4Converter`, `Mp4Parser`,
`FragmentParser`, `WebRtcStreamClient`, `SignalingState`, `RateLimiterState`, the array patch in `TfhdPatch.dfy`). Each
method is proved equal to a function of the old state, and the lemmas about that function carry the meaning. Runs,
interleavings and networks are sequences of steps over the same functions.

Arithmetic is that of a release build: 32-bit and 64-bit additions and casts wrap, and are written out. A panic of the
original (a slice out of range, an index past a vector) is the outcome `Panicked`, an error return is `Failed`.

Where a promised property is not true of the code, the exact condition is proved:

* the version 1 fragment keeps its decode time exactly below 2^32 (`V1KeepsTimeIff`);
* parsing and serializing a file gives it back exactly when no box exceeds the 100 MB cap of the serializer and every
  box type is well-formed UTF-8 (`ParseSerializeIff`, with two failing types in `TypesLost`); for the second serializer,
  which has no cap, exactly when every type is well-formed UTF-8 (`SecondSerializerIff`);
* cutting a track into fragments ends, rather than panics, exactly when no group meets a sample that straddles the start
  of the mdat (or wraps around into it) before another sample out of range, and no group in range meets a zero
  timescale (`RunDoneIff`);
* a segment's timestamp is its start to the millisecond exactly as long as a thousand times that start, in ticks, fits
  64 bits (`SegmentTimestamps`); `StampsGoBack` is a run of 4,294,969 one-byte samples in which stamps go back;
* a well-formed moov is read as the tracks it describes exactly when in every trak the words at byte 12 of tkhd and mdhd
  are track_ID and timescale, as in version 0 (`TracksReadIff`); in version 1 the trak is left out or gets the timescale 0
  (`Version1Lost`);
* filtering a moov for one kind of track leaves no trex without its track and loses none of a track that stays, whatever
  the mvex, exactly when the ids read from the kept traks are their track_IDs (`TrexesFollowIff`, with two failing moovs in
  `Version1Fails`);
* the profile of an avc1 entry is not found: for a standard sample entry the codec is always `avc1.42E01E`
  (`ProfileLost`);
* the test for AC-3 audio on the regular-file path is never met (`VideoOnlyNeverUsed`), and a moov made for video only
  keeps exactly its video tracks when "vide" stands in the pre_defined field of a hdlr just where it is the handler type
  (`VideoOnlyIff`), so none at all of a standard file (`NoTrackLeft`);
* inserting or widening a tfdt moves every sample unless the moof keeps its length (`LocationsKeptIff`), so giving a new
  time to a fragment the converter wrote keeps its samples exactly when its time already had 64 bits, or when reading
  four bytes too early happens to make no difference (`OwnFragmentRenewedIff`);
* a track gets the codec of its sample description exactly when a hdlr stands in front of a minf (`CodecFoundIff`);
* every video segment is marked as starting with a keyframe; that is true of all of them exactly when the first sample is a
  sync sample or the group it leads is left out (`VideoFlagsIff`, with a file in `FlagWrong`);
* the object type of an esds is the one in its decoder configuration when no byte in front of that happens to be 4
  (`TypeRead`); with an ES_ID of 4 it is not (`TypeMissed`);
* a traf keeps its tfhds exactly when it has at most one (`SetKeeps`);
* chunks left over by a closed channel swallow a returning peer's segments up to its first long one
  (`StaleRoundTripIff`, and `ReturnIff` for a run that reaches this state); after the client hangs up itself nothing is
  lost, but the first segment may come under a left-over header (`ReturnAfterDropIff`);
* a new viewer asks for the cache as soon as its channel opens, and gets the cached segments a second time; no segment
  number comes twice exactly when there is no keyframe yet when it asks, or the publisher knew no stream at the opening
  and nothing went live before the request (`AskingJoiner`);
* after a replay a viewer has its publisher's init segment exactly when the last keyframe is not itself an init segment
  older than one that has left the queue (`ReplayCatchesUp`, with such a stream in `UndoneExists`);
* a relay replays keyframe and queue under headers that receivers do not recognise, so that only their bytes arrive and no
  viewer caches a keyframe from a relay's replay (`RelayReplaysBareBytes`);
* room caps hold over all interleavings exactly when a room may hold somebody or no room may exist
  (`InterleavingsKeepIff`);
* a connection that joins a second room without leaving breaks the agreement unless it has no sender or both rooms are
  otherwise empty (`SecondRoomIff`);
* evicting expired buckets goes unnoticed exactly when a window admits at least one request or has no length
  (`CleanupUnseenIff`); the failing case is one of the limiter alone, which the server does not ask when the limit is zero
  (`ServerCleanupUnseen`);
* a connection attempt can be refused although a slot is free (`SpuriousRejection`), but only after a moment at which all
  slots were held (`RefusedOnlyAfterFull`).

Two results come out stronger than the code suggests: an interval of one window length admits at most 2 * max - 1
requests, and the view agreement also survives idle sweeps.

| file | content |
|---|---|
| Bytes, Bits, Boxes, Utf8 | big-endian codec with wrap-around; bits of a number; the box grammar; lossy decoding of box types |
| SampleTables, TableParsers | the sample table, its resolution, and its bytes |
| Codecs, CodecMeaning, MoovTracks, TrackMeaning, TrackCodec | codec detection and what it makes of boxes in place, reading the tracks of a moov, the tracks a well-formed moov describes, and their codecs |
| Converter, Demux | fragment writer and the reader that specifies it |
| Fragments, SegmentLabels, Mp4Parser, InitSegment, WholeFile | cutting, running, what segments say about themselves, the regular-file path, the reader of its initialization segment, and the path from file bytes to samples |
| BoxParsers | both box parsers and both serializers |
| TfhdPatch, TfdtInsertion, SampleLocations, MoovFilter, VideoOnly | byte-level rewriting of box trees |
| ClientState, StreamClient | the browser client |
| Framing, Viewer, Reconnect | chunk framing, what a viewer keeps of what it hears, and channels that close and open again |
| Flood, ChunkNet, Relaying, Dedup | the flooding network, copy by copy and message by message |
| Replay, LateJoin, CatchUp | the replay window, what a late joiner gets end to end, and what it then has |
| Rooms, Signaling, SignalingServer, SignalLogs, ViewAgreement | signaling: the rooms, the handlers, what each puts into which log, and whole runs |
| Admission | rate limiter and connection slots |

## Model

| member | source | states |
|---|---|---|
| SampleTables.Resolve | core/src/media/mp4_parser.rs:152-238 | the six loops compute the declarative table of the standard; they panic exactly when an stsc entry starts behind its successor or the chunk table |
| SampleTables.ExpandChunkRuns | core/src/media/mp4_parser.rs:160-172 | per chunk, the samples-per-chunk of the last stsc entry that starts at or before it; a panic exactly when the entries are out of order |
| SampleTables.PlaceSamples | core/src/media/mp4_parser.rs:174-195 | as many entries as sizes and chunk counts allow, each behind the earlier samples of its own chunk |
| SampleTables.AssignDurations | core/src/media/mp4_parser.rs:197-207 | entry i gets element i of the expanded stts, 0 past its end, and nothing else changes |
| SampleTables.MarkKeyframes | core/src/media/mp4_parser.rs:209-221 | entry i is a sync sample exactly when stss is empty or lists i + 1, and nothing else changes |
| SampleTables.AssignCompositionOffsets | core/src/media/mp4_parser.rs:223-235 | entry i gets element i of the expanded ctts, 0 past its end, and nothing else changes |
| SampleTables.ResolutionUnique | core/src/media/mp4_parser.rs:152-238 | a table has at most one resolution |
| SampleTables.SyncIsMembership | core/src/media/mp4_parser.rs:209-221 | the wrap-around of the 1-based sample number never matters |
| SampleTables.IncreasingInOrder | core/src/media/mp4_parser.rs:160-172 | an stsc that starts at chunk 1, increases strictly and stays in range never panics |
| SampleTables.CoveringRun | core/src/media/mp4_parser.rs:160-172 | for such an stsc the entry in force at a chunk is the one that covers it |
| SampleTables.SampleInExtent | core/src/media/mp4_parser.rs:174-195 | when chunk extents are disjoint a sample lies in its chunk's extent, at its chunk's offset plus the earlier sizes |
| SampleTables.SamplesDisjoint | core/src/media/mp4_parser.rs:174-195 | disjoint chunk extents give disjoint samples |
| TableParsers.ParseStsz | core/src/media/mp4_parser.rs:891-919 | one size for all samples, or the complete announced sizes |
| TableParsers.ParseStts | core/src/media/mp4_parser.rs:922-950 | the complete announced runs, nothing from a truncated row |
| TableParsers.ParseStsc | core/src/media/mp4_parser.rs:953-986 | the complete announced entries |
| TableParsers.ParseStco | core/src/media/mp4_parser.rs:989-1009 | the complete announced 32-bit offsets |
| TableParsers.ParseCo64 | core/src/media/mp4_parser.rs:1012-1036 | the complete announced 64-bit offsets |
| TableParsers.ParseStss | core/src/media/mp4_parser.rs:1039-1059 | the complete announced sample numbers |
| TableParsers.ParseCtts | core/src/media/mp4_parser.rs:1062-1089 | the complete announced runs, with signed offsets in every version |
| TableParsers.ParseStbl | core/src/media/mp4_parser.rs:807-888 | the codec of the last stsd, an error without one; each column is what the last child box of its kind says, chunk offsets what the last box of either width says; no table without samples |
| TableParsers.TableRoundTrip | core/src/media/mp4_parser.rs:807-1089 | an stbl whose boxes describe a table, in any order, among other boxes, with either stsz form and either offset width, reads back as that table |
| Codecs.ParseStsdBox | core/src/media/mp4_parser.rs:1106-1244 | name, MIME type and parameters by media type and format, the error of an unsupported pair, and the panic of a too short avcC |
| Codecs.ExtractAvcProfile | core/src/media/mp4_parser.rs:1247-1283 | the three bytes of the first avcC that can be read, or the default; a panic when it has only three bytes |
| Codecs.ExtractAacObjectType | core/src/media/mp4_parser.rs:1286-1330 | the object type of the first esds that is long enough |
| Codecs.ParseEsdsForAacObjectType | core/src/media/mp4_parser.rs:1333-1390 | the byte behind the length of the first decoder configuration |
| Codecs.NeverAc3 | core/src/media/mp4_parser.rs:1146-1240 | the parameters of a codec are never "AC-3", not even those of the codec AC-3 |
| Codecs.ProfileLost | core/src/media/mp4_parser.rs:1247-1283 | for a standard sample entry, whose first six bytes are zero, the profile is the default one whatever the avcC says |
| CodecMeaning.ProfileRead | core/src/media/mp4_parser.rs:1247-1283 | of boxes in place, the first avcC gives profile, compatibility and level as six capital hexadecimal digits |
| CodecMeaning.TypeRead | core/src/media/mp4_parser.rs:1333-1390 | behind a descriptor length of any width the object type of the decoder configuration is found, when no byte in front of its tag is 4 |
| CodecMeaning.TypeMissed | core/src/media/mp4_parser.rs:1333-1390 | with an ES_ID of 4 the tag itself is taken for the type |
| CodecMeaning.SoundEntryRead | core/src/media/mp4_parser.rs:1154-1196 | a standard mp4a entry is AAC with the object type of its esds, in its MIME type and as two hexadecimal digits |
| CodecMeaning.PictureEntryRead | core/src/media/mp4_parser.rs:1144-1153 | an avc1 entry whose boxes start at once is H.264 with the profile of its avcC, in its MIME type and as its parameters |
| CodecMeaning.OtherEntriesRead | core/src/media/mp4_parser.rs:1106-1244 | the default codec of every other entry, AC-3 exactly by its format, and an error exactly for other tracks and short boxes |
| MoovTracks.TracksUnmarked | core/src/media/mp4_parser.rs:439-889 | no track read from any bytes has the parameters "AC-3" |
| TrackMeaning.TracksReadIff | core/src/media/mp4_parser.rs:439-889 | a well-formed moov is read as exactly the tracks it describes -- ids, handlers, timescales and tables, in order -- if and only if the words at byte 12 of tkhd and mdhd are track_ID and timescale |
| TrackMeaning.TrakIsRead | core/src/media/mp4_parser.rs:494-626 | what a well-formed trak becomes: nothing when the word at byte 12 of its tkhd is 0, otherwise a track with that id, its handler, the word at byte 12 of its mdhd and its table |
| TrackMeaning.Version1Lost | core/src/media/mp4_parser.rs:601-725 | a version 1 trak with a modification time before 2040 is left out, or gets the timescale 0 |
| TrackCodecs.CodecFoundIff | core/src/media/mp4_parser.rs:629-702 | the track of a well-formed trak has the codec its sample description gives for its handler exactly when some hdlr stands in front of a minf, and none otherwise |
| TrackCodecs.GuessRead | core/src/media/mp4_parser.rs:750-804 | without an stbl the codec is a guess by media type |
| Converter.FragmentedMp4Converter.constructor | core/src/media/fmp4_converter.rs:19-25 | numbering starts at 1 and time at 0 |
| Converter.FragmentedMp4Converter.CreateFragment | core/src/media/fmp4_converter.rs:28-52 | prints the version 1 fragment of the current counters, then the counters advance by one and by the total duration |
| Converter.FragmentedMp4Converter.CreateFragmentV2 | core/src/media/fmp4_converter.rs:56-78 | the same for version 2 fragments |
| Converter.FragmentedMp4Converter.CreateMoofV2 | core/src/media/fmp4_converter.rs:81-96 | the moof box of section 8.8.4 with mfhd and traf |
| Converter.FragmentedMp4Converter.CreateTrafV2 | core/src/media/fmp4_converter.rs:99-117 | tfhd, tfdt of the width the time needs, trun |
| Converter.FragmentedMp4Converter.CreateTfdtAuto | core/src/media/fmp4_converter.rs:121-134 | a version 1 tfdt exactly for times beyond 32 bits |
| Converter.FragmentedMp4Converter.CreateTrunV2 | core/src/media/fmp4_converter.rs:137-179 | the loop prints one row of duration, size, flags and composition offset per frame, behind the predicted data offset |
| Converter.FragmentedMp4Converter.CreateMdat | core/src/media/fmp4_converter.rs:182-192 | the payload is the frames' bytes in order |
| Converter.FragmentedMp4Converter.CalculateMoofSizeV2 | core/src/media/fmp4_converter.rs:195-204 | the wrapped size is the wrapped prediction for both tfdt widths |
| Converter.FragmentedMp4Converter.CreateMoof | core/src/media/fmp4_converter.rs:207-230 | the version 1 moof |
| Converter.FragmentedMp4Converter.CreateTfhd | core/src/media/fmp4_converter.rs:281-297 | default-base-is-moof and the track id |
| Converter.FragmentedMp4Converter.CreateTfdt | core/src/media/fmp4_converter.rs:300-315 | the 32-bit tfdt, which truncates |
| Converter.FragmentedMp4Converter.CreateTrun | core/src/media/fmp4_converter.rs:318-350 | the loop prints one row of duration and size per frame |
| Converter.FragmentedMp4Converter.CalculateMoofSize | core/src/media/fmp4_converter.rs:373-377 | the wrapped size is the wrapped prediction |
| Converter.MoofSizePredicted | core/src/media/fmp4_converter.rs:195-204 | the size predicted before the bytes exist is the length of the serialized moof, in both versions and for both tfdt widths |
| Demux.FragmentV2RoundTrip | core/src/media/fmp4_converter.rs:56-204 | reading a version 2 fragment as the standard says gives the sequence number, the track, the time and exactly the frames |
| Demux.FragmentV1RoundTrip | core/src/media/fmp4_converter.rs:28-52 | a version 1 fragment gives back bytes, durations and 32 bits of time, everything else at the trex defaults |
| Demux.V1KeepsTimeIff | core/src/media/fmp4_converter.rs:300-315 | a version 1 fragment keeps its decode time exactly below 2^32 |
| Demux.RunV2At | core/src/media/fmp4_converter.rs:62-78 | fragment k of a run has sequence number first + k and the time of everything before it |
| Demux.RunV2Continuous | core/src/media/fmp4_converter.rs:56-204 | over any run of calls sequence numbers are consecutive, and demuxing fragment k gives frame list k on a gap-free timeline |
| Fragments.GopsPartition | core/src/media/mp4_parser.rs:2081-2149 | the groups are non-empty and concatenate to all samples; every group after the first begins with its only keyframe |
| Fragments.ChunksPartition | core/src/media/mp4_parser.rs:2204-2281 | the audio chunks concatenate to all samples, all but the last of exactly the chunk size |
| Fragments.AudioChunkSpan | core/src/media/mp4_parser.rs:2204-2219 | for constant durations a chunk spans at most half a second or is one sample, and but for the last no chunk could take one sample more |
| Fragments.ExtractIff | core/src/media/mp4_parser.rs:2101-2117 | a sample is extracted exactly when it lies in the mdat, as those bytes of the file; the slice panics exactly when the wrapped end passes the bounds test |
| Fragments.FramesIff | core/src/media/mp4_parser.rs:2096-2125 | a group gives frames exactly when all of it lies in the mdat, and panics exactly when a straddling sample comes before any other sample out of range |
| Fragments.RunDoneIff | core/src/media/mp4_parser.rs:2081-2149 | a run ends without a panic exactly when no group hits a straddling sample and a zero timescale meets no group in range |
| Fragments.KeptInRange | core/src/media/mp4_parser.rs:2096-2125 | what is kept of the groups is what is kept of those wholly in the mdat: a group with a sample out of range is dropped whole, and no other is |
| Fragments.RunIsOverKept | core/src/media/mp4_parser.rs:2096-2147 | neither the sequence numbers nor the timeline see a dropped group: the run equals one over the kept frame lists |
| Fragments.KeptGroupsDemuxed | core/src/media/mp4_parser.rs:2086-2149 | with a fresh converter, demuxing all segments gives exactly the kept frames on a timeline without gaps |
| Fragments.InRangeDemuxed | core/src/media/mp4_parser.rs:2063-2149 | for any groups and any mdat: unless a group hits a straddling sample, the fragments demux to exactly the source samples of the groups that lie in the mdat, with the bytes the file has at their offsets, from time 0 without gaps |
| Fragments.VideoMeaningPreserved | core/src/media/mp4_parser.rs:2063-2149 | for a resolved table whose samples lie in the mdat, demuxing the video fragments gives exactly the source samples with the bytes the file has at their offsets |
| Fragments.AudioMeaningPreserved | core/src/media/mp4_parser.rs:2201-2281 | the same for audio cut into chunks, every sample a sync sample without composition offset |
| Fragments.ClocksAgree | core/src/media/mp4_parser.rs:2083-2147 | the local decode time and the converter's base time never drift apart |
| Fragments.SegmentTimestamps | core/src/media/mp4_parser.rs:2127-2145 | for any number of segments a timestamp is the exact start rounded down to a millisecond if and only if a thousand times that start fits 64 bits; beyond, it is the wrapped product divided |
| Fragments.TimestampsMonotone | core/src/media/mp4_parser.rs:2127-2145 | up to there timestamps never go back |
| Fragments.StampsGoBack | core/src/media/mp4_parser.rs:2127-2145 | a run of 4,294,969 segments in which a stamp goes back |
| Fragments.LegacyBytesKept | core/src/media/mp4_parser.rs:2157-2178 | without a sample table the fragments still carry all mdat bytes in order |
| SegmentLabels.RunLabelled | core/src/media/mp4_parser.rs:2126-2147 | every segment carries the track, the summed durations and the start in milliseconds of the fragment in its own bytes; the fragments are numbered from 1 |
| SegmentLabels.VideoFlagsIff | core/src/media/mp4_parser.rs:2136-2145 | every video segment is marked as a keyframe; true of all exactly when the first sample is a sync sample or its group is left out |
| SegmentLabels.FlagWrong | core/src/media/mp4_parser.rs:2136-2145 | a file of one sample that is not a sync sample |
| SegmentLabels.AudioFlags | core/src/media/mp4_parser.rs:2262-2278 | of audio segments it is always true |
| SegmentLabels.LegacyLabelled | core/src/media/mp4_parser.rs:2157-2178 | number, track, time, stamp and duration of each segment without a sample table; only the first is marked as a keyframe |
| Mp4Parsers.Mp4Parser.Parse | core/src/media/mp4_parser.rs:328-376 | boxes, the tracks of every moov, the fragmented flag and the mdat offset are those of the box list; parsing never fails with an error and panics exactly when a box or a moov does |
| Mp4Parsers.Mp4Parser.ParseMoovBox | core/src/media/mp4_parser.rs:439-491 | every trak that can be read adds its track, in order, wherever the cursor stands after one that can not |
| Mp4Parsers.Mp4Parser.ParseTrakBox | core/src/media/mp4_parser.rs:494-598 | the last readable tkhd and mdia count; a short tkhd is skipped twice; no track without an id or a media type |
| Mp4Parsers.Mp4Parser.ParseMdiaBox | core/src/media/mp4_parser.rs:629-702 | timescale, media type and codec, with the sample table left pending |
| Mp4Parsers.Mp4Parser.ParseMinfBox | core/src/media/mp4_parser.rs:750-804 | codec and table of the first readable stbl, a guess without one, and the table kept when the codec is an error |
| Mp4Parsers.VideoOnlyNeverUsed | core/src/media/mp4_parser.rs:1985-1996 | whatever file was parsed, video-only mode is not entered: the moov is used as it is and the audio track is cut |
| Mp4Parsers.Mp4Parser.ParseBoxAt | core/src/media/mp4_parser.rs:379-436 | one box with a 32-bit or a 64-bit size and its lossily decoded type; an error when it does not fit, a panic when its size is smaller than its header |
| Mp4Parsers.MdatIsWindow | core/src/media/mp4_parser.rs:350-354 | the mdat bytes are the window of the file at the recorded offset |
| Mp4Parsers.Mp4Parser.ExtractFrames | core/src/media/mp4_parser.rs:2097-2125 | the frames of a group, or nothing when one sample is out of range |
| Mp4Parsers.Mp4Parser.EmitGroup | core/src/media/mp4_parser.rs:2126-2147 | at most one segment, with the clocks advanced by what was written |
| Mp4Parsers.Mp4Parser.FragmentGops | core/src/media/mp4_parser.rs:2081-2149 | the single loop with its boundary test runs over exactly the GOPs of the entries |
| Mp4Parsers.Mp4Parser.FragmentAudio | core/src/media/mp4_parser.rs:2201-2281 | the chunk loop runs a fresh converter over exactly the chunks |
| Mp4Parsers.Mp4Parser.FragmentLegacy | core/src/media/mp4_parser.rs:2157-2178 | one frame of one second per 64 KiB |
| Mp4Parsers.Mp4Parser.FragmentVideo | core/src/media/mp4_parser.rs:2057-2178 | the path by sample table, its error without samples, and the fallback |
| Mp4Parsers.Mp4Parser.FragmentAudioTrack | core/src/media/mp4_parser.rs:2185-2294 | the audio path of a track with and without a table, and nothing without a track |
| Mp4Parsers.Mp4Parser.CreateMvexBox | core/src/media/mp4_parser.rs:2382-2465 | an mvex with one trex per track, in order; what a reader finds in it is `MvexRead` |
| Mp4Parsers.Mp4Parser.CreateMseCompatibleMoov | core/src/media/mp4_parser.rs:2327-2375 | the original content, or the video-only one when a track is marked AC-3, followed by that mvex, as one well-sized moov; what a reader finds in it is `InitReads` |
| InitSegments.TrexRead | core/src/media/mp4_parser.rs:2416-2465 | read as section 8.8.3 says, a trex has the id of its track, sample description 1 and defaults of zero |
| InitSegments.MvexRead | core/src/media/mp4_parser.rs:2382-2408 | read back, the mvex announces every track once, in order, under its own id |
| InitSegments.InitReads | core/src/media/mp4_parser.rs:2004-2047 | read back, the initialization segment is the ftyps of the file and one moov: the boxes of the original moov in order, then the mvex with its trexes |
| Mp4Parsers.Mp4Parser.CreateFragmentsFromRegularMp4 | core/src/media/mp4_parser.rs:1981-2299 | initialization segment, then the video segments of the resolved video table, then the audio segments unless a track is marked AC-3; error without a moov |
| WholeFile.FileMeaningPreserved | core/src/media/mp4_parser.rs:328-2299 | from the boxes of the file: when its moov is well formed with its words in place, parsing and cutting give an initialization segment, video and audio; the initialization segment announces both tracks, every fragment names its own, and with the defaults read there demuxing gives the samples the described tables place in the mdat |
| WholeFile.TracksPreserved | core/src/media/mp4_parser.rs:1981-2299 | the same for whatever tracks were read |
| WholeFile.TablelessFile | core/src/media/mp4_parser.rs:2057-2178 | without a video track or its sample table every byte of the mdat arrives, one sample per segment, numbered from 1 and stamped a second apart; without a track under id 1 and 1000 ticks a second |
| Utf8.LossyKeepsIff | core/src/media/mp4_parser.rs:391 | lossy decoding changes a type exactly when it is not well-formed UTF-8 |
| Utf8.AsciiTest | core/src/media/mp4_parser.rs:827 | comparing a decoded type with an ASCII name is comparing the bytes, so the loops that only compare may do without decoding |
| BoxParsers.ContentIsWindow | core/src/media/mp4_parser.rs:379-436 | the content of every parsed box is a window of the file at its recorded start |
| BoxParsers.EntriesParsed | core/src/media/mp4_parser.rs:328-436 | a printed list of boxes with 32-bit or 64-bit sizes is parsed box by box |
| BoxParsers.SerializedEntries | core/src/media/mp4_parser.rs:2983-3098 | for boxes under the cap with well-formed types, serializing the parsed list prints the same boxes with 32-bit headers |
| BoxParsers.ParseSerializeIff | core/src/media/mp4_parser.rs:328-436 | parse and serialize give the input back exactly when every whole box stays within the 100 MB cap and every type is well-formed UTF-8 |
| BoxParsers.OverCapShrinks | core/src/media/mp4_parser.rs:2983-3050 | an oversized box is left out, so the output is shorter than the input as soon as one box exceeds the cap |
| BoxParsers.SerializedAtMost | core/src/media/mp4_parser.rs:2983-3050 | whatever the types and sizes, the output is never longer than the input |
| BoxParsers.TypesLost | core/src/media/mp4_parser.rs:391 | two boxes under the cap that are lost: the one vanishes, the other comes back with a different type |
| BoxParsers.ParsersAgree | core/src/media/fragment_parser.rs:83-151 | both parsers give the same types, sizes, places and contents box by box on a well-formed file |
| BoxParsers.SecondSerializerIff | core/src/media/fragment_writer.rs:345-355 | what the second parser reads, the second serializer gives back exactly when every type is well-formed UTF-8; it never writes less |
| BoxParsers.FragmentParser.ParseBoxes | core/src/media/fragment_parser.rs:83-133 | the offset loop appends exactly the walked boxes |
| BoxParsers.FragmentParser.Parse | core/src/media/fragment_parser.rs:74-81 | size, boxes, placeholder tracks and the fragmented flag after a parse |
| BoxParsers.FragmentParser.HasBox | core/src/media/fragment_parser.rs:180-182 | found exactly when a box of the type is in the list |
| Boxes.ScanAllPrinted | core/src/media/mp4_parser.rs:816-841 | the loop over a printed box list sees exactly that list |
| Boxes.TiledIffScanned | core/src/media/mp4_parser.rs:816-841 | bytes are a box list exactly when the loop over them consumes all of them, and then it sees that list |
| TfhdPatch.FixTfhdFlagsRecursive | core/src/media/mp4_parser.rs:2517-2595 | the recursion on the buffer itself ends on every input and equals its specification, bytes and count |
| TfhdPatch.FixSingleTfhdFlags | core/src/media/mp4_parser.rs:2603-2674 | a tfhd of at least 16 bytes ends up with bit 0x000001 of its 24-bit flags clear, bit 0x020000 set and every other bit and byte as it was; it counts as fixed exactly when one of the two was wrong; nothing outside this tfhd changes |
| TfhdPatch.FixMoofTfhdFlags | core/src/media/mp4_parser.rs:2476-2514 | the moof of the patched content |
| TfhdPatch.PatchNodes | core/src/media/mp4_parser.rs:2517-2674 | on well-formed content, although siblings are visited again and again, the walk is one fix of every tfhd of the tree, each counted once; what a fix is on the flags is `PatchMeaning` |
| TfhdPatch.PatchMoof | core/src/media/mp4_parser.rs:2476-2674 | the patch of a whole moof, and a second run changes and counts nothing |
| TfhdPatch.FixNodesKeep | core/src/media/mp4_parser.rs:2603-2674 | fixing keeps every length, leaves nothing to fix, and twice is once |
| TfhdPatch.PatchMeaning | core/src/media/mp4_parser.rs:2517-2674 | the patched moof is the same tree of boxes, the untouched ones identical, in which every tfhd at any depth has bit 0x000001 clear, bit 0x020000 set and all other flag bits and bytes as before; there is only one such tree; the count is the number of tfhds that had one of the two wrong |
| TfdtInsertion.EnsureTrafHasTfdt | core/src/media/mp4_parser.rs:2765-2845 | the loop over a traf on any bytes, with its panics |
| TfdtInsertion.EnsureMoofHasTfdt | core/src/media/mp4_parser.rs:2688-2762 | the loop over a moof on any bytes, with its panics |
| TfdtInsertion.EnsureMoofPrinted | core/src/media/mp4_parser.rs:2688-2845 | on a well-formed moof the byte rewriting is the set operation on every traf |
| TfdtInsertion.GetAfterSet | core/src/media/mp4_parser.rs:2765-2863 | get after set: the tfdt a reader finds holds the new time, and no other is left |
| TfdtInsertion.SetAfterSet | core/src/media/mp4_parser.rs:2765-2863 | set after set: only the last time counts, on any children |
| TfdtInsertion.SetChildrenTwice | core/src/media/mp4_parser.rs:2688-2863 | the same for whole moofs |
| TfdtInsertion.SetKeeps | core/src/media/mp4_parser.rs:2765-2845 | other children survive in order, the tfhd leads with an inserted tfdt right behind it, and tfhds survive exactly when there is at most one |
| TfdtInsertion.SetLength | core/src/media/mp4_parser.rs:2765-2845 | for any children a traf grows by 20 without a tfdt, else by 20 minus the size of each tfdt, and loses all tfhds but the last |
| TfdtInsertion.SetChildrenLength | core/src/media/mp4_parser.rs:2688-2762 | any moof grows by the sum over its trafs |
| SampleLocations.LocationsKeptIff | core/src/media/mp4_parser.rs:2688-2762 | an offset behind the moof reads the same byte of whatever follows exactly when the moof has not grown |
| SampleLocations.OwnFragmentRenewedIff | core/src/media/mp4_parser.rs:2688-2762 | renewing the time of a fragment the converter wrote and demuxing it gives the same samples at the new time exactly when the written time had 64 bits or the payload reads the same four bytes earlier |
| MoovFilter.TrackHandlerType | core/src/media/mp4_parser.rs:3310-3364 | the nested walk for the handler type of a trak, on any bytes |
| MoovFilter.ExtractTrackIdFromTrak | core/src/media/mp4_parser.rs:3367-3403 | the walk for the track id, on any bytes |
| MoovFilter.FilterMvexForTracks | core/src/media/mp4_parser.rs:3406-3468 | the walk over an mvex, on any bytes |
| MoovFilter.FilterMoovForTrackType | core/src/media/mp4_parser.rs:3231-3307 | the walk over a moov, on any bytes, with its panics |
| MoovFilter.FilterSees | core/src/media/mp4_parser.rs:3231-3307 | on a well-formed moov the result is the other children and the kept traks in order, then the filtered mvex |
| MoovFilter.FilterTwice | core/src/media/mp4_parser.rs:3231-3307 | the result is again a well-formed box list, and filtering it again changes nothing |
| MoovFilter.SurvivesIff | core/src/media/mp4_parser.rs:3406-3468 | a trex is in the result exactly when it is in the last mvex, long enough, and its id was read from a kept trak |
| MoovFilter.TrexesRightIff | core/src/media/mp4_parser.rs:3231-3468 | for a moov as it is: no trex dangles exactly when every trex id that was read is a track_ID of a kept trak, and none is lost exactly when every trex of a kept track_ID was read |
| MoovFilter.TrexesFollowIff | core/src/media/mp4_parser.rs:3231-3468 | whatever mvex a moov ends with, none dangles and none is lost exactly when the ids read from the kept traks are their track_IDs |
| MoovFilter.OneTrakReadIff | core/src/media/mp4_parser.rs:3367-3403 | with a single kept trak that is when its tkhd is read right |
| MoovFilter.Version0Read | core/src/media/mp4_parser.rs:3384-3396 | a tkhd of version 0 is read right |
| MoovFilter.Version1Fails | core/src/media/mp4_parser.rs:3384-3396 | two moovs with a version 1 tkhd: in one a trex dangles, in the other the track loses its own |
| MoovFilter.EachTrakOnce | core/src/media/mp4_parser.rs:3189-3223 | each video or audio trak goes to exactly one of the two initialization segments, other traks to none, other children to both |
| VideoOnly.CreateVideoOnlyMoov | core/src/media/mp4_parser.rs:2866-2920 | the walk over a moov, on any bytes |
| VideoOnly.IsVideoTrack | core/src/media/mp4_parser.rs:2923-2980 | the nested walk, which looks four bytes in front of the handler type |
| VideoOnly.VideoOnlyIff | core/src/media/mp4_parser.rs:2866-2980 | the result is the moov without its other tracks exactly when in every trak "vide" stands in pre_defined just when it is the handler type |
| VideoOnly.NoTrackLeft | core/src/media/mp4_parser.rs:2866-2980 | of a standard moov no track is left, and everything else |
| StreamClients.WebRtcStreamClient.SendChunked | web_viewer/webrtc-client.js:814-831 | start marker, pieces of at most 16000 bytes, end marker |
| StreamClients.WebRtcStreamClient.SendSegmentToPeer | web_viewer/webrtc-client.js:910-924 | header, then the buffer whole or in chunks |
| StreamClients.WebRtcStreamClient.AssembleChunks | web_viewer/webrtc-client.js:773-782 | the chunks concatenated in order |
| StreamClients.WebRtcStreamClient.HandleDataChannelMessage | web_viewer/webrtc-client.js:562-583 | the whole new client state after one message |
| StreamClients.WebRtcStreamClient.HandleControlMessage | web_viewer/webrtc-client.js:588-646 | the whole new client state after one control message; a header is stored with every field as sent, 3 hops when none are given, and its sender |
| StreamClients.WebRtcStreamClient.ProcessReceivedSegment | web_viewer/webrtc-client.js:653-697 | the pending header is used up; caches, delivery, dedup and relaying as specified |
| StreamClients.WebRtcStreamClient.AddSeenSequence | web_viewer/webrtc-client.js:721-731 | the pruning loop keeps the most recent entries in order, without duplicates |
| StreamClients.WebRtcStreamClient.RelaySegmentToPeers | web_viewer/webrtc-client.js:739-768 | sends to every open channel but the sender's with one hop less, and nothing when the ttl is used up |
| StreamClients.WebRtcStreamClient.ForwardSegmentToPeers | web_viewer/webrtc-client.js:861-902 | numbers, caches, queues and sends a segment |
| StreamClients.WebRtcStreamClient.SendCachedDataToPeer | web_viewer/webrtc-client.js:930-984 | stream info, init segment, keyframe, then what is queued behind it, which for a publisher is the replay of its inputs (`CachedIsReplay`) |
| StreamClients.WebRtcStreamClient.SetupDataChannel | web_viewer/webrtc-client.js:516-556 | the peer is known and not open, even when it was before; every other channel is unchanged and in its place, a new one is at the end, and nothing is sent |
| StreamClients.WebRtcStreamClient.OnOpen | web_viewer/webrtc-client.js:519-539 | an opened channel gets the cache when the client knows a stream and may pass it on, and a request when the client is a plain viewer |
| StreamClients.WebRtcStreamClient.OnClose | web_viewer/webrtc-client.js:541-545 | the peer has no channel and no pending header; half-received chunks and all other channels stay |
| StreamClients.WebRtcStreamClient.ClosePeerConnection | web_viewer/webrtc-client.js:989-1001 | the peer has no channel and no half-received chunks; its pending header and all other channels stay |
| Framing.HandleLocal | web_viewer/webrtc-client.js:562-697 | a message moves the reassembly state of its own peer and of no other |
| Framing.Interleaved | web_viewer/webrtc-client.js:562-697 | for any interleaving, what a peer's traffic delivers depends on that traffic alone |
| Framing.FramingRoundTrip | web_viewer/webrtc-client.js:562-924 | any list of segments of any size arrives exactly, in order, however the channels interleave, each under its type, number, size, keyframe flag and timestamp as sent, its ttl as sent or 3, and its sender |
| Framing.ChunksShape | web_viewer/webrtc-client.js:814-831 | the start marker announces the length, piece k holds 16000 bytes from byte 16000 * k on or what is left, the end marker closes |
| Framing.DeliveredSoFar | web_viewer/webrtc-client.js:562-607 | at every moment what was delivered is a prefix of what was sent |
| Framing.StaleChunksSwallow | web_viewer/webrtc-client.js:573-581 | left-over chunks swallow everything up to the first chunked segment |
| Framing.StaleRoundTripIff | web_viewer/webrtc-client.js:573-581 | with left-over chunks the round trip holds exactly when there is nothing to send or the first segment is chunked |
| Framing.LeftHeaderIff | web_viewer/webrtc-client.js:562-697 | with a left-over header and no chunks every buffer arrives in order, under its own header exactly when the first segment has one that is recognised |
| Viewers.CachesAreLatest | web_viewer/webrtc-client.js:609-697 | over any traffic of any peers the caches hold the last keyframe and the last init segment the player was handed, and what the last stream_info said |
| Viewers.RelaysIff | web_viewer/webrtc-client.js:702-716 | a viewer relays exactly when at some moment it had both a stream info and an init segment, and has announced that once |
| Viewers.KeyframeIsCached | web_viewer/webrtc-client.js:616-675 | after a keyframe the cached keyframe is that segment under the header it was sent with |
| Reconnect.CutLeavesChunks | web_viewer/webrtc-client.js:541-581 | whatever other peers send, a channel that closes inside a chunked segment and opens again leaves its chunks behind |
| Reconnect.ReturnIff | web_viewer/webrtc-client.js:541-581 | after such a return everything before the first chunked segment is lost, so all of it arrives exactly when there is nothing to send or the first segment is chunked |
| Reconnect.ReturnAfterDropIff | web_viewer/webrtc-client.js:562-1001 | after the client hangs up itself a return loses nothing, whatever was cut off; headers are right exactly when none was left over or the first segment has a recognised one |
| Flood.SegmentHandled | web_viewer/webrtc-client.js:653-697 | delivering the messages of a copy one by one is one processing step of the network model |
| Flood.EmittedIsSent | web_viewer/webrtc-client.js:739-768 | the copies a step emits are exactly the messages the client sends |
| Flood.DeliverDecreases | web_viewer/webrtc-client.js:739-768 | every delivery strictly decreases the sum of (degree + 1)^ttl over copies in flight, with or without dedup |
| Flood.FloodEnds | web_viewer/webrtc-client.js:680-768 | the deliveries of any run are bounded by what was in flight plus a fixed amount per new segment |
| Flood.RunConserves | web_viewer/webrtc-client.js:739-768 | hops + ttl == 4 for every copy in flight, so no copy crosses more than three edges |
| ChunkNet.ChunksRefineCopies | web_viewer/webrtc-client.js:562-924 | every run of the network in which clients hear one message of one channel at a time does what a run that delivers whole copies does: same clients, same copies under way |
| ChunkNet.HopsOnChannels | web_viewer/webrtc-client.js:562-924 | over every run from rest the messages on a channel are what is left of the copies that a run of the copy network has under way there; edges crossed and ttl of each add up to four, and every segment header on the channel carries a ttl from 1 to 3 |
| Relaying.RelayedToOthers | web_viewer/webrtc-client.js:679-768 | every connected peer but the one it came from is sent an unseen segment with one hop less, exactly when the client relays and the ttl allows; the one it came from nothing |
| Dedup.SeenIsRecent | web_viewer/webrtc-client.js:721-731 | the seen set is always the most recently inserted numbers, never above the cap |
| Dedup.RelayKeeps | web_viewer/webrtc-client.js:679-731 | a relay sends on the segments with hops left whose number is not among the last 500 it sent on; it keeps those 500 numbers and the last 30 of those segments |
| Dedup.RelayedAgainOnlyLate | web_viewer/webrtc-client.js:679-692 | a relay repeats a number only after at least 500 others |
| Dedup.SeenHistory | web_viewer/webrtc-client.js:680-731 | over any run of the network a seen set is the last 500 of what it held and what was added to it |
| Dedup.RememberedIsSentOnce | web_viewer/webrtc-client.js:679-768 | as long as no relay forgets a number, every copy of it is paid for by the degree of a node that had not seen it |
| Dedup.SentAtMostOnceEach | web_viewer/webrtc-client.js:679-768 | for streams of any length: when at every relay fewer than 500 newer numbers follow a number, all copies of it ever sent stay within the sum of the node degrees |
| Replay.PublisherKeeps | web_viewer/webrtc-client.js:861-902 | the queue is the last min(n, 30) consecutive segments and the cached keyframe the latest one |
| Replay.CachedIsReplay | web_viewer/webrtc-client.js:930-984 | a publisher replays, from its inputs alone: its stream info, the last init input under an init header numbered -1, the last keyframe and what came behind it among the last 30 |
| Replay.LiveReaches | web_viewer/webrtc-client.js:896-901 | live forwarding puts exactly the live segments on a connected peer's channel |
| Replay.JoinerIsSent | web_viewer/webrtc-client.js:930-984 | one replay and live forwarding put exactly the joiner's items on its channel |
| Replay.LateJoiner | web_viewer/webrtc-client.js:930-984 | one replay and live segments: keyframe k, then strictly increasing numbers without duplicates, gap-free exactly when at most 30 segments had followed k |
| Replay.NoKeyframeNoReplay | web_viewer/webrtc-client.js:960-982 | without a cached keyframe the queue is not replayed |
| LateJoin.JoinerReceives | web_viewer/webrtc-client.js:516-984 | end to end: whatever other peers send or ask for, the joiner's player gets exactly what the publisher's inputs call for: the replay at the opening, the replays it asks for, and the live segments, with those numbers |
| LateJoin.AskingJoiner | web_viewer/webrtc-client.js:525-640 | the numbers of a viewer that asks once, as every new viewer does; none comes twice exactly when there is no keyframe yet when it asks, or the publisher knew no stream at the opening and nothing went live before the request |
| LateJoin.QuietJoiner | web_viewer/webrtc-client.js:525-528 | a viewer that does not ask gets strictly increasing numbers, gap-free from the keyframe exactly when at most 30 segments had followed it |
| LateJoin.FreshViewerAsks | web_viewer/webrtc-client.js:530-538 | a new viewer sends its request as soon as the channel opens |
| LateJoin.DuplicatesIff | web_viewer/webrtc-client.js:525-640 | two replays of the cache repeat a number exactly under those conditions |
| CatchUp.ReplayCatchesUp | web_viewer/webrtc-client.js:609-984 | after a replay a viewer has the publisher's stream info and keyframe, and its init segment exactly when no keyframe of the replay is an older init segment |
| CatchUp.UndoneExists | web_viewer/webrtc-client.js:930-984 | a stream in which it is |
| CatchUp.ViewerCatchesUp | web_viewer/webrtc-client.js:516-984 | from its first replay on a viewer has at any time the publisher's stream info, keyframe and init segment, as long as no input is a keyframe and an init segment at once |
| CatchUp.OpenSays | web_viewer/webrtc-client.js:519-539 | what any client sends when a channel opens: a replay when it may serve and knows the stream, a request when it may not serve, nothing else |
| CatchUp.RelayReplaysBareBytes | web_viewer/webrtc-client.js:653-984 | over any run of a viewer its replay gives stream info and init segment, but keyframe and queue as bytes without a header; no keyframe is cached from it |
| Rooms.EnterIff | node/src/web_server.rs:2486-2531 | who may enter a room, what the room holds afterwards, and that no other room changes; a rejoin to a full room keeps its size |
| Rooms.InterleavingsKeepIff | node/src/web_server.rs:2486-2531 | every interleaving of locked sections keeps both caps, unique ids and no empty room exactly when a room may hold somebody or no room may exist |
| Rooms.SectionKeeps | node/src/web_server.rs:2676-2695 | each single section (join, update, leave, kick, sweep) keeps the room invariants |
| Rooms.RetainIs | node/src/web_server.rs:2736-2737 | a removal takes out exactly the peer's entries |
| Rooms.RetainInOrder | node/src/web_server.rs:2736-2737 | and leaves the others in their order |
| Signaling.SendAllAt | node/src/web_server.rs:2571-2578 | a notification reaches every registered member once and nobody else |
| SignalingServer.SignalingState.HandlePeerJoin | node/src/web_server.rs:2448-2580 | the whole new server state and current stream after a join, with every refusal |
| SignalingServer.SignalingState.HandlePeerUpdate | node/src/web_server.rs:2665-2712 | flags and notifications after an update |
| SignalingServer.SignalingState.CleanupSignalingPeer | node/src/web_server.rs:2722-2760 | sender, room and notifications after a leave |
| SignalingServer.SignalingState.RemoveEverywhere | node/src/web_server.rs:2767-2781 | the peer is out of every room whatever order the hash map gives |
| SignalingServer.SignalingState.KickPeerFromSignaling | node/src/web_server.rs:2766-2810 | the whole new server state after a kick |
| SignalingServer.SignalingState.IdleCleanup | node/src/web_server.rs:1490-1507 | exactly the empty and the stale rooms go, with their timestamps |
| SignalingServer.SignalingState.HandleSignalingMessage | node/src/web_server.rs:2441-2719 | every client message; an offer, answer or candidate reaches the log of its target alone, under the sender's id and as given, and changes nothing else |
| SignalLogs.RelaysSay | node/src/web_server.rs:2588-2663 | on the logs: a registered target gets exactly one message with the sender's id and the given fields, nobody else gets any and no room changes; an offer is dropped exactly when its sender is blocked, or it names no target or one that is not registered |
| SignalLogs.RefusalSays | node/src/web_server.rs:2448-2517 | a refused join tells the peer the first reason that applies and changes nothing else |
| SignalLogs.JoinSays | node/src/web_server.rs:2519-2580 | an accepted join: the room, its timestamp, the list the peer gets and the one message each other member gets |
| SignalLogs.UpdateSays | node/src/web_server.rs:2665-2712 | an update: the peer's own entry, and one message to each other member of its room |
| SignalLogs.LeaveSays | node/src/web_server.rs:2722-2760 | a leave: the log closed, the room without the peer or gone, and one message to each who stays |
| SignalLogs.KickSays | node/src/web_server.rs:2766-2810 | a kick, in any order of the rooms: everybody else gets one message for each room shared with the peer |
| SignalLogs.JoinSparesRoom | node/src/web_server.rs:1490-1507 | after an accepted join and any steps but joins of that room, a sweep takes the room exactly when more than the interval has passed since the join, in whole seconds |
| ViewAgreement.StepKeeps | node/src/web_server.rs:2441-2810 | every step keeps the agreement between rooms and notifications |
| ViewAgreement.ViewsAgree | node/src/web_server.rs:2486-2801 | over all runs, a member's folded notifications are exactly the other members of its room with their flags |
| ViewAgreement.SecondRoomIff | node/src/web_server.rs:2519-2539 | joining a second room without leaving keeps the agreement exactly when the peer has no sender or nobody else is in either room |
| ViewAgreement.StepIsSection | node/src/web_server.rs:2486-2810 | each handler changes the rooms as at most one locked section does |
| Admission.RateLimiterState.CheckRateLimit | node/src/web_server.rs:247-264 | the bucket and the answer after a request |
| Admission.RateLimiterState.CleanupExpired | node/src/web_server.rs:272-276 | exactly the expired buckets go |
| Admission.CleanupUnseenIff | node/src/web_server.rs:272-276 | inserting evictions anywhere changes no answer of any run exactly when a window admits at least one request or has no length |
| Admission.CleanupSeen | node/src/web_server.rs:253-276 | the failing run of a limiter with a limit of zero |
| Admission.ServerCleanupUnseen | node/src/web_server.rs:280-296 | in the server, which does not ask the limiter when the limit is zero, cleanup always goes unnoticed |
| Admission.BucketWindows | node/src/web_server.rs:247-264 | over every run a bucket is its address's last window, or that window has expired |
| Admission.RefusedIff | node/src/web_server.rs:247-264 | over every run a request is refused exactly when its address's last window is full and still open |
| Admission.AdmissionBound | node/src/web_server.rs:247-264 | a bucket window admits at most max, any interval of one window length at most 2 * max - 1 |
| Admission.ConnectionSlots.TryAcquire | node/src/web_server.rs:197-210 | a guard exactly when unlimited or below the maximum, the counter changed only with it |
| Admission.SlotsStayOk | node/src/web_server.rs:187-210 | under every interleaving at most max guards live, the counter is guards plus pending rejections, exact at quiescence and never below zero |
| Admission.RejectedIff | node/src/web_server.rs:197-210 | after any run an attempt is turned away exactly when guards and rejections not undone yet fill the slots |
| Admission.RefusedOnlyAfterFull | node/src/web_server.rs:197-210 | under every interleaving that starts without pending rejections, whoever is turned away comes after a moment at which all slots were held at once |
| Admission.SpuriousRejection | node/src/web_server.rs:204-208 | a run in which an attempt is refused although no guard is live |

## Left out

- Where a cursor stands after a failed read is not specified; it is a parameter (`stuck`) of the moov walks, which can be anything not further back. Failed reads do not happen in well-formed moovs.
- WholeFile.FileMeaningPreserved: assumes that the described tables resolve, that groups and the new moov fit 32-bit sizes, and that no group hits a straddling sample.
- Track durations, and the analysis of the AudioSpecificConfig, which is only logged.
- Box types are decoded where they are stored (both parsers); loops that only compare a type with an ASCII name compare the bytes, which `AsciiTest` justifies. Parsed box contents other than raw bytes are not modelled.
- Boxes.TiledIffScanned: is about loops that stop at a size below 8; the walks of `TfhdPatch` and `TfdtInsertion` over other sizes are modelled there.
- Memory exhaustion on huge announced sizes or counts.
- Pass-through of files that are already fragmented (`extract_fragmented_segments` and its moof + mdat pairing), `create_minimal_moof`, `is_likely_keyframe`, `create_init_segment` and `add_mvex_to_moov`.
- The 8-byte base-data-offset field, which the tfhd patch leaves in place when it clears its flag; readers of such a tfhd are not modelled.
- TfdtInsertion.EnsureMoofPrinted: does not speak about `trun.data_offset`, which the code leaves alone; `LocationsKeptIff` says when that is right.
- Replay.LateJoiner: assumes a single replay, as does `JoinerIsSent`; a new viewer causes two, which is the subject of `AskingJoiner`. It is about a publisher; what relays replay is `RelayReplaysBareBytes`.
- Flood.RunConserves: is about live forwarding only; a replayed init segment carries no ttl.
- Dedup.SentAtMostOnceEach: assumes fewer than 500 newer numbers per relay after the one it speaks of (`RelayedAgainOnlyLate` is why), and claims no delivery within the ttl radius, because dedup may drop the copy with the higher ttl.
- ChunkNet.ChunksRefineCopies: is about live segments on channels that stay open; requests for the cache and reconnections are in `LateJoin` and `Reconnect`.
- ViewAgreement.ViewsAgree: runs one handler at a time, gives every sender an unbounded queue, and lets a connection leave a room before it joins a different one; full channels (dropped messages) are not modelled.
- Rooms.InterleavingsKeepIff: covers the room table alone; notifications of concurrent handlers may interleave in ways it does not describe.
- Peer ids of browsers and of signaling connections are numbers, fresh for every connection; timestamps are parameters; player callbacks and sent messages are logs.
- A `dc.send` that throws, buffer thresholds, and WebRTC and WebSocket session setup.
- JSON encoding of control messages and signaling messages; text that does not parse is the request `MalformedRequest`.
- Moderation lists (whether a peer is allowed is a parameter), statistics, logging, and every other endpoint of the web server.
- Libp2p swarms, discovery, codecs, hashing, WASM glue, and the archived hybrid overlay.
