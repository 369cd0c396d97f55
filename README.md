# 2D tracking export for Blender, modelled in Dafny

This project models the core of a Blender add-on that exports 2D motion
tracking data from the Movie Clip Editor. Two generations of the add-on are
covered, v3.6 and v4.3. The operator reads the active clip's tracks, maps
every marker position into one of five coordinate conventions (`uv`,
`screen`, `syntheys`, `3dequalizer`, `pftrack`) and writes a text file:

- For `3dequalizer` and `pftrack` it writes a per-tracker table in that
  vendor's layout.
- For the other spaces it writes one `name frame x y status` line per
  marker.
- On request it first collapses each run of records with equal coordinates
  to one record. v3.6 does this in every space and keeps one record per run.
  v4.3 does it only for the generic `name frame x y status` output, and keeps
  the first record of each run of equal neighbours.

The v3.6 add-on also has clip-editor helpers: an A/B frame toggle, and jumps
to the active track's next or previous keyframe.

The files:

- `host.dfy`: what is read from Blender (clip, tracks, markers by frame) and
  what an operator returns.
- `text.dfy`: Python's `str.split()`, `" ".join`, `str(int)`, `int()` and
  string order.
- `sorting.dfy`: `sorted()` on sets of frames and names.
- `selection.dfy`: keeping the flagged elements of a list.
- `coordinate.dfy`: `getCoordinate`, exact over `real`.
- `records.dfy`: the generic record line and the line helpers
  (`isRecordEquals`, `isRecordStatusEquals`, `getStatus`, `getFrame`).
- `gather.dfy`: the records gathered from a clip.
- `dedup_v3_6.dfy`: the in-place, run-based duplicate remover of v3.6.
- `dedup_v4_3.dfy`: the neighbour-collapsing duplicate remover of v4.3.
- `layout.dfy`: the 3DEqualizer and PFTrack writers, plus a reader that is
  their inverse.
- `export_v3_6.dfy`: the v3.6 `main`.
- `export_v4_3.dfy`: the v4.3 `main`.
- `tracker_control.dfy`: the v3.6 toggle and keyframe jumps, on a `Scene`
  object whose fields they update.

Exceptions are modelled explicitly:

- An exception the source catches becomes the path its handler takes.
- An exception that escapes `main` becomes the outcome `Raised`.
- An error the equality helper raises becomes `None`.

Apart from what "## Left out" lists, the model follows Python's behaviour.
In particular, `str(float)` is a parameter `fmt`, and the properties assume
only that it prints each number as one token. The round-trip properties also
assume track names contain no whitespace, because the structured paths split
lines back into tokens.

## Model

| member | source | states |
|---|---|---|
| Coordinate.MapThenInvert | blender_io_export_2dtracking_v3_6.py:218-226 | For every space and every clip with positive size, mapping a marker position and mapping the result back gives the position again. |
| Coordinate.InvertThenMap | blender_io_export_2dtracking_v4_3.py:75-83 | Every point of each convention is the image of the normalised point obtained by mapping it back. Together with MapThenInvert, the mapper is one-to-one and onto. |
| Coordinate.UnitSquareImage | blender_io_export_2dtracking_v3_6.py:218-226 | `uv` is the identity. SynthEyes maps the unit square into [-1, 1]², sending (0, 0) to (-1, 1) and (1, 1) to (1, -1). Screen, 3DEqualizer and PFTrack map it into the pixel rectangle, and v = 0 goes to row H on screen and to row 0 otherwise. |
| Coordinate.ScreenFlipsPixelSpace | blender_io_export_2dtracking_v3_6.py:221-226 | Screen coordinates are 3DEqualizer pixel coordinates with y replaced by H − y, and 3DEqualizer and PFTrack coordinates coincide. |
| Records.SplitRecord | blender_io_export_2dtracking_v3_6.py:554 | A formatted record with token name and coordinates splits back into exactly its five fields. |
| Records.ReadFormatted | blender_io_export_2dtracking_v3_6.py:233-251 | On formatted records: `getFrame` recovers the frame and `getStatus` the status. `isRecordStatusEquals` compares the statuses. Both generations' `isRecordEquals` hold exactly when the x and y texts are equal. |
| Records.EqualsAgree | blender_io_export_2dtracking_v4_3.py:95-100 | On lines of at least four tokens, the v3.6 test does not raise and agrees with the v4.3 test. |
| Records.Equals43Symmetric | blender_io_export_2dtracking_v4_3.py:95-100 | The v4.3 equality test is symmetric. |
| Records.Equals43Transitive | blender_io_export_2dtracking_v4_3.py:95-100 | The v4.3 equality test is transitive. |
| Text.SplitJoin | blender_io_export_2dtracking_v3_6.py:411 | `(" ".join(ts) + tail).split()` is `ts + tail.split()` for whitespace-free tokens ts and a tail that is empty or starts with whitespace. |
| Text.IntToStringRoundTrip | blender_io_export_2dtracking_v3_6.py:428 | `int(str(i)) == i` for every integer i, and `str(i)` is one token. |
| Sorting.SortedIntsSorted | blender_io_export_2dtracking_v3_6.py:448-449 | The sorted frames ascend strictly and contain every frame of the set. |
| Sorting.SortedStringsSorted | blender_io_export_2dtracking_v3_6.py:438-439 | The sorted names ascend strictly in Python's string order and contain every name of the set. |
| Sorting.SortedIntsUnique | blender_io_export_2dtracking_v4_3.py:176 | Any strictly ascending listing of exactly the frames of a set is the sorted one. |
| Selection.SelectIsSubsequence | blender_io_export_2dtracking_v3_6.py:361 | The filtered list is an order-preserving subsequence: its i-th element is the input element at the i-th kept position. |
| Gather.TrackRecordsComplete | blender_io_export_2dtracking_v3_6.py:544-557 | Each marker at a frame 0..frame_end whose offset frame is not negative has its record among the track's records. |
| Gather.ClipRecordsExactly | blender_io_export_2dtracking_v3_6.py:544-557 | A record is gathered exactly when it comes from such a marker of some track, with offset frame and status 15 or 7. |
| Gather.ClipRecordsWellFormed | blender_io_export_2dtracking_v3_6.py:544-557 | With token track names and token float texts, every gathered record is a line of single tokens. |
| Export36.GatherTrack | blender_io_export_2dtracking_v3_6.py:545-557 | The frame loop appends the formatted records of the track's exported markers, in ascending frame order. |
| Export36.GatherLines | blender_io_export_2dtracking_v3_6.py:544-557 | The track loop appends each track's lines in the clip's track order, with no sorting. |
| RunDedup.DeleteDuplicateData | blender_io_export_2dtracking_v3_6.py:254-363 | The in-place scan over an array of slots, followed by the filter, returns `Dedup36` of its input. |
| RunDedup.FilterDeleted | blender_io_export_2dtracking_v3_6.py:361-363 | Filtering out the zeroed slots of a finished scan leaves the records the mask keeps. |
| RunDedup.FirstRun | blender_io_export_2dtracking_v3_6.py:268-284 | Case D zeroes the run at the head of the list except its last record, and returns that record's index. |
| RunDedup.MiddleRun | blender_io_export_2dtracking_v3_6.py:286-347 | At an undeleted middle slot, the run from that slot loses all but its last record when case C holds, and all but its first otherwise. "Otherwise" covers case B, an unparsable frame, and a run reaching the end. |
| RunDedup.DeleteUpward | blender_io_export_2dtracking_v3_6.py:315-319 | Case C's loop zeroes exactly the slots from `current_i` up to, not including, `j`. |
| RunDedup.DeleteDownward | blender_io_export_2dtracking_v3_6.py:341-346 | The handler's loop zeroes exactly the slots `current_i + 1 .. current_i + duplication_number`. |
| RunDedup.RunKeepsOneRecord | blender_io_export_2dtracking_v3_6.py:254-363 | Each maximal run of records with equal coordinates keeps exactly one record. It keeps the last for a run at the head, the first for a run reaching the end, and in the middle the last under case C and the first otherwise. |
| RunDedup.LoneRecordKept | blender_io_export_2dtracking_v3_6.py:254-363 | A record equal to neither neighbour is never removed. |
| RunDedup.ShortListUnchanged | blender_io_export_2dtracking_v3_6.py:264-266 | A list of zero or one record comes back unchanged. |
| RunDedup.NoAdjacentDuplicates | blender_io_export_2dtracking_v3_6.py:254-363 | For lines of at least four tokens, no two neighbours of the output have equal coordinates. |
| RunDedup.NeighboursInNeighbourRuns | blender_io_export_2dtracking_v3_6.py:254-363 | Two neighbours of the output come from consecutive maximal runs of the input. |
| RunDedup.Idempotent | blender_io_export_2dtracking_v3_6.py:254-363 | For lines of at least four tokens, a second pass removes nothing. |
| NeighborDedup.DeleteDuplicateData | blender_io_export_2dtracking_v4_3.py:108-121 | The append loop returns `Dedup43` of its input: the records flagged by `KeepMask`, in order. |
| NeighborDedup.FirstKept | blender_io_export_2dtracking_v4_3.py:110-116 | Empty input gives empty output, and otherwise the first record is kept, in front. |
| NeighborDedup.NoAdjacentDuplicates | blender_io_export_2dtracking_v4_3.py:108-121 | No two neighbours of the output compare equal, for any input. |
| NeighborDedup.Idempotent | blender_io_export_2dtracking_v4_3.py:108-121 | A second pass removes nothing. |
| NeighborDedup.OnlyDuplicatesDropped | blender_io_export_2dtracking_v4_3.py:108-121 | Only duplicates are lost. Every input record is either in the output or `isRecordEquals` to an output record taken from at or before its own position. |
| Export36.BuildTrackersDict | blender_io_export_2dtracking_v3_6.py:410-429 | The dictionary loop raises exactly when the pure dictionary `TrackersDict` of the lines is undefined. Otherwise it returns that dictionary. |
| Export36.TrackersDictRaises | blender_io_export_2dtracking_v3_6.py:410-429 | Once a line raises (fewer than four tokens, or a frame that is not an integer), the whole build raises. |
| Export36.TableOfNames | blender_io_export_2dtracking_v3_6.py:414-415 | The dictionary has a tracker for each record name and no other. |
| Export36.TableOfFrames | blender_io_export_2dtracking_v3_6.py:429 | A tracker's table holds exactly the frames of that tracker's records. |
| Export36.TableOfLastWrite | blender_io_export_2dtracking_v3_6.py:429 | At each frame the dictionary holds the coordinates of the last record written there: a later write overwrites. |
| Export36.TrackersDictOfRecords | blender_io_export_2dtracking_v3_6.py:410-429 | Splitting well-formed formatted records back gives the records' own dictionary. |
| Export36.SelectFormatAll | blender_io_export_2dtracking_v3_6.py:406-407 | Removing lines commutes with formatting: the lines kept are those of the records kept. |
| Export36.Main36 | blender_io_export_2dtracking_v3_6.py:365-571 | If the file cannot be opened, `main` raises and leaves the file untouched. Without a clip, or when the dictionary build raises, it raises after truncating the file. Otherwise it finishes with `Export36`'s lines: dedup before the dictionary for structured spaces, and dedup of the gathered lines only for generic spaces. |
| Export36.StructuredExport | blender_io_export_2dtracking_v3_6.py:380-541 | For a structured space and a clip of token names, `main` does not raise. It writes the vendor layout of the dictionary of the records that survive dedup. |
| Export36.StructuredRoundTrip | blender_io_export_2dtracking_v3_6.py:380-541 | Reading a structured v3.6 file back gives that dictionary, with the tracker count in front for 3DEqualizer. |
| Export36.DictionaryRoundTrip | blender_io_export_2dtracking_v3_6.py:434-541 | The vendor layout of the dictionary of well-formed records reads back as that dictionary. |
| Layout.WriteTable | blender_io_export_2dtracking_v3_6.py:519-541 | The writer emits `TableText`: the header, then the trackers in sorted name order. |
| Layout.WriteTrackers | blender_io_export_2dtracking_v4_3.py:189-200 | The tracker loop emits each named tracker's block in turn, leaving out skipped trackers. |
| Layout.WriteBlock | blender_io_export_2dtracking_v3_6.py:526-541 | A tracker block is the name line, the clip line, the frame count, then the frame lines in ascending frame order. |
| Layout.WriteFrames | blender_io_export_2dtracking_v3_6.py:534-541 | The frame loop emits one frame line per given frame, in order. |
| Layout.EntriesRoundTrip | blender_io_export_2dtracking_v3_6.py:531-538 | The entries listed for a tracker describe exactly its frame table. |
| Layout.EntriesAscending | blender_io_export_2dtracking_v3_6.py:531-532 | A tracker's frames are written in strictly ascending order. |
| Layout.FramesRoundTrip | blender_io_export_2dtracking_v3_6.py:453-459 | Reading the frame lines back gives the frames they were written from. |
| Layout.BlockRoundTrip | blender_io_export_2dtracking_v3_6.py:441-459 | Reading a block followed by more lines gives the block's tracker, then the rest. |
| Layout.PiecesRoundTrip | blender_io_export_2dtracking_v4_3.py:189-200 | Reading the trackers' pieces back gives the named trackers the writer does not skip. |
| Layout.WrittenSorted | blender_io_export_2dtracking_v4_3.py:184-191 | Walking the sorted names writes every tracker of the table that is not skipped. |
| Layout.TableRoundTrip | blender_io_export_2dtracking_v4_3.py:167-200 | Reading a written file back gives the trackers written and, for 3DEqualizer, the header's count of all trackers. |
| Layout.HeaderCountsSkippedTrackers | blender_io_export_2dtracking_v4_3.py:187-191 | The 3DEqualizer header counts skipped trackers too: one empty track yields the file `1` and no block. |
| Export43.TrackTableExactly | blender_io_export_2dtracking_v4_3.py:154-164 | A track's table has a key for exactly each marker at a frame 0..frame_end whose offset frame is not negative, holding that marker's mapped coordinates and keyed flag. |
| Export43.AllTracksNames | blender_io_export_2dtracking_v4_3.py:152-153 | The gathered table has an entry for each track name and no other. |
| Export43.LastTrackWins | blender_io_export_2dtracking_v4_3.py:152-164 | A name several tracks share holds the table of the last of them. The earlier tracks' frames are discarded, not merged. |
| Export43.GatherTable | blender_io_export_2dtracking_v4_3.py:151-164 | The nested loops build `AllTracksOf` the clip's tracks. |
| Export43.PrintedAllShape | blender_io_export_2dtracking_v4_3.py:170-171 | Printing the coordinates keeps the track names, and a track is empty after printing exactly when it was empty before. |
| Export43.WriteGenericFrames | blender_io_export_2dtracking_v4_3.py:209-214 | The frame loop appends one `name frame x y status` line per given frame, in order. |
| Export43.WriteGenericTrack | blender_io_export_2dtracking_v4_3.py:207-214 | One track's lines are its records in ascending frame order. |
| Export43.WriteGenericTracks | blender_io_export_2dtracking_v4_3.py:206-214 | The track loop appends each named track's lines in turn. |
| Export43.WriteGeneric | blender_io_export_2dtracking_v4_3.py:204-214 | `textList_intermediate` is the formatted `GenericRecords` of the table. |
| Export43.GenericRecordsOrderedAndComplete | blender_io_export_2dtracking_v4_3.py:202-214 | The generic records ascend by track name, then by frame. Each comes from a frame of the table, with status 15 or 7, and every frame of the table has its record. |
| Export43.Main43 | blender_io_export_2dtracking_v4_3.py:124-227 | Without a clip, `main` cancels before opening the file. If the file cannot be opened, it cancels before writing. Otherwise it finishes with `Export43`'s lines. |
| Export43.StructuredRoundTrip | blender_io_export_2dtracking_v4_3.py:167-200 | Reading a structured v4.3 file back gives the gathered table without its empty tracks. For 3DEqualizer the count is that of all tracks, empty ones included. |
| TrackerControl.Scene.ToggleFrame | blender_io_export_2dtracking_v3_6.py:148-165 | The toggle updates the scene to `Toggled` of its previous state, leaving the frame range alone. |
| TrackerControl.Scene.ToggleReset | blender_io_export_2dtracking_v3_6.py:167-172 | The reset sets `state`, `frame_a` and `frame_b` to 0 and leaves the current frame. |
| TrackerControl.ArmThenAlternate | blender_io_export_2dtracking_v3_6.py:148-172 | After a reset, toggling at a and then at b (a ≠ b) arms the toggle on (a, b). From then on each toggle alternates between a and b. |
| TrackerControl.ToggleFromElsewhere | blender_io_export_2dtracking_v3_6.py:157-163 | Once armed, a toggle from a frame other than A lands on A, and the next one on B. |
| TrackerControl.ToggleMonotone | blender_io_export_2dtracking_v3_6.py:148-163 | The state only moves forward through 0, 1, 2 and stays at 2. |
| TrackerControl.NextKeyedIsLeast | blender_io_export_2dtracking_v3_6.py:182-192 | The upward scan finds the smallest keyframe of the range, and finds none only when there is none. |
| TrackerControl.PreviousKeyedIsGreatest | blender_io_export_2dtracking_v3_6.py:204-214 | The downward scan finds the largest keyframe of the range, and finds none only when there is none. |
| TrackerControl.Scene.NextKeyframe | blender_io_export_2dtracking_v3_6.py:174-194 | The current frame becomes the first keyframe scanned upward from the next frame to the scene end. A frame without a marker steps on. If there is no keyframe, the frame stays. |
| TrackerControl.Scene.PreviousKeyframe | blender_io_export_2dtracking_v3_6.py:196-216 | The current frame becomes the first keyframe scanned downward from the previous frame to the scene start. If there is none, the frame stays. |
| TrackerControl.NextKeyframeLands | blender_io_export_2dtracking_v3_6.py:182-192 | A jump lands on the smallest keyed frame f with current < f ≤ end. If there is none, it stays put. |
| TrackerControl.PreviousKeyframeLands | blender_io_export_2dtracking_v3_6.py:204-214 | A jump lands on the largest keyed frame f with start ≤ f < current. If there is none, it stays put. |

## Left out

- Add-on registration, menus, keymaps, `bl_info`, and the operator and panel classes are not modelled. This includes `MyPanel.draw`, which resets the toggle state whenever the panel is redrawn: that is user-interface behaviour.
- `getActiveClip` scans Blender's screen areas. The active clip is an `Option<Clip>` parameter of `main` instead.
- File I/O, `popup_menu`, `print` and `time.time` are not modelled.
  - The output file is the sequence of lines written, or `Untouched` when it was never opened.
  - Whether `open` succeeds is a boolean parameter.
- Floating-point arithmetic and `str(float)` are not modelled.
  - Coordinates are exact reals.
  - Their printed text comes from a parameter `fmt`, which is assumed only to print each number as one whitespace-free token.
- `int()` is modelled on optionally signed ASCII decimal numerals. Python also accepts surrounding whitespace, underscores and non-ASCII digits; the lines parsed here are the exporter's own, which contain none of these.
- Track names containing whitespace are outside the round-trip properties. Their records split into extra tokens, and the v3.6 structured paths then read shifted fields.
- The v3.6 `all_clip` switch is fixed to `False`, so its loop over all clips and the per-clip `open` are not modelled. Only the active clip is ever exported.
- The v3.6 `duplication_index_list` is never used to delete anything, so it is not modelled. The misspelled `cuplication_index_list` of case B is modelled only through the `NameError` it raises.
- RunDedup.DeleteDuplicateData works on a copy of the caller's list in a local array. The source mutates the caller's list in place, but every caller rebinds the result, so the mutation is not observable.
- Export43.Main43 prints the coordinates of the gathered table before writing. The f-strings print them while writing; both give the same lines.
- Export36.Main36 and Export43.Main43 build the file as one sequence of lines. The interleaving of writes with a failure is not modelled: v4.3 writes as it goes, but nothing in the modelled path fails after the first write.
- TrackerControl.Scene.NextKeyframe and TrackerControl.Scene.PreviousKeyframe take the active track as a `Track`.
  - An absent active track behaves like a track without markers: every lookup raises inside the `try`, so the frame is unchanged.
  - A clip editor without a clip raises before the loop. That case is not modelled.
