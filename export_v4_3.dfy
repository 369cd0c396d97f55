/**
 * The v4.3 exporter's `main`: gather every track into a nested
 * `name -> {frame -> (coords, is_keyed)}` table first, then
 *
 *   PFTrack, 3DEqualizer: write the vendor layout of that table, skipping
 *                tracks without frames (3DEqualizer's count still counts them);
 *   generic spaces: one line per (name, frame) in sorted name and frame
 *                order, neighbouring duplicates collapsed on request.
 */
module Export43 {
  import opened Wrappers
  import opened Text
  import opened Host
  import opened Coordinate
  import opened Records
  import opened Gather
  import opened Sorting
  import Layout
  import NeighborDedup

  /** `{"coords": coords, "is_keyed": marker.is_keyed}`: mapped coordinates, not yet printed. */
  datatype Sample = Sample(x: real, y: real, isKeyed: bool)

  /** `all_tracks_data[track.name]`: frame after the offset to sample. */
  type TrackData = map<int, Sample>

  /** `all_tracks_data`. */
  type AllTracks = map<string, TrackData>

  // ------------------------------------------------------------ gathering

  /** The sample a marker yields. */
  function SampleOf(mk: Marker, clip: Clip, o: Options): Sample {
    var p := GetCoordinate(mk.u, mk.v, o.space, clip.width, clip.height);
    Sample(p.0, p.1, mk.isKeyed)
  }

  /** The table of one track filled from the frames below n. */
  function TrackTable(t: Track, n: int, clip: Clip, o: Options): TrackData
    decreases n
  {
    if n <= 0 then map[]
    else
      var f := n - 1;
      var rest := TrackTable(t, f, clip, o);
      if f in t.markers && f + o.offset >= 0 then rest[f + o.offset := SampleOf(t.markers[f], clip, o)]
      else rest
  }

  /**
   * A track's table has a key exactly for each exported marker, moved by the
   * offset, and holds that marker's sample.
   */
  lemma {:induction false} TrackTableExactly(t: Track, n: int, clip: Clip, o: Options, key: int)
    ensures key in TrackTable(t, n, clip, o) <==> Exported(t, key - o.offset, n, o)
    ensures key in TrackTable(t, n, clip, o) ==>
              TrackTable(t, n, clip, o)[key] == SampleOf(t.markers[key - o.offset], clip, o)
    decreases n
  {
    if n > 0 {
      TrackTableExactly(t, n - 1, clip, o, key);
    }
  }

  /** The whole table after the tracks: each track starts its name afresh. */
  function AllTracksOf(tracks: seq<Track>, clip: Clip, o: Options): AllTracks {
    if tracks == [] then map[]
    else
      var t := tracks[|tracks| - 1];
      AllTracksOf(tracks[..|tracks| - 1], clip, o)[t.name := TrackTable(t, o.frameEnd + 1, clip, o)]
  }

  /** The table has an entry for each track name, and no other. */
  lemma {:induction false} AllTracksNames(tracks: seq<Track>, clip: Clip, o: Options, name: string)
    ensures name in AllTracksOf(tracks, clip, o) <==> exists ti :: 0 <= ti < |tracks| && tracks[ti].name == name
  {
    if tracks != [] {
      var init := tracks[..|tracks| - 1];
      AllTracksNames(init, clip, o, name);
      if exists ti :: 0 <= ti < |init| && init[ti].name == name {
        var ti :| 0 <= ti < |init| && init[ti].name == name;
        assert tracks[ti].name == name;
      }
      if name != tracks[|tracks| - 1].name && exists ti :: 0 <= ti < |tracks| && tracks[ti].name == name {
        var ti :| 0 <= ti < |tracks| && tracks[ti].name == name;
        assert init[ti].name == name;
      }
    }
  }

  /**
   * A name several tracks share holds the table of the last of them: the
   * earlier tracks' frames are discarded, not merged.
   */
  lemma {:induction false} LastTrackWins(tracks: seq<Track>, clip: Clip, o: Options, ti: int)
    requires 0 <= ti < |tracks|
    requires forall tj :: ti < tj < |tracks| ==> tracks[tj].name != tracks[ti].name
    ensures tracks[ti].name in AllTracksOf(tracks, clip, o)
    ensures AllTracksOf(tracks, clip, o)[tracks[ti].name] == TrackTable(tracks[ti], o.frameEnd + 1, clip, o)
  {
    var init := tracks[..|tracks| - 1];
    if ti < |tracks| - 1 {
      assert init[ti] == tracks[ti];
      LastTrackWins(init, clip, o, ti);
    }
  }

  /** The nested gathering loops filling `all_tracks_data`. */
  method GatherTable(clip: Clip, o: Options) returns (all: AllTracks)
    ensures all == AllTracksOf(clip.tracks, clip, o)
  {
    all := map[];
    for ti := 0 to |clip.tracks|
      invariant all == AllTracksOf(clip.tracks[..ti], clip, o)
    {
      var track := clip.tracks[ti];
      ghost var before := all;
      all := all[track.name := map[]];
      var frameno := 0;
      while frameno <= o.frameEnd
        invariant 0 <= frameno <= (if o.frameEnd < 0 then 0 else o.frameEnd + 1)
        invariant all == before[track.name := TrackTable(track, frameno, clip, o)]
      {
        var marker := FindFrame(track, frameno);
        if marker.Some? {
          var coords := GetCoordinate(marker.value.u, marker.value.v, o.space, clip.width, clip.height);
          var currentframe := frameno + o.offset;
          if currentframe >= 0 {
            all := all[track.name := all[track.name][currentframe := Sample(coords.0, coords.1, marker.value.isKeyed)]];
          }
        }
        frameno := frameno + 1;
      }
      assert clip.tracks[..ti + 1][..ti] == clip.tracks[..ti];
    }
    assert clip.tracks[..|clip.tracks|] == clip.tracks;
  }

  // ------------------------------------------------------------ vendor layouts

  /** A track's frames with the coordinates printed by `str`, as the f-strings print them. */
  function Printed(td: TrackData, fmt: real -> string): Layout.FrameTable {
    map f | f in td :: (fmt(td[f].x), fmt(td[f].y))
  }

  function PrintedAll(all: AllTracks, fmt: real -> string): Layout.Table {
    map n | n in all :: Printed(all[n], fmt)
  }

  /** The vendor layout of a structured space. */
  function VendorOf(space: Space): Layout.Vendor
    requires space.IsStructured()
  {
    if space == Equalizer3D then Layout.Equalizer else Layout.PFTrack
  }

  /** Printing keeps the table's names, and a track is empty after printing exactly when it was before. */
  lemma PrintedAllShape(all: AllTracks, fmt: real -> string)
    ensures PrintedAll(all, fmt).Keys == all.Keys && |PrintedAll(all, fmt)| == |all|
    ensures forall n :: n in all ==> (PrintedAll(all, fmt)[n] == map[] <==> all[n] == map[])
  {
    assert PrintedAll(all, fmt).Keys == all.Keys;
    forall n | n in all ensures PrintedAll(all, fmt)[n] == map[] <==> all[n] == map[] {
      assert PrintedAll(all, fmt)[n].Keys == all[n].Keys;
    }
  }

  lemma PrintedTokens(all: AllTracks, fmt: real -> string)
    requires PrintsTokens(fmt)
    requires forall n :: n in all ==> IsToken(n)
    ensures Layout.TokenTable(PrintedAll(all, fmt))
  {
  }

  // ------------------------------------------------------------ generic layout

  /** The record of one frame of a track. */
  function SampleRecord(name: string, f: int, s: Sample, fmt: real -> string): Record {
    Record(name, f, fmt(s.x), fmt(s.y), Status(s.isKeyed))
  }

  /** The records of a track at the given frames, in that order. */
  function RecordsAt(name: string, fs: seq<int>, td: TrackData, fmt: real -> string): (rs: seq<Record>)
    requires forall k :: 0 <= k < |fs| ==> fs[k] in td
    ensures |rs| == |fs|
    ensures forall k :: 0 <= k < |fs| ==> rs[k] == SampleRecord(name, fs[k], td[fs[k]], fmt)
  {
    seq(|fs|, k requires 0 <= k < |fs| => SampleRecord(name, fs[k], td[fs[k]], fmt))
  }

  /** A track's records in ascending frame order. */
  function TrackRecords43(name: string, td: TrackData, fmt: real -> string): seq<Record> {
    RecordsAt(name, Layout.SortedFrames(td), td, fmt)
  }

  /** The records of the named tracks, track after track. */
  function RecordsOf(ns: seq<string>, all: AllTracks, fmt: real -> string): seq<Record>
    requires forall k :: 0 <= k < |ns| ==> ns[k] in all
  {
    if ns == [] then []
    else
      var n := ns[|ns| - 1];
      RecordsOf(ns[..|ns| - 1], all, fmt) + TrackRecords43(n, all[n], fmt)
  }

  /** The generic records: sorted names, then sorted frames. */
  function GenericRecords(all: AllTracks, fmt: real -> string): seq<Record> {
    RecordsOf(Layout.SortedNames(all), all, fmt)
  }

  /** The frame loop of one track, over its sorted frames. */
  method WriteGenericFrames(name: string, frames: seq<int>, td: TrackData, fmt: real -> string)
    returns (lines: seq<string>)
    requires forall k :: 0 <= k < |frames| ==> frames[k] in td
    ensures lines == FormatAll(RecordsAt(name, frames, td, fmt))
  {
    lines := [];
    for k := 0 to |frames|
      invariant |lines| == k
      invariant forall j :: 0 <= j < k ==> lines[j] == FormatRecord(SampleRecord(name, frames[j], td[frames[j]], fmt))
    {
      var s := td[frames[k]];
      var status := if s.isKeyed then 15 else 7;
      lines := lines + [FormatRecord(Record(name, frames[k], fmt(s.x), fmt(s.y), status))];
    }
  }

  /** One track of the generic layout: sort its frames, then write them. */
  method WriteGenericTrack(name: string, td: TrackData, fmt: real -> string) returns (lines: seq<string>)
    ensures lines == FormatAll(TrackRecords43(name, td, fmt))
  {
    var frames := Layout.SortedFrames(td);
    lines := WriteGenericFrames(name, frames, td, fmt);
  }

  /** The track loop of the generic layout, over the given names. */
  method WriteGenericTracks(names: seq<string>, all: AllTracks, fmt: real -> string) returns (lines: seq<string>)
    requires forall k :: 0 <= k < |names| ==> names[k] in all
    ensures lines == FormatAll(RecordsOf(names, all, fmt))
  {
    lines := [];
    for i := 0 to |names|
      invariant lines == FormatAll(RecordsOf(names[..i], all, fmt))
    {
      var more := WriteGenericTrack(names[i], all[names[i]], fmt);
      assert names[..i + 1][..i] == names[..i];
      FormatAllAppend(RecordsOf(names[..i], all, fmt), TrackRecords43(names[i], all[names[i]], fmt));
      lines := lines + more;
    }
    assert names[..|names|] == names;
  }

  /** `textList_intermediate`. */
  method WriteGeneric(all: AllTracks, fmt: real -> string) returns (lines: seq<string>)
    ensures lines == FormatAll(GenericRecords(all, fmt))
  {
    var names := Layout.SortedNames(all);
    lines := WriteGenericTracks(names, all, fmt);
  }

  /** Generic order: by track name, then by frame. */
  predicate Before(a: Record, b: Record) {
    LexLess(a.name, b.name) || (a.name == b.name && a.frame < b.frame)
  }

  /** Every record of a track is that of one of its frames. */
  lemma TrackRecordsFrom(name: string, td: TrackData, fmt: real -> string)
    ensures forall i :: 0 <= i < |TrackRecords43(name, td, fmt)| ==>
              var r := TrackRecords43(name, td, fmt)[i];
              r.frame in td && r == SampleRecord(name, r.frame, td[r.frame], fmt)
  {
  }

  /** A track's records ascend by frame. */
  lemma TrackRecordsAscending(name: string, td: TrackData, fmt: real -> string)
    ensures forall i, j :: 0 <= i < j < |TrackRecords43(name, td, fmt)| ==>
              TrackRecords43(name, td, fmt)[i].frame < TrackRecords43(name, td, fmt)[j].frame
  {
    SortedIntsSorted(td.Keys);
  }

  /** Every frame of a track has its record. */
  lemma TrackRecordsComplete43(name: string, td: TrackData, fmt: real -> string)
    ensures forall f :: f in td ==> SampleRecord(name, f, td[f], fmt) in TrackRecords43(name, td, fmt)
  {
    var fs := Layout.SortedFrames(td);
    SortedIntsSorted(td.Keys);
    var rs := TrackRecords43(name, td, fmt);
    forall f | f in td ensures SampleRecord(name, f, td[f], fmt) in rs {
      var k :| 0 <= k < |fs| && fs[k] == f;
      assert rs[k] == SampleRecord(name, f, td[f], fmt);
    }
  }

  /** Each record of the named tracks carries one of the names. */
  lemma {:induction false} RecordsOfNames(ns: seq<string>, all: AllTracks, fmt: real -> string)
    requires forall k :: 0 <= k < |ns| ==> ns[k] in all
    ensures forall i :: 0 <= i < |RecordsOf(ns, all, fmt)| ==> RecordsOf(ns, all, fmt)[i].name in ns
  {
    if ns != [] {
      var init, n := ns[..|ns| - 1], ns[|ns| - 1];
      RecordsOfNames(init, all, fmt);
      TrackRecordsFrom(n, all[n], fmt);
      var a, b := RecordsOf(init, all, fmt), TrackRecords43(n, all[n], fmt);
      var rs := RecordsOf(ns, all, fmt);
      assert rs == a + b;
      forall i | 0 <= i < |rs| ensures rs[i].name in ns {
        if i < |a| {
          assert rs[i] == a[i];
          var k :| 0 <= k < |init| && init[k] == a[i].name;
          assert ns[k] == init[k];
        } else {
          assert rs[i] == b[i - |a|];
        }
      }
    }
  }

  /** The records of names given in ascending order ascend by name, then frame. */
  lemma {:induction false} RecordsOfOrdered(ns: seq<string>, all: AllTracks, fmt: real -> string)
    requires forall k :: 0 <= k < |ns| ==> ns[k] in all
    requires forall a, b :: 0 <= a < b < |ns| ==> LexLess(ns[a], ns[b])
    ensures forall i, j :: 0 <= i < j < |RecordsOf(ns, all, fmt)| ==>
              Before(RecordsOf(ns, all, fmt)[i], RecordsOf(ns, all, fmt)[j])
  {
    if ns != [] {
      var init, n := ns[..|ns| - 1], ns[|ns| - 1];
      RecordsOfOrdered(init, all, fmt);
      RecordsOfNames(init, all, fmt);
      TrackRecordsFrom(n, all[n], fmt);
      TrackRecordsAscending(n, all[n], fmt);
      var a, b := RecordsOf(init, all, fmt), TrackRecords43(n, all[n], fmt);
      var rs := RecordsOf(ns, all, fmt);
      assert rs == a + b;
      forall i, j | 0 <= i < j < |rs| ensures Before(rs[i], rs[j]) {
        if j < |a| {
          assert rs[i] == a[i] && rs[j] == a[j];
        } else if |a| <= i {
          assert rs[i] == b[i - |a|] && rs[j] == b[j - |a|];
        } else {
          assert rs[i] == a[i] && rs[j] == b[j - |a|];
          var k :| 0 <= k < |init| && init[k] == a[i].name;
          assert LexLess(ns[k], ns[|ns| - 1]);
        }
      }
    }
  }

  /** Each record of the named tracks is that of a frame of its track. */
  lemma {:induction false} RecordsOfSound(ns: seq<string>, all: AllTracks, fmt: real -> string)
    requires forall k :: 0 <= k < |ns| ==> ns[k] in all
    ensures forall i :: 0 <= i < |RecordsOf(ns, all, fmt)| ==>
              var r := RecordsOf(ns, all, fmt)[i];
              r.name in all && r.frame in all[r.name] && r == SampleRecord(r.name, r.frame, all[r.name][r.frame], fmt)
  {
    if ns != [] {
      var init, n := ns[..|ns| - 1], ns[|ns| - 1];
      RecordsOfSound(init, all, fmt);
      TrackRecordsFrom(n, all[n], fmt);
      var a, b := RecordsOf(init, all, fmt), TrackRecords43(n, all[n], fmt);
      var rs := RecordsOf(ns, all, fmt);
      assert rs == a + b;
      forall i | 0 <= i < |rs|
        ensures rs[i].name in all && rs[i].frame in all[rs[i].name]
                && rs[i] == SampleRecord(rs[i].name, rs[i].frame, all[rs[i].name][rs[i].frame], fmt)
      {
        if i < |a| {
          assert rs[i] == a[i];
        } else {
          assert rs[i] == b[i - |a|];
        }
      }
    }
  }

  /** Every frame of a named track has its record. */
  lemma {:induction false} RecordsOfComplete(ns: seq<string>, all: AllTracks, fmt: real -> string)
    requires forall k :: 0 <= k < |ns| ==> ns[k] in all
    ensures forall k, f :: 0 <= k < |ns| && f in all[ns[k]] ==>
              SampleRecord(ns[k], f, all[ns[k]][f], fmt) in RecordsOf(ns, all, fmt)
  {
    if ns != [] {
      var init, n := ns[..|ns| - 1], ns[|ns| - 1];
      RecordsOfComplete(init, all, fmt);
      TrackRecordsComplete43(n, all[n], fmt);
      var rs := RecordsOf(ns, all, fmt);
      forall k, f | 0 <= k < |ns| && f in all[ns[k]] ensures SampleRecord(ns[k], f, all[ns[k]][f], fmt) in rs {
        if k < |init| {
          assert init[k] == ns[k];
        }
      }
    }
  }

  /**
   * The generic records ascend by track name and then frame, each comes
   * from a frame of the table, and every frame of the table has its record.
   */
  lemma GenericRecordsOrderedAndComplete(all: AllTracks, fmt: real -> string)
    ensures forall i, j :: 0 <= i < j < |GenericRecords(all, fmt)| ==>
              Before(GenericRecords(all, fmt)[i], GenericRecords(all, fmt)[j])
    ensures forall i :: 0 <= i < |GenericRecords(all, fmt)| ==>
              var r := GenericRecords(all, fmt)[i];
              r.name in all && r.frame in all[r.name] && r == SampleRecord(r.name, r.frame, all[r.name][r.frame], fmt)
    ensures forall n, f :: n in all && f in all[n] ==> SampleRecord(n, f, all[n][f], fmt) in GenericRecords(all, fmt)
  {
    var ns := Layout.SortedNames(all);
    SortedStringsSorted(all.Keys);
    RecordsOfOrdered(ns, all, fmt);
    RecordsOfSound(ns, all, fmt);
    RecordsOfComplete(ns, all, fmt);
    forall n, f | n in all && f in all[n] ensures SampleRecord(n, f, all[n][f], fmt) in GenericRecords(all, fmt) {
      var k :| 0 <= k < |ns| && ns[k] == n;
    }
  }

  // ------------------------------------------------------------ main

  /** The lines `main` writes for a clip. */
  function Export43(clip: Clip, o: Options, deleteDuplicate: bool): seq<string> {
    var all := AllTracksOf(clip.tracks, clip, o);
    if o.space.IsStructured() then Layout.TableText(VendorOf(o.space), PrintedAll(all, o.fmt), true)
    else
      var lines := FormatAll(GenericRecords(all, o.fmt));
      if deleteDuplicate then NeighborDedup.Dedup43(lines) else lines
  }

  /**
   * `main(filepath, space, frameOffset, deleteDuplicate, context)`: `active`
   * is what `getActiveClip(context)` returns and `canOpen` whether
   * `open(filepath, 'w')` succeeds. Without a clip it cancels before opening
   * the file; when the file cannot be opened it cancels before writing.
   */
  method Main43(active: Option<Clip>, canOpen: bool, o: Options, deleteDuplicate: bool)
    returns (outcome: Outcome, file: File)
    ensures active.None? ==> outcome == Cancelled && file == Untouched
    ensures active.Some? && !canOpen ==> outcome == Cancelled && file == Untouched
    ensures active.Some? && canOpen ==>
              outcome == Finished && file == Written(Export43(active.value, o, deleteDuplicate))
  {
    if active.None? {
      return Cancelled, Untouched;
    }
    var clip := active.value;
    if !canOpen {
      return Cancelled, Untouched;
    }
    var all := GatherTable(clip, o);
    var textList: seq<string>;
    if o.space.IsStructured() {
      textList := Layout.WriteTable(VendorOf(o.space), PrintedAll(all, o.fmt), true);
    } else {
      var intermediate := WriteGeneric(all, o.fmt);
      if deleteDuplicate {
        textList := NeighborDedup.DeleteDuplicateData(intermediate);
      } else {
        textList := intermediate;
      }
    }
    return Finished, Written(textList);
  }

  /** The tracks with at least one frame, printed: the trackers a structured file holds. */
  function NonEmptyTracks(all: AllTracks, fmt: real -> string): Layout.Table {
    map n | n in all && all[n] != map[] :: Printed(all[n], fmt)
  }

  /**
   * Reading a structured file back gives the gathered table without its
   * empty tracks; a 3DEqualizer file's count is that of all tracks, empty
   * ones included.
   */
  lemma StructuredRoundTrip(clip: Clip, o: Options, deleteDuplicate: bool)
    requires o.space.IsStructured() && TokenClip(clip, o)
    ensures var all := AllTracksOf(clip.tracks, clip, o);
            Layout.ReadTable(VendorOf(o.space), Export43(clip, o, deleteDuplicate))
            == Some((if o.space == Equalizer3D then Some(|all|) else None, NonEmptyTracks(all, o.fmt)))
  {
    var all := AllTracksOf(clip.tracks, clip, o);
    forall n | n in all ensures IsToken(n) {
      AllTracksNames(clip.tracks, clip, o, n);
    }
    PrintedTokens(all, o.fmt);
    PrintedAllShape(all, o.fmt);
    Layout.TableRoundTrip(VendorOf(o.space), PrintedAll(all, o.fmt), true);
    WrittenNonEmpty(all, o.fmt);
  }

  /** Skipping empty trackers of the printed table leaves the printed non-empty tracks. */
  lemma WrittenNonEmpty(all: AllTracks, fmt: real -> string)
    ensures Layout.Written(PrintedAll(all, fmt), true) == NonEmptyTracks(all, fmt)
  {
    PrintedAllShape(all, fmt);
  }
}
