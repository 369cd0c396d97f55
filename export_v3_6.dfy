/**
 * The v3.6 exporter's `main`: gather one line per exported marker, then
 *
 *   generic spaces: keep the lines in clip order (duplicates removed on request);
 *   3DEqualizer, PFTrack: remove duplicates on request, split every line back
 *                into name, frame and coordinates, group them in a
 *                `name -> {frame -> [x, y]}` dictionary (a later line for the
 *                same frame overwriting an earlier one) and write the vendor
 *                layout from that dictionary.
 */
module Export36 {
  import opened Wrappers
  import opened Text
  import opened Host
  import opened Coordinate
  import opened Records
  import opened Gather
  import opened Selection
  import Layout
  import RunDedup

  // ------------------------------------------------------------ gathering

  /** The frame loop of one track: a line per exported marker, frames 0 .. frame_end. */
  method GatherTrack(t: Track, clip: Clip, o: Options) returns (lines: seq<string>)
    ensures lines == FormatAll(TrackRecords(t, o.frameEnd + 1, clip, o))
  {
    lines := [];
    var frameno := 0;
    while frameno <= o.frameEnd
      invariant 0 <= frameno <= (if o.frameEnd < 0 then 0 else o.frameEnd + 1)
      invariant lines == FormatAll(TrackRecords(t, frameno, clip, o))
    {
      var marker := FindFrame(t, frameno);
      ghost var before := TrackRecords(t, frameno, clip, o);
      if marker.Some? {
        var p := GetCoordinate(marker.value.u, marker.value.v, o.space, clip.width, clip.height);
        var current := frameno + o.offset;
        if current >= 0 {
          var r := Record(t.name, current, o.fmt(p.0), o.fmt(p.1), Status(marker.value.isKeyed));
          FormatAllAppend(before, [r]);
          lines := lines + [FormatRecord(r)];
        }
      }
      frameno := frameno + 1;
    }
  }

  /** The track loop: each track's lines in turn, in the clip's track order. */
  method GatherLines(clip: Clip, o: Options) returns (lines: seq<string>)
    ensures lines == FormatAll(ClipRecords(clip.tracks, clip, o))
  {
    lines := [];
    for ti := 0 to |clip.tracks|
      invariant lines == FormatAll(ClipRecords(clip.tracks[..ti], clip, o))
    {
      var trackLines := GatherTrack(clip.tracks[ti], clip, o);
      assert clip.tracks[..ti + 1][..ti] == clip.tracks[..ti];
      FormatAllAppend(ClipRecords(clip.tracks[..ti], clip, o), TrackRecords(clip.tracks[ti], o.frameEnd + 1, clip, o));
      lines := lines + trackLines;
    }
    assert clip.tracks[..|clip.tracks|] == clip.tracks;
  }

  // ------------------------------------------------------------ the dictionary

  /**
   * What the dictionary builder takes from a line: `track[0]`, `int(track[1])`,
   * `track[2]`, `track[3]`; `None` where one of them raises (IndexError on a
   * line of fewer than four tokens, ValueError on a frame that is no integer).
   */
  function ParseLine(line: string): Option<(string, int, string, string)> {
    var toks := Split(line);
    if |toks| < 4 then None
    else match ParseInt(toks[1])
      case None => None
      case Some(f) => Some((toks[0], f, toks[2], toks[3]))
  }

  /** `trackersDict[name][frame] = [x, y]`, creating the tracker's table first if it is new. */
  function Store(d: Layout.Table, name: string, f: int, x: string, y: string): Layout.Table {
    var ft := if name in d then d[name] else map[];
    d[name := ft[f := (x, y)]]
  }

  /** The dictionary built from the lines in order, or `None` when some line raises. */
  function TrackersDict(lines: seq<string>): Option<Layout.Table> {
    if lines == [] then Some(map[])
    else match TrackersDict(lines[..|lines| - 1])
      case None => None
      case Some(d) =>
        match ParseLine(lines[|lines| - 1])
        case None => None
        case Some(p) => Some(Store(d, p.0, p.1, p.2, p.3))
  }

  /** Once a line raises, the whole build raises. */
  lemma {:induction false} TrackersDictRaises(lines: seq<string>, k: int)
    requires 0 <= k <= |lines|
    requires TrackersDict(lines[..k]).None?
    ensures TrackersDict(lines).None?
    decreases |lines| - k
  {
    if k < |lines| {
      assert lines[..k + 1][..k] == lines[..k];
      TrackersDictRaises(lines, k + 1);
    } else {
      assert lines[..k] == lines;
    }
  }

  /** The loop over the lines that fills `trackersDict`; `raised` when a line raises. */
  method BuildTrackersDict(lines: seq<string>) returns (d: Layout.Table, raised: bool)
    ensures raised <==> TrackersDict(lines).None?
    ensures !raised ==> TrackersDict(lines) == Some(d)
  {
    d := map[];
    raised := false;
    for k := 0 to |lines|
      invariant TrackersDict(lines[..k]) == Some(d)
    {
      assert lines[..k + 1][..k] == lines[..k];
      var toks := Split(lines[k]);
      if |toks| < 4 {
        TrackersDictRaises(lines, k + 1);
        return d, true;
      }
      var frame := ParseInt(toks[1]);
      if frame.None? {
        TrackersDictRaises(lines, k + 1);
        return d, true;
      }
      var name := toks[0];
      ghost var before := d;
      assert ParseLine(lines[k]) == Some((name, frame.value, toks[2], toks[3]));
      if name !in d {
        d := d[name := map[]];
      }
      d := d[name := d[name][frame.value := (toks[2], toks[3])]];
      assert d == Store(before, name, frame.value, toks[2], toks[3]);
    }
    assert lines[..|lines|] == lines;
  }

  /** The dictionary of the records themselves, later records overwriting earlier ones. */
  function TableOf(rs: seq<Record>): Layout.Table {
    if rs == [] then map[]
    else
      var r := rs[|rs| - 1];
      Store(TableOf(rs[..|rs| - 1]), r.name, r.frame, r.x, r.y)
  }

  /** No later record has the same name and frame as record i. */
  predicate LastWrite(rs: seq<Record>, i: int)
    requires 0 <= i < |rs|
  {
    forall j :: i < j < |rs| ==> rs[j].name != rs[i].name || rs[j].frame != rs[i].frame
  }

  /** Some record has this name. */
  predicate HasName(rs: seq<Record>, n: string) {
    exists i :: 0 <= i < |rs| && rs[i].name == n
  }

  /** Some record has this name and frame. */
  predicate HasFrame(rs: seq<Record>, n: string, f: int) {
    exists i :: 0 <= i < |rs| && rs[i].name == n && rs[i].frame == f
  }

  /** The dictionary holds a tracker for each name of the records, and no other. */
  lemma {:induction false} TableOfNames(rs: seq<Record>)
    ensures forall n :: n in TableOf(rs) <==> HasName(rs, n)
  {
    if rs != [] {
      var init, r := rs[..|rs| - 1], rs[|rs| - 1];
      TableOfNames(init);
      forall n ensures n in TableOf(rs) <==> HasName(rs, n) {
        if HasName(init, n) {
          var i :| 0 <= i < |init| && init[i].name == n;
          assert rs[i].name == n;
        }
        if HasName(rs, n) && n != r.name {
          var i :| 0 <= i < |rs| && rs[i].name == n;
          assert init[i].name == n;
        }
      }
    }
  }

  /** A tracker's table holds the frames of the tracker's records, and no other. */
  lemma {:induction false} TableOfFrames(rs: seq<Record>)
    ensures forall n, f :: n in TableOf(rs) ==> (f in TableOf(rs)[n] <==> HasFrame(rs, n, f))
  {
    if rs != [] {
      var init, r := rs[..|rs| - 1], rs[|rs| - 1];
      TableOfFrames(init);
      TableOfNames(init);
      var t, ti := TableOf(rs), TableOf(init);
      forall n, f | n in t ensures f in t[n] <==> HasFrame(rs, n, f) {
        if n != r.name {
          assert n in ti && t[n] == ti[n];
        }
        if HasFrame(init, n, f) {
          var i :| 0 <= i < |init| && init[i].name == n && init[i].frame == f;
          assert rs[i].name == n && rs[i].frame == f;
        }
        if HasFrame(rs, n, f) && (n != r.name || f != r.frame) {
          var i :| 0 <= i < |rs| && rs[i].name == n && rs[i].frame == f;
          assert init[i].name == n && init[i].frame == f;
        }
      }
    }
  }

  /** At each frame the dictionary holds the coordinates of the last record written there. */
  lemma {:induction false} TableOfLastWrite(rs: seq<Record>, i: int)
    requires 0 <= i < |rs| && LastWrite(rs, i)
    ensures rs[i].name in TableOf(rs) && rs[i].frame in TableOf(rs)[rs[i].name]
    ensures TableOf(rs)[rs[i].name][rs[i].frame] == (rs[i].x, rs[i].y)
  {
    var init := rs[..|rs| - 1];
    if i < |rs| - 1 {
      assert rs[i] == init[i];
      assert LastWrite(init, i);
      TableOfLastWrite(init, i);
    }
  }

  /** Splitting the formatted records back gives the records' own dictionary. */
  lemma {:induction false} TrackersDictOfRecords(rs: seq<Record>)
    requires forall i :: 0 <= i < |rs| ==> WellFormed(rs[i])
    ensures TrackersDict(FormatAll(rs)) == Some(TableOf(rs))
  {
    if rs != [] {
      var init, r := rs[..|rs| - 1], rs[|rs| - 1];
      TrackersDictOfRecords(init);
      assert FormatAll(rs)[..|rs| - 1] == FormatAll(init);
      SplitRecord(r);
      IntToStringRoundTrip(r.frame);
    }
  }

  /** Names and coordinates of well-formed records are tokens, as the vendor layouts need. */
  lemma {:induction false} TableOfTokens(rs: seq<Record>)
    requires forall i :: 0 <= i < |rs| ==> WellFormed(rs[i])
    ensures Layout.TokenTable(TableOf(rs))
  {
    if rs != [] {
      TableOfTokens(rs[..|rs| - 1]);
      assert WellFormed(rs[|rs| - 1]);
    }
  }

  /** Removing lines commutes with formatting: the lines kept are those of the records kept. */
  lemma {:induction false} SelectFormatAll(rs: seq<Record>, m: seq<bool>)
    requires |m| == |rs|
    ensures Select(FormatAll(rs), m) == FormatAll(Select(rs, m))
  {
    if rs != [] {
      var n := |rs|;
      SelectFormatAll(rs[..n - 1], m[..n - 1]);
      assert FormatAll(rs)[..n - 1] == FormatAll(rs[..n - 1]);
      FormatAllAppend(Select(rs[..n - 1], m[..n - 1]), if m[n - 1] then [rs[n - 1]] else []);
    }
  }

  // ------------------------------------------------------------ main

  /** The vendor layout of a structured space. */
  function VendorOf(space: Space): Layout.Vendor
    requires space.IsStructured()
  {
    if space == Equalizer3D then Layout.Equalizer else Layout.PFTrack
  }

  /**
   * The lines `main` writes for a clip, or `None` when building the
   * dictionary raises.
   */
  function Export36(clip: Clip, o: Options, deleteDuplicate: bool): Option<seq<string>> {
    var gathered := FormatAll(ClipRecords(clip.tracks, clip, o));
    var kept := if deleteDuplicate then RunDedup.Dedup36(gathered) else gathered;
    if o.space.IsStructured() then
      match TrackersDict(kept)
      case None => None
      case Some(d) => Some(Layout.TableText(VendorOf(o.space), d, false))
    else Some(kept)
  }

  /**
   * `main(filepath, space, frameOffset, deleteDuplicate)`: `canOpen` says
   * whether `open(filepath, 'w')` succeeds and `active` is what
   * `getActiveClip()` returns. The file is opened before the clip is read,
   * so a missing clip leaves an empty file behind the AttributeError.
   */
  method Main36(canOpen: bool, active: Option<Clip>, o: Options, deleteDuplicate: bool)
    returns (outcome: Outcome, file: File)
    ensures !canOpen ==> outcome == Raised && file == Untouched
    ensures canOpen && active.None? ==> outcome == Raised && file == Written([])
    ensures canOpen && active.Some? && Export36(active.value, o, deleteDuplicate).None? ==>
              outcome == Raised && file == Written([])
    ensures canOpen && active.Some? && Export36(active.value, o, deleteDuplicate).Some? ==>
              outcome == Finished && file == Written(Export36(active.value, o, deleteDuplicate).value)
  {
    if !canOpen {
      return Raised, Untouched;
    }
    if active.None? {
      return Raised, Written([]);
    }
    var clip := active.value;
    var textList: seq<string>;
    if o.space.IsStructured() {
      var textListOld := GatherLines(clip, o);
      if deleteDuplicate {
        textListOld := RunDedup.DeleteDuplicateData(textListOld);
      }
      var d, raised := BuildTrackersDict(textListOld);
      if raised {
        return Raised, Written([]);
      }
      textList := Layout.WriteTable(VendorOf(o.space), d, false);
    } else {
      textList := GatherLines(clip, o);
    }
    if deleteDuplicate && !o.space.IsStructured() {
      textList := RunDedup.DeleteDuplicateData(textList);
    }
    return Finished, Written(textList);
  }

  // ------------------------------------------------------------ what the output holds

  /** The records whose lines survive the optional duplicate removal. */
  function KeptRecords(rs: seq<Record>, deleteDuplicate: bool): seq<Record> {
    if deleteDuplicate then Select(rs, RunDedup.Mask(FormatAll(rs))) else rs
  }

  lemma KeptWellFormed(rs: seq<Record>, deleteDuplicate: bool)
    requires forall i :: 0 <= i < |rs| ==> WellFormed(rs[i])
    ensures forall i :: 0 <= i < |KeptRecords(rs, deleteDuplicate)| ==> WellFormed(KeptRecords(rs, deleteDuplicate)[i])
  {
    if deleteDuplicate {
      SelectIsSubsequence(rs, RunDedup.Mask(FormatAll(rs)));
    }
  }

  /**
   * For a structured space the exporter never raises on a clip of token
   * names, and writes the vendor layout of the dictionary of the kept records.
   */
  lemma StructuredExport(clip: Clip, o: Options, deleteDuplicate: bool)
    requires o.space.IsStructured() && TokenClip(clip, o)
    ensures Export36(clip, o, deleteDuplicate)
            == Some(Layout.TableText(VendorOf(o.space), TableOf(KeptRecords(ClipRecords(clip.tracks, clip, o), deleteDuplicate)), false))
  {
    var rs := ClipRecords(clip.tracks, clip, o);
    ClipRecordsWellFormed(clip.tracks, clip, o);
    if deleteDuplicate {
      SelectFormatAll(rs, RunDedup.Mask(FormatAll(rs)));
    }
    KeptWellFormed(rs, deleteDuplicate);
    TrackersDictOfRecords(KeptRecords(rs, deleteDuplicate));
  }

  /**
   * Reading a structured file back gives exactly the dictionary of the kept
   * records (for 3DEqualizer with its tracker count in front): one tracker per
   * name, one frame per record, the last record of a frame winning.
   */
  lemma StructuredRoundTrip(clip: Clip, o: Options, deleteDuplicate: bool)
    requires o.space.IsStructured() && TokenClip(clip, o)
    ensures var t := TableOf(KeptRecords(ClipRecords(clip.tracks, clip, o), deleteDuplicate));
            Export36(clip, o, deleteDuplicate).Some?
            && Layout.ReadTable(VendorOf(o.space), Export36(clip, o, deleteDuplicate).value)
               == Some((if o.space == Equalizer3D then Some(|t|) else None, t))
  {
    var rs := ClipRecords(clip.tracks, clip, o);
    var t := TableOf(KeptRecords(rs, deleteDuplicate));
    StructuredExport(clip, o, deleteDuplicate);
    ClipRecordsWellFormed(clip.tracks, clip, o);
    KeptWellFormed(rs, deleteDuplicate);
    DictionaryRoundTrip(VendorOf(o.space), KeptRecords(rs, deleteDuplicate));
  }

  /** The vendor layout of a dictionary of well-formed records reads back as that dictionary. */
  lemma DictionaryRoundTrip(v: Layout.Vendor, rs: seq<Record>)
    requires forall i :: 0 <= i < |rs| ==> WellFormed(rs[i])
    ensures Layout.ReadTable(v, Layout.TableText(v, TableOf(rs), false))
            == Some((if v == Layout.Equalizer then Some(|TableOf(rs)|) else None, TableOf(rs)))
  {
    TableOfTokens(rs);
    PlainRoundTrip(v, TableOf(rs));
  }

  lemma PlainRoundTrip(v: Layout.Vendor, t: Layout.Table)
    requires Layout.TokenTable(t)
    ensures Layout.ReadTable(v, Layout.TableText(v, t, false))
            == Some((if v == Layout.Equalizer then Some(|t|) else None, t))
  {
    Layout.TableRoundTrip(v, t, false);
    Layout.WrittenAll(t);
  }
}
