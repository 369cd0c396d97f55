/**
 * What the exporter gathers from the clip, before any formatting: for each
 * track, one record per frame 0 .. frame_end at which the track has a
 * marker, with the frame moved by the offset and kept only when that is not
 * negative.
 */
module Gather {
  import opened Text
  import opened Host
  import opened Records
  import opened Coordinate

  /**
   * The export operator's settings (`space`, `frame_offset`), the scene's
   * `frame_end`, and `str` on floats, which the model leaves as a parameter.
   */
  datatype Options = Options(space: Space, frameEnd: int, offset: int, fmt: real -> string)

  /** `str(float)` prints each number as one token, as Python's does. */
  ghost predicate PrintsTokens(fmt: real -> string) {
    forall r: real :: IsToken(fmt(r))
  }

  /** Track names are tokens and floats print as tokens: what the line layouts need of a clip. */
  ghost predicate TokenClip(clip: Clip, o: Options) {
    PrintsTokens(o.fmt) && forall ti :: 0 <= ti < |clip.tracks| ==> IsToken(clip.tracks[ti].name)
  }

  /** The record a marker at frame f yields: frame moved, coordinates mapped and printed, status. */
  function MarkerRecord(name: string, f: int, mk: Marker, clip: Clip, o: Options): Record {
    var p := GetCoordinate(mk.u, mk.v, o.space, clip.width, clip.height);
    Record(name, f + o.offset, o.fmt(p.0), o.fmt(p.1), Status(mk.isKeyed))
  }

  /** Whether the marker of track t at frame f is exported, for frames below n. */
  predicate Exported(t: Track, f: int, n: int, o: Options) {
    0 <= f < n && f in t.markers && f + o.offset >= 0
  }

  /**
   * The records of track t for the frames below n, in ascending frame
   * order: each comes from an exported marker.
   */
  function TrackRecords(t: Track, n: int, clip: Clip, o: Options): (rs: seq<Record>)
    ensures forall i :: 0 <= i < |rs| ==>
              Exported(t, rs[i].frame - o.offset, n, o)
              && rs[i] == MarkerRecord(t.name, rs[i].frame - o.offset, t.markers[rs[i].frame - o.offset], clip, o)
    ensures forall i, j :: 0 <= i < j < |rs| ==> rs[i].frame < rs[j].frame
    decreases n
  {
    if n <= 0 then []
    else
      var f := n - 1;
      var rest := TrackRecords(t, f, clip, o);
      if f in t.markers && f + o.offset >= 0 then rest + [MarkerRecord(t.name, f, t.markers[f], clip, o)]
      else rest
  }

  /** Every exported marker of the track has its record. */
  lemma {:induction false} TrackRecordsComplete(t: Track, n: int, clip: Clip, o: Options, f: int)
    requires Exported(t, f, n, o)
    ensures MarkerRecord(t.name, f, t.markers[f], clip, o) in TrackRecords(t, n, clip, o)
    decreases n
  {
    if f < n - 1 {
      TrackRecordsComplete(t, n - 1, clip, o, f);
    }
  }

  /** The records of the tracks, track after track in the clip's order. */
  function ClipRecords(tracks: seq<Track>, clip: Clip, o: Options): seq<Record> {
    if tracks == [] then []
    else ClipRecords(tracks[..|tracks| - 1], clip, o) + TrackRecords(tracks[|tracks| - 1], o.frameEnd + 1, clip, o)
  }

  /**
   * A record is gathered exactly when some track has an exported marker it
   * comes from.
   */
  lemma ClipRecordsExactly(tracks: seq<Track>, clip: Clip, o: Options, r: Record)
    ensures r in ClipRecords(tracks, clip, o) <==> FromMarker(tracks, clip, o, r)
  {
    if r in ClipRecords(tracks, clip, o) {
      ClipRecordsSound(tracks, clip, o, r);
    }
    if FromMarker(tracks, clip, o, r) {
      var ti, f :| 0 <= ti < |tracks| && Exported(tracks[ti], f, o.frameEnd + 1, o)
                   && r == MarkerRecord(tracks[ti].name, f, tracks[ti].markers[f], clip, o);
      ClipRecordsComplete(tracks, clip, o, ti, f);
    }
  }

  /** Some track of `tracks` has an exported marker that record r comes from. */
  ghost predicate FromMarker(tracks: seq<Track>, clip: Clip, o: Options, r: Record) {
    exists ti, f :: 0 <= ti < |tracks| && Exported(tracks[ti], f, o.frameEnd + 1, o)
                    && r == MarkerRecord(tracks[ti].name, f, tracks[ti].markers[f], clip, o)
  }

  /** Every gathered record comes from an exported marker of some track. */
  lemma {:induction false} ClipRecordsSound(tracks: seq<Track>, clip: Clip, o: Options, r: Record)
    requires r in ClipRecords(tracks, clip, o)
    ensures FromMarker(tracks, clip, o, r)
  {
    var init, t := tracks[..|tracks| - 1], tracks[|tracks| - 1];
    if r in TrackRecords(t, o.frameEnd + 1, clip, o) {
      FromLastTrack(tracks, clip, o, r);
    } else {
      ClipRecordsSound(init, clip, o, r);
      FromEarlierTrack(tracks, clip, o, r);
    }
  }

  lemma FromLastTrack(tracks: seq<Track>, clip: Clip, o: Options, r: Record)
    requires tracks != [] && r in TrackRecords(tracks[|tracks| - 1], o.frameEnd + 1, clip, o)
    ensures FromMarker(tracks, clip, o, r)
  {
    var rs := TrackRecords(tracks[|tracks| - 1], o.frameEnd + 1, clip, o);
    var i :| 0 <= i < |rs| && rs[i] == r;
    var ti, f := |tracks| - 1, r.frame - o.offset;
    assert Exported(tracks[ti], f, o.frameEnd + 1, o)
           && r == MarkerRecord(tracks[ti].name, f, tracks[ti].markers[f], clip, o);
  }

  lemma FromEarlierTrack(tracks: seq<Track>, clip: Clip, o: Options, r: Record)
    requires tracks != [] && FromMarker(tracks[..|tracks| - 1], clip, o, r)
    ensures FromMarker(tracks, clip, o, r)
  {
    var init := tracks[..|tracks| - 1];
    var ti, f :| 0 <= ti < |init| && Exported(init[ti], f, o.frameEnd + 1, o)
                 && r == MarkerRecord(init[ti].name, f, init[ti].markers[f], clip, o);
    assert init[ti] == tracks[ti];
  }

  /** Every exported marker of every track has its record among the gathered ones. */
  lemma {:induction false} ClipRecordsComplete(tracks: seq<Track>, clip: Clip, o: Options, ti: int, f: int)
    requires 0 <= ti < |tracks| && Exported(tracks[ti], f, o.frameEnd + 1, o)
    ensures MarkerRecord(tracks[ti].name, f, tracks[ti].markers[f], clip, o) in ClipRecords(tracks, clip, o)
  {
    var init := tracks[..|tracks| - 1];
    if ti == |tracks| - 1 {
      TrackRecordsComplete(tracks[ti], o.frameEnd + 1, clip, o, f);
    } else {
      assert init[ti] == tracks[ti];
      ClipRecordsComplete(init, clip, o, ti, f);
    }
  }

  /** Gathered records are well formed when names are tokens and floats print as tokens. */
  lemma {:induction false} ClipRecordsWellFormed(tracks: seq<Track>, clip: Clip, o: Options)
    requires PrintsTokens(o.fmt)
    requires forall ti :: 0 <= ti < |tracks| ==> IsToken(tracks[ti].name)
    ensures forall i :: 0 <= i < |ClipRecords(tracks, clip, o)| ==> WellFormed(ClipRecords(tracks, clip, o)[i])
  {
    if tracks != [] {
      var init, t := tracks[..|tracks| - 1], tracks[|tracks| - 1];
      ClipRecordsWellFormed(init, clip, o);
      TrackRecordsWellFormed(t, o.frameEnd + 1, clip, o);
      WellFormedAppend(ClipRecords(init, clip, o), TrackRecords(t, o.frameEnd + 1, clip, o));
    }
  }

  /** One track's records are well formed when its name is a token and floats print as tokens. */
  lemma TrackRecordsWellFormed(t: Track, n: int, clip: Clip, o: Options)
    requires PrintsTokens(o.fmt) && IsToken(t.name)
    ensures forall i :: 0 <= i < |TrackRecords(t, n, clip, o)| ==> WellFormed(TrackRecords(t, n, clip, o)[i])
  {
    var b := TrackRecords(t, n, clip, o);
    forall i | 0 <= i < |b| ensures WellFormed(b[i]) {
      var mk := t.markers[b[i].frame - o.offset];
      var p := GetCoordinate(mk.u, mk.v, o.space, clip.width, clip.height);
      assert IsToken(o.fmt(p.0)) && IsToken(o.fmt(p.1));
    }
  }

  lemma WellFormedAppend(a: seq<Record>, b: seq<Record>)
    requires forall i :: 0 <= i < |a| ==> WellFormed(a[i])
    requires forall i :: 0 <= i < |b| ==> WellFormed(b[i])
    ensures forall i :: 0 <= i < |a + b| ==> WellFormed((a + b)[i])
  {
    forall i | 0 <= i < |a + b| ensures WellFormed((a + b)[i]) {
      if i >= |a| {
        assert (a + b)[i] == b[i - |a|];
      }
    }
  }
}
