/**
 * What the exporter reads from the tracking application: the active clip's
 * size and its tracks, each a name and the markers it has, keyed by frame.
 */
module Host {
  import opened Wrappers

  /** A marker: its position in normalised clip space and whether it is a keyframe. */
  datatype Marker = Marker(u: real, v: real, isKeyed: bool)

  datatype Track = Track(name: string, markers: map<int, Marker>)

  /** `clip.size` is (width, height) in pixels; `clip.tracking.tracks` in the clip's order. */
  datatype Clip = Clip(width: int, height: int, tracks: seq<Track>)

  /** `track.markers.find_frame(frame)`: the marker at exactly that frame, if any. */
  function FindFrame(track: Track, frame: int): (r: Option<Marker>)
    ensures r.Some? <==> frame in track.markers
    ensures r.Some? ==> r.value == track.markers[frame]
  {
    if frame in track.markers then Some(track.markers[frame]) else None
  }

  /** What an export operator returns: `{'FINISHED'}`, `{'CANCELLED'}`, or an exception it lets escape. */
  datatype Outcome = Finished | Cancelled | Raised

  /** The output file: never opened, or opened for writing and holding these lines. */
  datatype File = Untouched | Written(lines: seq<string>)
}
