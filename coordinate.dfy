/**
 * The coordinate mapper shared by both generations of the exporter: a marker
 * position in the clip's normalised space (u, v in [0, 1], origin bottom-left)
 * is mapped into one of the five target conventions, given the clip size in
 * pixels. Arithmetic is exact; float rounding is not modelled.
 */
module Coordinate {

  /** The `space` option of the export operator. */
  datatype Space = Uv | Screen | Syntheys | Equalizer3D | PFTrack {
    /** The two vendor formats that are written from a per-tracker table. */
    predicate IsStructured() {
      this == Equalizer3D || this == PFTrack
    }
  }

  /** `getCoordinate(co, coordinate_space, video_size)`. */
  function GetCoordinate(u: real, v: real, space: Space, width: int, height: int): (real, real) {
    var w, h := width as real, height as real;
    match space
    case Uv => (u, v)
    case Screen => (u * w, h - v * h)
    case Syntheys => (u * 2.0 - 1.0, -1.0 * (v * 2.0 - 1.0))
    case Equalizer3D => (u * w, v * h)
    case PFTrack => (u * w, v * h)
  }

  /**
   * Maps a point of a target convention back to normalised clip space: the
   * inverse the mapper is proved against (MapThenInvert, InvertThenMap).
   */
  function ToNormalised(x: real, y: real, space: Space, width: int, height: int): (real, real)
    requires width > 0 && height > 0
  {
    var w, h := width as real, height as real;
    match space
    case Uv => (x, y)
    case Screen => (x / w, (h - y) / h)
    case Syntheys => ((x + 1.0) / 2.0, (1.0 - y) / 2.0)
    case Equalizer3D => (x / w, y / h)
    case PFTrack => (x / w, y / h)
  }

  /** Mapping a marker position and mapping it back gives the position again. */
  lemma MapThenInvert(u: real, v: real, space: Space, width: int, height: int)
    requires width > 0 && height > 0
    ensures var p := GetCoordinate(u, v, space, width, height);
            ToNormalised(p.0, p.1, space, width, height) == (u, v)
  {
    var w, h := width as real, height as real;
    var p := GetCoordinate(u, v, space, width, height);
    Rescale(u, w);
    Rescale(v, h);
    match space {
      case Uv =>
      case Screen =>
        assert p.0 == u * w && p.1 == h - v * h;
        assert h - p.1 == v * h;
      case Syntheys =>
      case Equalizer3D =>
        assert p.0 == u * w && p.1 == v * h;
      case PFTrack =>
        assert p.0 == u * w && p.1 == v * h;
    }
  }

  /** Every point of a target convention is the image of the position `ToNormalised` gives it: with `MapThenInvert`, the mapper is one-to-one and onto. */
  lemma InvertThenMap(x: real, y: real, space: Space, width: int, height: int)
    requires width > 0 && height > 0
    ensures var q := ToNormalised(x, y, space, width, height);
            GetCoordinate(q.0, q.1, space, width, height) == (x, y)
  {
    match space {
      case Uv =>
      case Screen => InvertScreen(x, y, width, height);
      case Syntheys =>
      case Equalizer3D => InvertPixels(x, y, space, width, height);
      case PFTrack => InvertPixels(x, y, space, width, height);
    }
  }

  lemma InvertScreen(x: real, y: real, width: int, height: int)
    requires width > 0 && height > 0
    ensures var q := ToNormalised(x, y, Screen, width, height);
            GetCoordinate(q.0, q.1, Screen, width, height) == (x, y)
  {
    var w, h := width as real, height as real;
    var q := ToNormalised(x, y, Screen, width, height);
    Rescale(x, w);
    Rescale(h - y, h);
    assert q.0 == x / w && q.1 == (h - y) / h;
    var r := GetCoordinate(q.0, q.1, Screen, width, height);
    assert r.0 == q.0 * w && r.1 == h - q.1 * h;
    assert q.1 * h == h - y;
    assert r.0 == x && r.1 == y;
  }

  lemma InvertPixels(x: real, y: real, space: Space, width: int, height: int)
    requires width > 0 && height > 0
    requires space == Equalizer3D || space == PFTrack
    ensures var q := ToNormalised(x, y, space, width, height);
            GetCoordinate(q.0, q.1, space, width, height) == (x, y)
  {
    var w, h := width as real, height as real;
    var q := ToNormalised(x, y, space, width, height);
    Rescale(x, w);
    Rescale(y, h);
    assert q.0 == x / w && q.1 == y / h;
    var r := GetCoordinate(q.0, q.1, space, width, height);
    assert r.0 == q.0 * w && r.1 == q.1 * h;
    assert r.0 == x && r.1 == y;
  }

  lemma Rescale(t: real, size: real)
    requires size != 0.0
    ensures t * size / size == t
    ensures t / size * size == t
  {
  }

  /**
   * The clip's unit square lands on the frame of each convention: the pixel
   * rectangle for screen, 3DEqualizer and PFTrack (screen flipping y so that
   * v = 0 is the bottom row h), and [-1, 1] x [-1, 1] for SynthEyes, whose
   * corners (0, 0) and (1, 1) go to (-1, 1) and (1, -1).
   */
  lemma UnitSquareImage(u: real, v: real, space: Space, width: int, height: int)
    requires 0.0 <= u <= 1.0 && 0.0 <= v <= 1.0
    requires width >= 0 && height >= 0
    ensures var p := GetCoordinate(u, v, space, width, height);
            match space
            case Uv => p == (u, v)
            case Syntheys =>
              -1.0 <= p.0 <= 1.0 && -1.0 <= p.1 <= 1.0
              && (u == 0.0 && v == 0.0 ==> p == (-1.0, 1.0))
              && (u == 1.0 && v == 1.0 ==> p == (1.0, -1.0))
            case _ =>
              0.0 <= p.0 <= width as real && 0.0 <= p.1 <= height as real
              && (v == 0.0 ==> p.1 == if space == Screen then height as real else 0.0)
  {
    PixelImage(u, v, width as real, height as real);
  }

  /** Scaling the unit square by the clip size stays inside the pixel rectangle, either way up. */
  lemma PixelImage(u: real, v: real, w: real, h: real)
    requires 0.0 <= u <= 1.0 && 0.0 <= v <= 1.0
    requires w >= 0.0 && h >= 0.0
    ensures 0.0 <= u * w <= w && 0.0 <= v * h <= h && 0.0 <= h - v * h <= h
    ensures v == 0.0 ==> v * h == 0.0
  {
    UnitScale(u, w);
    UnitScale(v, h);
  }

  lemma UnitScale(t: real, size: real)
    requires 0.0 <= t <= 1.0 && 0.0 <= size
    ensures 0.0 <= t * size <= size
  {
    assert t * size <= 1.0 * size;
  }

  /** Screen space is 3DEqualizer/PFTrack pixel space with the y axis flipped. */
  lemma ScreenFlipsPixelSpace(u: real, v: real, width: int, height: int)
    ensures var s := GetCoordinate(u, v, Screen, width, height);
            var e := GetCoordinate(u, v, Equalizer3D, width, height);
            s.0 == e.0 && s.1 == height as real - e.1
            && e == GetCoordinate(u, v, PFTrack, width, height)
  {
  }
}
