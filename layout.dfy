/**
 * The two vendor layouts both generations write from a per-tracker table:
 *
 *   3DEqualizer: a line with the number of trackers, then per tracker
 *                `name`, `0`, the frame count and `frame x y` per frame;
 *   PFTrack:     per tracker `"name"`, `1` (the clip number), the frame
 *                count and `frame x y 1` per frame.
 *
 * Trackers come in sorted name order and frames in ascending order. A reader
 * for the same layouts is the inverse the writer is proved against
 * (TableRoundTrip).
 */
module Layout {
  import opened Wrappers
  import opened Text
  import opened Sorting

  datatype Vendor = Equalizer | PFTrack

  /** A tracker's frames: frame number to the printed x and y. */
  type FrameTable = map<int, (string, string)>

  /** Tracker name to its frames. */
  type Table = map<string, FrameTable>

  /** One frame as written: its number and its printed coordinates. */
  type Entry = (int, (string, string))

  function NameLine(v: Vendor, name: string): string {
    (if v == PFTrack then "\"" + name + "\"" else name) + "\n"
  }

  function ClipLine(v: Vendor): string {
    if v == PFTrack then "1\n" else "0\n"
  }

  function CountLine(n: int): string {
    IntToString(n) + "\n"
  }

  function FrameFields(v: Vendor, e: Entry): seq<string> {
    [IntToString(e.0), e.1.0, e.1.1] + (if v == PFTrack then ["1"] else [])
  }

  function FrameLine(v: Vendor, e: Entry): string {
    Join(FrameFields(v, e)) + "\n"
  }

  /** `sorted(frames.keys())`. */
  function SortedFrames<V>(ft: map<int, V>): (r: seq<int>)
    ensures |r| == |ft|
    ensures forall i :: 0 <= i < |r| ==> r[i] in ft
  {
    SortedInts(ft.Keys)
  }

  /** `sorted(table.keys())`. */
  function SortedNames<V>(t: map<string, V>): (r: seq<string>)
    ensures |r| == |t|
    ensures forall i :: 0 <= i < |r| ==> r[i] in t
  {
    SortedStrings(t.Keys)
  }

  /** The given frames of a frame table, in the given order, each with its coordinates. */
  function EntriesOf(fs: seq<int>, ft: FrameTable): (es: seq<Entry>)
    requires forall k :: 0 <= k < |fs| ==> fs[k] in ft
    ensures |es| == |fs|
    ensures forall k :: 0 <= k < |fs| ==> es[k] == (fs[k], ft[fs[k]])
  {
    if fs == [] then [] else [(fs[0], ft[fs[0]])] + EntriesOf(fs[1..], ft)
  }

  /** A tracker's frames in ascending order, each with its coordinates. */
  function Entries(ft: FrameTable): seq<Entry> {
    EntriesOf(SortedFrames(ft), ft)
  }

  /** The frame lines of the entries, in order. */
  function FrameLines(v: Vendor, es: seq<Entry>): (lines: seq<string>)
    ensures |lines| == |es|
  {
    seq(|es|, k requires 0 <= k < |es| => FrameLine(v, es[k]))
  }

  /** One tracker's block: name, clip line, frame count, frames. */
  function Block(v: Vendor, name: string, es: seq<Entry>): seq<string> {
    [NameLine(v, name), ClipLine(v), CountLine(|es|)] + FrameLines(v, es)
  }

  /** Whether the writer leaves a tracker out (v4.3 skips trackers without frames). */
  predicate Skipped(skipEmpty: bool, ft: FrameTable) {
    skipEmpty && ft == map[]
  }

  /** One tracker's lines: its block, or nothing when it is skipped. */
  function Piece(v: Vendor, name: string, ft: FrameTable, skipEmpty: bool): seq<string> {
    if Skipped(skipEmpty, ft) then [] else Block(v, name, Entries(ft))
  }

  /** The pieces of the named trackers, in the order of the names. */
  function Pieces(v: Vendor, ns: seq<string>, t: Table, skipEmpty: bool): seq<string>
    requires forall k :: 0 <= k < |ns| ==> ns[k] in t
  {
    if ns == [] then []
    else Pieces(v, ns[..|ns| - 1], t, skipEmpty) + Piece(v, ns[|ns| - 1], t[ns[|ns| - 1]], skipEmpty)
  }

  /** The header: the number of all trackers for 3DEqualizer, nothing for PFTrack. */
  function Header(v: Vendor, t: Table): seq<string> {
    if v == Equalizer then [CountLine(|t|)] else []
  }

  /** The whole file: the header, then the trackers in sorted name order. */
  function TableText(v: Vendor, t: Table, skipEmpty: bool): seq<string> {
    Header(v, t) + Pieces(v, SortedNames(t), t, skipEmpty)
  }

  // ------------------------------------------------------------ the writer

  /** Writes the header, then the trackers in sorted name order. */
  method WriteTable(v: Vendor, t: Table, skipEmpty: bool) returns (out: seq<string>)
    ensures out == TableText(v, t, skipEmpty)
  {
    out := [];
    if v == Equalizer {
      out := out + [CountLine(|t|)];
    }
    var names := SortedNames(t);
    var blocks := WriteTrackers(v, names, t, skipEmpty);
    out := out + blocks;
  }

  /** The tracker-by-tracker loop over the given names. */
  method WriteTrackers(v: Vendor, names: seq<string>, t: Table, skipEmpty: bool) returns (out: seq<string>)
    requires forall k :: 0 <= k < |names| ==> names[k] in t
    ensures out == Pieces(v, names, t, skipEmpty)
  {
    out := [];
    for i := 0 to |names|
      invariant out == Pieces(v, names[..i], t, skipEmpty)
    {
      var piece := WriteTracker(v, names[i], t[names[i]], skipEmpty);
      assert names[..i + 1][..i] == names[..i];
      out := out + piece;
    }
    assert names[..|names|] == names;
  }

  /** One tracker: nothing when it is skipped, its block otherwise. */
  method WriteTracker(v: Vendor, name: string, ft: FrameTable, skipEmpty: bool) returns (out: seq<string>)
    ensures out == Piece(v, name, ft, skipEmpty)
  {
    out := [];
    if !skipEmpty || ft != map[] {
      out := WriteBlock(v, name, ft);
    }
  }

  /** Name, clip line, frame count, then the frames in ascending order. */
  method WriteBlock(v: Vendor, name: string, ft: FrameTable) returns (out: seq<string>)
    ensures out == Block(v, name, Entries(ft))
  {
    var frames := SortedFrames(ft);
    var lines := WriteFrames(v, frames, ft);
    out := [NameLine(v, name), ClipLine(v), CountLine(|frames|)] + lines;
  }

  /** The frame-by-frame loop over the given frames. */
  method WriteFrames(v: Vendor, frames: seq<int>, ft: FrameTable) returns (out: seq<string>)
    requires forall k :: 0 <= k < |frames| ==> frames[k] in ft
    ensures out == FrameLines(v, EntriesOf(frames, ft))
  {
    out := [];
    for k := 0 to |frames|
      invariant |out| == k
      invariant forall j :: 0 <= j < k ==> out[j] == FrameLine(v, (frames[j], ft[frames[j]]))
    {
      out := out + [FrameLine(v, (frames[k], ft[frames[k]]))];
    }
  }

  // ------------------------------------------------------------ the reader

  /** Reads a `frame x y` (3DEqualizer) or `frame x y 1` (PFTrack) line. */
  function ReadFrameLine(v: Vendor, line: string): Option<Entry> {
    var toks := Split(line);
    if |toks| != (if v == PFTrack then 4 else 3) || (v == PFTrack && toks[3] != "1") then None
    else match ParseInt(toks[0])
      case None => None
      case Some(f) => Some((f, (toks[1], toks[2])))
  }

  /** Reads `count` frame lines; returns the frames and the lines after them. */
  function ReadFrames(v: Vendor, lines: seq<string>, count: nat): (r: Option<(FrameTable, seq<string>)>)
    ensures r.Some? ==> |r.value.1| <= |lines|
    decreases count
  {
    if count == 0 then Some((map[], lines))
    else if lines == [] then None
    else match ReadFrameLine(v, lines[0])
      case None => None
      case Some(e) =>
        match ReadFrames(v, lines[1..], count - 1)
        case None => None
        case Some(r) => Some((r.0[e.0 := e.1], r.1))
  }

  /** Reads a name line: the text before the newline, inside quotes for PFTrack. */
  function ReadName(v: Vendor, line: string): Option<string> {
    if |line| == 0 || line[|line| - 1] != '\n' then None
    else
      var body := line[..|line| - 1];
      if v == Equalizer then Some(body)
      else if |body| >= 2 && body[0] == '"' && body[|body| - 1] == '"' then Some(body[1..|body| - 1])
      else None
  }

  /** Reads a line holding one integer. */
  function ReadCount(line: string): Option<int> {
    var toks := Split(line);
    if |toks| != 1 then None else ParseInt(toks[0])
  }

  /** Reads tracker blocks up to the end of the lines. */
  function ReadBlocks(v: Vendor, lines: seq<string>): Option<Table>
    decreases |lines|
  {
    if lines == [] then Some(map[])
    else if |lines| < 3 || lines[1] != ClipLine(v) then None
    else
      var name, count := ReadName(v, lines[0]), ReadCount(lines[2]);
      if name.None? || count.None? || count.value < 0 then None
      else
        var frames := ReadFrames(v, lines[3..], count.value);
        if frames.None? then None
        else
          var t := ReadBlocks(v, frames.value.1);
          if t.None? then None else Some(t.value[name.value := frames.value.0])
  }

  /** Reads a whole file: the 3DEqualizer count line, if any, and the table. */
  function ReadTable(v: Vendor, lines: seq<string>): Option<(Option<int>, Table)> {
    if v == Equalizer then
      if lines == [] then None
      else match (ReadCount(lines[0]), ReadBlocks(v, lines[1..]))
        case (Some(n), Some(t)) => Some((Some(n), t))
        case _ => None
    else match ReadBlocks(v, lines)
      case Some(t) => Some((None, t))
      case None => None
  }

  // ------------------------------------------------------------ round trip

  /** The frame table a list of entries describes, the first entry of a frame winning. */
  function EntryMap(es: seq<Entry>): FrameTable {
    if es == [] then map[] else EntryMap(es[1..])[es[0].0 := es[0].1]
  }

  /** Names and printed coordinates are single tokens. */
  predicate TokenTable(t: Table) {
    forall n :: n in t ==> IsToken(n) && forall f :: f in t[n] ==> IsToken(t[n][f].0) && IsToken(t[n][f].1)
  }

  predicate TokenEntries(es: seq<Entry>) {
    forall k :: 0 <= k < |es| ==> IsToken(es[k].1.0) && IsToken(es[k].1.1)
  }

  /** The named trackers the writer does not skip, with their frames. */
  function WrittenOf(ns: seq<string>, t: Table, skipEmpty: bool): Table
    requires forall k :: 0 <= k < |ns| ==> ns[k] in t
  {
    map n | n in ns && !Skipped(skipEmpty, t[n]) :: t[n]
  }

  /** All the trackers the writer does not skip. */
  function Written(t: Table, skipEmpty: bool): (w: Table)
    ensures w.Keys <= t.Keys
  {
    map n | n in t && !Skipped(skipEmpty, t[n]) :: t[n]
  }

  /** Without skipping, every tracker is written. */
  lemma WrittenAll(t: Table)
    ensures Written(t, false) == t
  {
  }

  lemma FrameLineRoundTrip(v: Vendor, e: Entry)
    requires IsToken(e.1.0) && IsToken(e.1.1)
    ensures ReadFrameLine(v, FrameLine(v, e)) == Some(e)
  {
    IntToStringRoundTrip(e.0);
    assert IsToken("1");
    SplitLine(FrameFields(v, e));
  }

  lemma CountLineRoundTrip(n: int)
    ensures ReadCount(CountLine(n)) == Some(n)
  {
    IntToStringRoundTrip(n);
    SplitLine([IntToString(n)]);
  }

  lemma NameLineRoundTrip(v: Vendor, name: string)
    ensures ReadName(v, NameLine(v, name)) == Some(name)
  {
    var line := NameLine(v, name);
    assert line[..|line| - 1] == if v == PFTrack then "\"" + name + "\"" else name;
  }

  /** Reading the frame lines back gives the frames they were written from. */
  lemma {:induction false} FramesRoundTrip(v: Vendor, es: seq<Entry>, rest: seq<string>)
    requires TokenEntries(es)
    ensures ReadFrames(v, FrameLines(v, es) + rest, |es|) == Some((EntryMap(es), rest))
  {
    if es == [] {
      assert FrameLines(v, es) + rest == rest;
    } else {
      var lines := FrameLines(v, es) + rest;
      assert lines[0] == FrameLine(v, es[0]);
      assert lines[1..] == FrameLines(v, es[1..]) + rest;
      FrameLineRoundTrip(v, es[0]);
      FramesRoundTrip(v, es[1..], rest);
    }
  }

  /** Reading a block followed by more lines reads the block's tracker, then the rest. */
  lemma BlockRoundTrip(v: Vendor, name: string, es: seq<Entry>, rest: seq<string>)
    requires TokenEntries(es)
    ensures ReadBlocks(v, Block(v, name, es) + rest)
            == if ReadBlocks(v, rest).None? then None
               else Some(ReadBlocks(v, rest).value[name := EntryMap(es)])
  {
    var lines := Block(v, name, es) + rest;
    NameLineRoundTrip(v, name);
    CountLineRoundTrip(|es|);
    assert lines[0] == NameLine(v, name) && lines[1] == ClipLine(v) && lines[2] == CountLine(|es|);
    assert lines[3..] == FrameLines(v, es) + rest;
    FramesRoundTrip(v, es, rest);
  }

  /** The entries of the given frames describe the frame table on those frames. */
  lemma {:induction false} EntryMapOf(fs: seq<int>, ft: FrameTable)
    requires forall k :: 0 <= k < |fs| ==> fs[k] in ft
    ensures forall f :: f in EntryMap(EntriesOf(fs, ft)) <==> f in fs
    ensures forall f :: f in fs ==> EntryMap(EntriesOf(fs, ft))[f] == ft[f]
  {
    if fs != [] {
      EntryMapOf(fs[1..], ft);
      assert EntriesOf(fs, ft)[1..] == EntriesOf(fs[1..], ft);
      assert forall f :: f in fs <==> f == fs[0] || f in fs[1..];
    }
  }

  /** The entries of a frame table describe that frame table. */
  lemma EntriesRoundTrip(ft: FrameTable)
    ensures EntryMap(Entries(ft)) == ft
  {
    var fs := SortedFrames(ft);
    var m := EntryMap(Entries(ft));
    SortedFramesKeys(ft);
    EntryMapOf(fs, ft);
    assert forall f :: f in m <==> f in ft;
  }

  /** The sorted frames are exactly the table's frames. */
  lemma SortedFramesKeys<V>(ft: map<int, V>)
    ensures forall f :: f in SortedFrames(ft) <==> f in ft
  {
    SortedIntsSorted(ft.Keys);
    forall f | f in ft ensures f in SortedFrames(ft) {
      assert f in ft.Keys;
    }
  }

  /** The entries come in strictly ascending frame order. */
  lemma EntriesAscending(ft: FrameTable)
    ensures forall i, j :: 0 <= i < j < |Entries(ft)| ==> Entries(ft)[i].0 < Entries(ft)[j].0
  {
    SortedIntsSorted(ft.Keys);
  }

  /** The entries of a frame table of tokens are tokens. */
  lemma EntriesTokens(ft: FrameTable)
    requires forall f :: f in ft ==> IsToken(ft[f].0) && IsToken(ft[f].1)
    ensures TokenEntries(Entries(ft))
  {
    var fs := SortedFrames(ft);
    assert forall k :: 0 <= k < |fs| ==> Entries(ft)[k] == (fs[k], ft[fs[k]]);
  }

  /** The pieces of the names, read from the front: the first name's piece, then the rest. */
  lemma {:induction false} PiecesFront(v: Vendor, ns: seq<string>, t: Table, skipEmpty: bool)
    requires forall k :: 0 <= k < |ns| ==> ns[k] in t
    requires ns != []
    ensures Pieces(v, ns, t, skipEmpty) == Piece(v, ns[0], t[ns[0]], skipEmpty) + Pieces(v, ns[1..], t, skipEmpty)
    decreases |ns|
  {
    if |ns| > 1 {
      var init := ns[..|ns| - 1];
      PiecesFront(v, init, t, skipEmpty);
      assert init[1..] == ns[1..][..|ns| - 2];
      assert init[0] == ns[0];
      AppendAssoc(Piece(v, ns[0], t[ns[0]], skipEmpty), Pieces(v, init[1..], t, skipEmpty),
                  Piece(v, ns[|ns| - 1], t[ns[|ns| - 1]], skipEmpty));
    } else {
      assert ns[..0] == [] && ns[1..] == [];
    }
  }

  lemma AppendAssoc<T>(a: seq<T>, b: seq<T>, c: seq<T>)
    ensures a + b + c == a + (b + c)
  {
  }

  /** The written trackers of the names, read from the front. */
  lemma WrittenOfFront(ns: seq<string>, t: Table, skipEmpty: bool)
    requires forall k :: 0 <= k < |ns| ==> ns[k] in t
    requires ns != []
    ensures WrittenOf(ns, t, skipEmpty)
            == if Skipped(skipEmpty, t[ns[0]]) then WrittenOf(ns[1..], t, skipEmpty)
               else WrittenOf(ns[1..], t, skipEmpty)[ns[0] := t[ns[0]]]
  {
    assert forall m :: m in ns <==> m == ns[0] || m in ns[1..];
  }

  /** Reading the pieces back gives the named trackers the writer does not skip. */
  lemma {:induction false} PiecesRoundTrip(v: Vendor, ns: seq<string>, t: Table, skipEmpty: bool)
    requires forall k :: 0 <= k < |ns| ==> ns[k] in t
    requires TokenTable(t)
    ensures ReadBlocks(v, Pieces(v, ns, t, skipEmpty)) == Some(WrittenOf(ns, t, skipEmpty))
    decreases |ns|
  {
    if ns == [] {
      assert WrittenOf(ns, t, skipEmpty) == map[];
    } else {
      var n, rest := ns[0], ns[1..];
      PiecesFront(v, ns, t, skipEmpty);
      PiecesRoundTrip(v, rest, t, skipEmpty);
      WrittenOfFront(ns, t, skipEmpty);
      PieceRoundTrip(v, n, t[n], skipEmpty, Pieces(v, rest, t, skipEmpty));
    }
  }

  /** Reading a tracker's piece followed by more lines reads the tracker, unless skipped, then the rest. */
  lemma PieceRoundTrip(v: Vendor, name: string, ft: FrameTable, skipEmpty: bool, rest: seq<string>)
    requires forall f :: f in ft ==> IsToken(ft[f].0) && IsToken(ft[f].1)
    ensures ReadBlocks(v, Piece(v, name, ft, skipEmpty) + rest)
            == if Skipped(skipEmpty, ft) then ReadBlocks(v, rest)
               else if ReadBlocks(v, rest).None? then None
               else Some(ReadBlocks(v, rest).value[name := ft])
  {
    if Skipped(skipEmpty, ft) {
      assert Piece(v, name, ft, skipEmpty) + rest == rest;
    } else {
      EntriesTokens(ft);
      EntriesRoundTrip(ft);
      BlockRoundTrip(v, name, Entries(ft), rest);
    }
  }

  /** In sorted order, the written trackers are all those of the table the writer keeps. */
  lemma WrittenSorted(t: Table, skipEmpty: bool)
    ensures WrittenOf(SortedNames(t), t, skipEmpty) == Written(t, skipEmpty)
  {
    var ns := SortedNames(t);
    SortedStringsSorted(t.Keys);
    forall n ensures n in ns <==> n in t {
      if n in t {
        assert n in t.Keys;
      }
    }
  }

  /**
   * Reading a written file back gives the trackers written, and for
   * 3DEqualizer the header's count of all trackers.
   */
  lemma TableRoundTrip(v: Vendor, t: Table, skipEmpty: bool)
    requires TokenTable(t)
    ensures ReadTable(v, TableText(v, t, skipEmpty))
            == Some((if v == Equalizer then Some(|t|) else None, Written(t, skipEmpty)))
  {
    var ns := SortedNames(t);
    var text, body := TableText(v, t, skipEmpty), Pieces(v, ns, t, skipEmpty);
    PiecesRoundTrip(v, ns, t, skipEmpty);
    WrittenSorted(t, skipEmpty);
    if v == Equalizer {
      assert text == [CountLine(|t|)] + body;
      assert text[0] == CountLine(|t|) && text[1..] == body;
      CountLineRoundTrip(|t|);
    } else {
      assert text == body;
    }
  }

  /**
   * The 3DEqualizer header counts every tracker, written or not: a table whose
   * only tracker has no frames and is skipped gives a file announcing one
   * tracker and holding none.
   */
  lemma HeaderCountsSkippedTrackers()
    ensures TableText(Equalizer, map["a" := map[]], true) == ["1\n"]
    ensures ReadTable(Equalizer, TableText(Equalizer, map["a" := map[]], true)) == Some((Some(1), map[]))
  {
    var t: Table := map["a" := map[]];
    var ns := SortedNames(t);
    assert ns[0] in t;
    assert ns == ["a"];
    assert ns[..0] == [];
    assert Pieces(Equalizer, ns, t, true) == [];
    assert |t| == 1;
    assert IntToString(1) == "1";
    assert CountLine(1) == "1\n";
    assert TableText(Equalizer, t, true) == [CountLine(1)] + [];
    CountLineRoundTrip(1);
    assert ReadBlocks(Equalizer, ["1\n"][1..]) == Some(map[]);
  }
}
