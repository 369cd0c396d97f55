/**
 * One generic-format line, `"<name> <frame> <x> <y> <status>\n"`, and the
 * helpers both generations use to read fields back out of such a line by
 * splitting it on whitespace.
 */
module Records {
  import opened Wrappers
  import opened Text

  /**
   * A mapped record: a track name, a frame after the offset, the two mapped
   * coordinates as the text `str(float)` gives, and the status code.
   */
  datatype Record = Record(name: string, frame: int, x: string, y: string, status: int)

  /** The status code: 15 for a keyframe, 7 for an interpolated marker. */
  function Status(isKeyed: bool): int {
    if isKeyed then 15 else 7
  }

  /** Name and coordinates are single tokens, as the line layout needs. */
  predicate WellFormed(r: Record) {
    IsToken(r.name) && IsToken(r.x) && IsToken(r.y)
  }

  function Fields(r: Record): seq<string> {
    [r.name, IntToString(r.frame), r.x, r.y, IntToString(r.status)]
  }

  /** `'{0} {1} {2} {3} {4}\n'.format(name, frame, x, y, status)`. */
  function FormatRecord(r: Record): string {
    Join(Fields(r)) + "\n"
  }

  function FormatAll(rs: seq<Record>): (lines: seq<string>)
    ensures |lines| == |rs|
    ensures forall i :: 0 <= i < |rs| ==> lines[i] == FormatRecord(rs[i])
  {
    seq(|rs|, i requires 0 <= i < |rs| => FormatRecord(rs[i]))
  }

  lemma FormatAllAppend(a: seq<Record>, b: seq<Record>)
    ensures FormatAll(a + b) == FormatAll(a) + FormatAll(b)
  {
  }

  /**
   * v3.6 `isRecordEquals(a, b)`: tokens 2 and 3 compared as text. `None`
   * stands for the IndexError raised when a line is too short; token 3 is
   * only read when tokens 2 agree, as Python's `and` short-circuits.
   */
  function IsRecordEquals36(a: string, b: string): Option<bool> {
    var sa, sb := Split(a), Split(b);
    if |sa| < 3 || |sb| < 3 then None
    else if sa[2] != sb[2] then Some(false)
    else if |sa| < 4 || |sb| < 4 then None
    else Some(sa[3] == sb[3])
  }

  /** v4.3 `isRecordEquals(a, b)`: false for a line of fewer than four tokens. */
  function IsRecordEquals43(a: string, b: string): bool {
    var sa, sb := Split(a), Split(b);
    if |sa| < 4 || |sb| < 4 then false
    else sa[2] == sb[2] && sa[3] == sb[3]
  }

  /** `getStatus(a)`: the last token; `None` for the IndexError of a blank line. */
  function GetStatus(a: string): Option<string> {
    var sa := Split(a);
    if sa == [] then None else Some(sa[|sa| - 1])
  }

  /** `isRecordStatusEquals(a, b)`: last tokens compared; `None` for a blank line. */
  function IsRecordStatusEquals(a: string, b: string): Option<bool> {
    var sa, sb := Split(a), Split(b);
    if sa == [] || sb == [] then None else Some(sa[|sa| - 1] == sb[|sb| - 1])
  }

  /** The string `getFrame` returns instead of raising. */
  const InvalidFrame: string := "data delete, invalid frame"

  /** What `getFrame` returns: an `int`, or its sentinel string. */
  datatype FrameValue = Frame(value: int) | Sentinel(text: string)

  /** `getFrame(a)`: `int` of token 1, or the sentinel when it is missing or not an integer. */
  function GetFrame(a: string): FrameValue {
    var sa := Split(a);
    if |sa| < 2 then Sentinel(InvalidFrame)
    else match ParseInt(sa[1])
      case Some(n) => Frame(n)
      case None => Sentinel(InvalidFrame)
  }

  /** A formatted record splits back into exactly its five fields. */
  lemma SplitRecord(r: Record)
    requires WellFormed(r)
    ensures Split(FormatRecord(r)) == Fields(r)
  {
    IntToStringRoundTrip(r.frame);
    IntToStringRoundTrip(r.status);
    SplitLine(Fields(r));
  }

  /**
   * Reading a formatted record back: `getFrame` recovers its frame,
   * `getStatus` its status, and both generations' `isRecordEquals` compare
   * exactly the coordinate texts.
   */
  lemma ReadFormatted(a: Record, b: Record)
    requires WellFormed(a) && WellFormed(b)
    ensures GetFrame(FormatRecord(a)) == Frame(a.frame)
    ensures GetStatus(FormatRecord(a)) == Some(IntToString(a.status))
    ensures IsRecordStatusEquals(FormatRecord(a), FormatRecord(b)) == Some(a.status == b.status)
    ensures IsRecordEquals36(FormatRecord(a), FormatRecord(b)) == Some(a.x == b.x && a.y == b.y)
    ensures IsRecordEquals43(FormatRecord(a), FormatRecord(b)) == (a.x == b.x && a.y == b.y)
  {
    SplitRecord(a);
    SplitRecord(b);
    IntToStringRoundTrip(a.frame);
    IntToStringRoundTrip(a.status);
    IntToStringRoundTrip(b.status);
  }

  /**
   * On lines of at least four tokens the two generations' equality tests
   * agree, and the v3.6 test never raises.
   */
  lemma EqualsAgree(a: string, b: string)
    requires |Split(a)| >= 4 && |Split(b)| >= 4
    ensures IsRecordEquals36(a, b) == Some(IsRecordEquals43(a, b))
  {
  }

  /** The v4.3 equality test is symmetric. */
  lemma Equals43Symmetric(a: string, b: string)
    ensures IsRecordEquals43(a, b) == IsRecordEquals43(b, a)
  {
  }

  /** Equal to an equal record: the v4.3 test is transitive. */
  lemma Equals43Transitive(a: string, b: string, c: string)
    requires IsRecordEquals43(a, b) && IsRecordEquals43(b, c)
    ensures IsRecordEquals43(a, c)
  {
  }
}
