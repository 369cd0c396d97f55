/**
 * The duplicate remover of the v3.6 exporter. It scans the record list for
 * runs of consecutive records whose coordinate tokens are equal, overwrites
 * the slots it deletes with `0`, and finally filters those out.
 *
 *  - A run at the head of the list keeps its last record (case D).
 *  - A run in the middle keeps its last record when the frame of the next
 *    record is adjacent to it (case C), and its first record otherwise.
 *    Case B misspells its list's name; the `NameError` lands in the bare
 *    `except`, whose handler deletes exactly what case B meant to delete.
 *  - A run reaching the end of the list keeps its first record (the
 *    `IndexError` on `tL[j+1]` reaches the same handler).
 *
 * Exceptions are modelled as explicit control flow: `None` from the equality
 * test, or the `raised` flag of the scan.
 */
module RunDedup {
  import opened Wrappers
  import opened Text
  import opened Records
  import opened Selection

  /** A slot of the working list: a line, or the `0` written over a deleted one. */
  datatype Slot = Deleted | Line(text: string)

  /** `isRecordEquals` on two slots; `None` for any exception, including a deleted slot's `0`. */
  function SlotEquals(a: Slot, b: Slot): Option<bool> {
    if a.Line? && b.Line? then IsRecordEquals36(a.text, b.text) else None
  }

  /** `getFrame` on a slot; its bare `except` turns a deleted slot's `0` into the sentinel too. */
  function SlotFrame(a: Slot): FrameValue {
    if a.Line? then GetFrame(a.text) else Sentinel(InvalidFrame)
  }

  /** Records k and k + 1 compare equal without raising: they lie in one run. */
  predicate Linked(s: seq<string>, k: int) {
    0 <= k && k + 1 < |s| && IsRecordEquals36(s[k], s[k + 1]) == Some(true)
  }

  /** `abs(b - a) == 1`; false where the subtraction raises on the sentinel string. */
  predicate Adjacent(a: FrameValue, b: FrameValue) {
    a.Frame? && b.Frame? && (b.value - a.value == 1 || b.value - a.value == -1)
  }

  /** After a run ending at j the next record differs but its frame follows on (case C). */
  predicate CaseC(s: seq<string>, j: int) {
    0 <= j && j + 1 < |s| && IsRecordEquals36(s[j], s[j + 1]) == Some(false)
    && Adjacent(GetFrame(s[j]), GetFrame(s[j + 1]))
  }

  /** The last index of the run of linked records that starts at i. */
  function RunEnd(s: seq<string>, i: int): (j: int)
    requires 0 <= i < |s|
    ensures i <= j < |s|
    ensures forall k :: i <= k < j ==> Linked(s, k)
    ensures !Linked(s, j)
    decreases |s| - i
  {
    if Linked(s, i) then RunEnd(s, i + 1) else i
  }

  function Falses(n: nat): (r: seq<bool>)
    ensures |r| == n
    ensures forall k :: 0 <= k < n ==> !r[k]
  {
    seq(n, _ => false)
  }

  /**
   * Which of the slots from i on survive, when the scan of the middle of the
   * list reaches an undeleted slot i (i > 0).
   */
  function MiddleMask(s: seq<string>, i: int): (m: seq<bool>)
    requires 1 <= i <= |s|
    ensures |m| == |s| - i
    decreases |s| - i
  {
    if i == |s| then []
    else
      var j := RunEnd(s, i);
      if j == i then [true] + MiddleMask(s, i + 1)
      else if j == |s| - 1 then [true] + Falses(j - i)
      else if CaseC(s, j) then Falses(j - i) + MiddleMask(s, j)
      else [true] + Falses(j - i) + MiddleMask(s, j + 1)
  }

  /** Which slots survive the whole scan: case D at the head, then the middle scan. */
  function Mask(s: seq<string>): (m: seq<bool>)
    ensures |m| == |s|
  {
    if |s| <= 1 then seq(|s|, _ => true)
    else
      var j := RunEnd(s, 0);
      if j == 0 then [true] + MiddleMask(s, 1) else Falses(j) + MiddleMask(s, j)
  }

  /** What `deleteDuplicateData` returns. */
  function Dedup36(s: seq<string>): seq<string> {
    Select(s, Mask(s))
  }

  // ------------------------------------------------------------ the scan

  /** `deleteDuplicateData(tL)`: marks the slots to delete in place, then filters them out. */
  method DeleteDuplicateData(lines: seq<string>) returns (result: seq<string>)
    ensures result == Dedup36(lines)
  {
    var n := |lines|;
    var tL := new Slot[n](k requires 0 <= k < n => Line(lines[k]));
    ghost var f := 0;
    for i := 0 to n
      invariant Scanned(lines, tL[..], i, f)
    {
      if tL[i] == Deleted {
        // deleted while handling an earlier run
        SkipDeleted(lines, tL[..], i, f);
      } else if i == n - 1 {
        // the last record ends the scan
        LastSlot(lines, tL[..], i, f);
        f := n;
        break;
      } else if i == 0 {
        ghost var t := tL[..];
        var j := FirstRun(tL, lines);
        HeadStep(lines, t, j);
        f := if j == 0 then 1 else j;
      } else {
        ghost var t := tL[..];
        MiddleRun(tL, lines, i);
        MiddleStep(lines, t, i, f);
        f := Frontier(lines, i);
      }
    }
    var settled := tL[..];
    assert forall k :: 0 <= k < n ==> settled[k] == Expected(lines, k);
    result := FilterDeleted(settled, lines);
  }

  /** `filter(lambda x: x != 0, tL)`: the lines of the slots not deleted, in order. */
  method FilterDeleted(settled: seq<Slot>, ghost lines: seq<string>) returns (result: seq<string>)
    requires |settled| == |lines|
    requires forall k :: 0 <= k < |lines| ==> settled[k] == Expected(lines, k)
    ensures result == Dedup36(lines)
  {
    result := [];
    for k := 0 to |settled|
      invariant result == Select(lines[..k], Mask(lines)[..k])
    {
      SelectSnoc(lines, Mask(lines), k);
      if settled[k] != Deleted {
        result := result + [settled[k].text];
      }
    }
    assert lines[..|lines|] == lines && Mask(lines)[..|lines|] == Mask(lines);
  }

  /** The slot a finished scan leaves at k. */
  ghost function Expected(s: seq<string>, k: int): Slot
    requires 0 <= k < |s|
  {
    if Mask(s)[k] then Line(s[k]) else Deleted
  }

  /**
   * The state of the working list when the outer loop reaches slot i: slots
   * below the frontier f are settled, slots from i up to f were deleted by
   * the run last handled, and slots from f on are untouched.
   */
  ghost predicate Scanned(s: seq<string>, t: seq<Slot>, i: int, f: int) {
    && |t| == |s|
    && 0 <= i <= f <= |s|
    && (i == 0 <==> f == 0)
    && (f >= 1 ==> Mask(s)[f..] == MiddleMask(s, f))
    && (forall k :: 0 <= k < f ==> t[k] == Expected(s, k))
    && (forall k :: i <= k < f ==> t[k] == Deleted)
    && (forall k :: f <= k < |s| ==> t[k] == Line(s[k]))
  }

  lemma SkipDeleted(s: seq<string>, t: seq<Slot>, i: int, f: int)
    requires Scanned(s, t, i, f) && i < |s| && t[i] == Deleted
    ensures Scanned(s, t, i + 1, f)
  {
  }

  /** The scan stops at the last slot, which it keeps. */
  lemma LastSlot(s: seq<string>, t: seq<Slot>, i: int, f: int)
    requires Scanned(s, t, i, f) && i == |s| - 1 && t[i] != Deleted
    ensures forall k :: 0 <= k < |s| ==> t[k] == Expected(s, k)
  {
    assert f == i;
    if f >= 1 {
      assert MiddleMask(s, f) == [true] + MiddleMask(s, |s|);
      assert Mask(s)[|s| - 1] == Mask(s)[f..][0];
    }
  }

  /** Case D leaves the head run settled and hands over to the middle scan. */
  lemma HeadStep(s: seq<string>, t: seq<Slot>, j: int)
    requires Scanned(s, t, 0, 0) && |s| >= 2
    requires j == RunEnd(s, 0)
    ensures Scanned(s, AfterHead(t, j), 1, if j == 0 then 1 else j)
  {
    HeadMask(s);
  }

  /** The middle scan at an undeleted slot i leaves its run settled. */
  lemma MiddleStep(s: seq<string>, t: seq<Slot>, i: int, f: int)
    requires Scanned(s, t, i, f) && 1 <= i < |s| - 1 && t[i] != Deleted
    ensures Scanned(s, AfterRun(t, s, i), i + 1, Frontier(s, i))
  {
    assert f == i;
    MaskStep(s, i);
    var t', F := AfterRun(t, s, i), Frontier(s, i);
    forall k | 0 <= k < F ensures t'[k] == Expected(s, k) {
      if k == i {
        assert t[i] == Line(s[i]);
      }
    }
    forall k | i + 1 <= k < F ensures t'[k] == Deleted {
    }
    forall k | F <= k < |s| ensures t'[k] == Line(s[k]) {
    }
  }

  /** The working list after case D deleted the slots below j. */
  ghost function AfterHead(t: seq<Slot>, j: int): seq<Slot> {
    seq(|t|, k requires 0 <= k < |t| => if k < j then Deleted else t[k])
  }

  /** The working list after the middle scan handled the run starting at i. */
  ghost function AfterRun(t: seq<Slot>, s: seq<string>, i: int): seq<Slot>
    requires 1 <= i < |s|
  {
    seq(|t|, k requires 0 <= k < |t| =>
      if k == i then (if KeepsStart(s, i) then t[k] else Deleted)
      else if i < k < Frontier(s, i) then Deleted
      else t[k])
  }

  /** Case D (i == 0): deletes the head run but its last record; returns that record's index. */
  method FirstRun(tL: array<Slot>, ghost s: seq<string>) returns (j: int)
    requires tL.Length == |s| >= 2
    requires forall k :: 0 <= k < |s| ==> tL[k] == Line(s[k])
    modifies tL
    ensures j == RunEnd(s, 0)
    ensures tL[..] == AfterHead(old(tL[..]), j)
  {
    j := 0;
    while j + 1 < tL.Length && SlotEquals(tL[j], tL[j + 1]) == Some(true)
      invariant 0 <= j < tL.Length
      invariant forall k :: 0 <= k < j ==> Linked(s, k) && tL[k] == Deleted
      invariant forall k :: j <= k < |s| ==> tL[k] == Line(s[k])
      decreases tL.Length - j
    {
      tL[j] := Deleted;
      j := j + 1;
    }
    RunEndIs(s, 0, j);
  }

  /**
   * The scan of the middle of the list at an undeleted slot i: finds the run
   * from i, then deletes all of it but its last record (case C) or all of it
   * but its first (case B through the handler, and the run at the end).
   */
  method MiddleRun(tL: array<Slot>, ghost s: seq<string>, i: int)
    requires tL.Length == |s| && 1 <= i < |s| - 1
    requires forall k :: i <= k < |s| ==> tL[k] == Line(s[k])
    modifies tL
    ensures tL[..] == AfterRun(old(tL[..]), s, i)
  {
    var n := tL.Length;
    var cur := i;
    var j := i;
    var raised := false;
    while true
      invariant i <= j < n && cur == i && !raised
      invariant forall k :: i <= k < j ==> Linked(s, k)
      invariant tL[..] == old(tL[..])
      decreases n - j
    {
      // `tL[j+1]` past the end raises IndexError
      var eq := if j + 1 < n then SlotEquals(tL[j], tL[j + 1]) else None;
      if eq == Some(true) {
        j := j + 1;
      } else if eq.None? {
        raised := true;
        assert j == n - 1 || !CaseC(s, j);
        break;
      } else if j == cur {
        break;
      } else {
        if Adjacent(SlotFrame(tL[j]), SlotFrame(tL[j + 1])) {
          // case C: delete current_i .. j-1
          assert CaseC(s, j);
          cur := DeleteUpward(tL, cur, j);
        } else {
          // case B: the misspelt list raises NameError before deleting anything,
          // and `abs` on the sentinel string raises TypeError
          assert !CaseC(s, j);
          raised := true;
        }
        break;
      }
    }
    RunEndIs(s, i, j);
    if raised && j != cur {
      // the handler deletes current_i+1 .. j
      DeleteDownward(tL, cur, j - cur);
      assert Frontier(s, i) == j + 1 && KeepsStart(s, i);
    } else if j == i {
      assert Frontier(s, i) == i + 1 && KeepsStart(s, i);
    } else {
      assert Frontier(s, i) == j && !KeepsStart(s, i);
    }
    assert forall k :: 0 <= k < n ==> tL[k] == AfterRun(old(tL[..]), s, i)[k];
  }

  /** Case C's loop: `tL[current_i] = 0` while `current_i < j`, counting up; returns the final `current_i`. */
  method DeleteUpward(tL: array<Slot>, cur: int, j: int) returns (last: int)
    requires 0 <= cur <= j <= tL.Length
    modifies tL
    ensures last == j
    ensures forall k :: 0 <= k < tL.Length ==> tL[k] == (if cur <= k < j then Deleted else old(tL[k]))
  {
    last := cur;
    while last < j
      invariant cur <= last <= j
      invariant forall k :: 0 <= k < tL.Length ==> tL[k] == (if cur <= k < last then Deleted else old(tL[k]))
    {
      tL[last] := Deleted;
      last := last + 1;
    }
  }

  /** The handler's loop: `tL[current_i + duplication_number] = 0` while `duplication_number > 0`, counting down. */
  method DeleteDownward(tL: array<Slot>, cur: int, number: int)
    requires 0 <= cur && 0 <= number && cur + number < tL.Length
    modifies tL
    ensures forall k :: 0 <= k < tL.Length ==> tL[k] == (if cur < k <= cur + number then Deleted else old(tL[k]))
  {
    var dn := number;
    while dn > 0
      invariant 0 <= dn <= number
      invariant forall k :: 0 <= k < tL.Length ==> tL[k] == (if cur + dn < k <= cur + number then Deleted else old(tL[k]))
    {
      tL[cur + dn] := Deleted;
      dn := dn - 1;
    }
  }

  // ------------------------------------------------------------ unfolding the mask

  /** Where the middle scan resumes after handling the run that starts at i. */
  function Frontier(s: seq<string>, i: int): (f: int)
    requires 1 <= i < |s|
    ensures i < f <= |s|
  {
    var j := RunEnd(s, i);
    if j == i then i + 1
    else if j == |s| - 1 then |s|
    else if CaseC(s, j) then j
    else j + 1
  }

  /** Whether the middle scan from i keeps slot i: only case C deletes it. */
  predicate KeepsStart(s: seq<string>, i: int)
    requires 1 <= i < |s|
  {
    var j := RunEnd(s, i);
    j == i || j == |s| - 1 || !CaseC(s, j)
  }

  lemma RunEndIs(s: seq<string>, i: int, j: int)
    requires 0 <= i <= j < |s|
    requires forall k :: i <= k < j ==> Linked(s, k)
    requires !Linked(s, j)
    ensures RunEnd(s, i) == j
    decreases j - i
  {
    if i < j {
      RunEndIs(s, i + 1, j);
    }
  }

  lemma MiddleUnfold(s: seq<string>, i: int)
    requires 1 <= i < |s|
    ensures MiddleMask(s, i)[0] == KeepsStart(s, i)
    ensures forall d :: 1 <= d < Frontier(s, i) - i ==> !MiddleMask(s, i)[d]
    ensures MiddleMask(s, i)[Frontier(s, i) - i..] == MiddleMask(s, Frontier(s, i))
  {
    var j := RunEnd(s, i);
    var m := MiddleMask(s, i);
    if j == i {
      assert m[1..] == MiddleMask(s, i + 1);
    } else if j == |s| - 1 {
      assert m == [true] + Falses(j - i);
    } else if CaseC(s, j) {
      var tail := MiddleMask(s, j);
      assert m == Falses(j - i) + tail;
      assert m[j - i..] == tail;
    } else {
      var tail := MiddleMask(s, j + 1);
      assert m == [true] + Falses(j - i) + tail;
      assert m[j + 1 - i..] == tail;
    }
  }

  /** One step of the middle scan, read on the whole mask. */
  lemma MaskStep(s: seq<string>, i: int)
    requires 1 <= i < |s|
    requires Mask(s)[i..] == MiddleMask(s, i)
    ensures Mask(s)[i] == KeepsStart(s, i)
    ensures forall k :: i < k < Frontier(s, i) ==> !Mask(s)[k]
    ensures Mask(s)[Frontier(s, i)..] == MiddleMask(s, Frontier(s, i))
  {
    MiddleUnfold(s, i);
    forall k | i <= k < |s| ensures Mask(s)[k] == MiddleMask(s, i)[k - i] {
      assert Mask(s)[k] == Mask(s)[i..][k - i];
    }
    assert Mask(s)[Frontier(s, i)..] == Mask(s)[i..][Frontier(s, i) - i..];
  }

  /** How case D starts the middle scan. */
  lemma HeadMask(s: seq<string>)
    requires |s| >= 2
    ensures var j := RunEnd(s, 0);
            var f := if j == 0 then 1 else j;
            Mask(s)[f..] == MiddleMask(s, f)
            && (forall k :: 0 <= k < j ==> !Mask(s)[k])
            && (j == 0 ==> Mask(s)[0])
  {
    var j := RunEnd(s, 0);
    if j == 0 {
      assert Mask(s) == [true] + MiddleMask(s, 1);
    } else {
      assert Mask(s) == Falses(j) + MiddleMask(s, j);
    }
  }

  // ------------------------------------------------------------ runs

  /** [a, b] is a maximal run: every neighbour pair inside compares equal, none across its ends. */
  predicate IsMaximalRun(s: seq<string>, a: int, b: int) {
    && 0 <= a <= b < |s|
    && !Linked(s, a - 1)
    && (forall k :: a <= k < b ==> Linked(s, k))
    && !Linked(s, b)
  }

  /** The one record of a maximal run that survives. */
  function Survivor(s: seq<string>, a: int, b: int): (k: int)
    requires IsMaximalRun(s, a, b)
    ensures a <= k <= b
  {
    if a == 0 then b
    else if b == |s| - 1 || a == b || !CaseC(s, b) then a
    else b
  }

  /** The first index of the run holding k. */
  function RunStart(s: seq<string>, k: int): (a: int)
    requires 0 <= k < |s|
    ensures 0 <= a <= k
    ensures !Linked(s, a - 1)
    ensures forall p :: a <= p < k ==> Linked(s, p)
  {
    if k > 0 && Linked(s, k - 1) then RunStart(s, k - 1) else k
  }

  /** Every record lies in a maximal run, from `RunStart` to `RunEnd`. */
  lemma InRun(s: seq<string>, k: int)
    requires 0 <= k < |s|
    ensures IsMaximalRun(s, RunStart(s, k), RunEnd(s, k))
  {
  }

  /** One step of the middle scan before the start of a run stays at or before it. */
  lemma ScanStep(s: seq<string>, i: int, a: int) returns (f: int)
    requires 1 <= i < a < |s|
    requires !Linked(s, a - 1)
    requires Mask(s)[i..] == MiddleMask(s, i)
    ensures i < f <= a
    ensures Mask(s)[f..] == MiddleMask(s, f)
  {
    MaskStep(s, i);
    f := Frontier(s, i);
  }

  /** The middle scan meets every run that does not start the list at its first record. */
  lemma MaskAtRunStart(s: seq<string>, a: int)
    requires 1 <= a < |s|
    requires !Linked(s, a - 1)
    ensures Mask(s)[a..] == MiddleMask(s, a)
  {
    HeadMask(s);
    var j := RunEnd(s, 0);
    var i := if j == 0 then 1 else j;
    while i < a
      invariant 1 <= i <= a
      invariant Mask(s)[i..] == MiddleMask(s, i)
      decreases a - i
    {
      i := ScanStep(s, i, a);
    }
  }

  /**
   * Each maximal run is reduced to exactly one record: the last for the run
   * at the head of the list, the first for a run reaching the end, and in the
   * middle the last when the next record's frame is adjacent (case C), else
   * the first.
   */
  lemma RunKeepsOneRecord(s: seq<string>, a: int, b: int)
    requires IsMaximalRun(s, a, b)
    ensures forall k :: a <= k <= b ==> (Mask(s)[k] <==> k == Survivor(s, a, b))
  {
    RunEndIs(s, a, b);
    if a == 0 {
      if |s| >= 2 {
        HeadMask(s);
        if b >= 1 {
          MiddleUnfold(s, b);
          RunEndIs(s, b, b);
          assert Mask(s)[b] == Mask(s)[b..][0];
        }
      }
    } else {
      MaskAtRunStart(s, a);
      MaskStep(s, a);
      if Frontier(s, a) == b {
        MaskStep(s, b);
        RunEndIs(s, b, b);
      }
    }
  }

  /** A record that compares equal to neither neighbour is never removed. */
  lemma LoneRecordKept(s: seq<string>, k: int)
    requires 0 <= k < |s|
    requires !Linked(s, k - 1) && !Linked(s, k)
    ensures Mask(s)[k]
  {
    RunKeepsOneRecord(s, k, k);
  }

  /** A list of at most one record comes back unchanged. */
  lemma ShortListUnchanged(s: seq<string>)
    requires |s| <= 1
    ensures Dedup36(s) == s
  {
    SelectAll(s, Mask(s));
  }

  // ------------------------------------------------------------ well-formed lists

  /** Every line has at least the four tokens the equality test reads. */
  predicate WellFormedLines(s: seq<string>) {
    forall k :: 0 <= k < |s| ==> |Split(s[k])| >= 4
  }

  /** Records along a run all carry the same coordinate tokens. */
  lemma {:induction false} RunSharesCoordinates(s: seq<string>, p: int, q: int)
    requires WellFormedLines(s)
    requires 0 <= p <= q < |s|
    requires forall k :: p <= k < q ==> Linked(s, k)
    ensures IsRecordEquals43(s[p], s[q])
    decreases q - p
  {
    if p < q {
      RunSharesCoordinates(s, p + 1, q);
      assert Linked(s, p);
    }
  }

  /**
   * For well-formed lines no two neighbours of the output have equal
   * coordinates: the survivors of two consecutive runs differ.
   */
  lemma NoAdjacentDuplicates(s: seq<string>, i: int)
    requires WellFormedLines(s)
    requires 0 <= i < |Dedup36(s)| - 1
    ensures !IsRecordEquals43(Dedup36(s)[i], Dedup36(s)[i + 1])
  {
    var m := Mask(s);
    var ks := Kept(m);
    SelectIsSubsequence(s, m);
    var x, y := ks[i], ks[i + 1];
    NeighboursInNeighbourRuns(s, i);
    var b := RunEnd(s, x);
    RunSharesCoordinates(s, x, b);
    RunSharesCoordinates(s, b + 1, y);
    EqualsAgree(s[b], s[b + 1]);
  }

  /**
   * Two neighbours of the output come from two neighbouring runs: the run
   * holding the first ends just before the run holding the second starts.
   */
  lemma NeighboursInNeighbourRuns(s: seq<string>, i: int)
    requires 0 <= i < |Kept(Mask(s))| - 1
    ensures var x, y := Kept(Mask(s))[i], Kept(Mask(s))[i + 1];
            RunEnd(s, x) < y && forall k :: RunEnd(s, x) + 1 <= k < y ==> Linked(s, k)
  {
    var ks := Kept(Mask(s));
    var x, y := ks[i], ks[i + 1];
    KeptNeighbours(Mask(s), i);
    KeptPastRun(s, x, y);
    InRun(s, x);
    NextRunReaches(s, RunEnd(s, x), y);
  }

  /** A later surviving record lies past the end of an earlier survivor's run. */
  lemma KeptPastRun(s: seq<string>, x: int, y: int)
    requires 0 <= x < y < |s| && Mask(s)[x] && Mask(s)[y]
    ensures RunEnd(s, x) < y
  {
    var a, b := RunStart(s, x), RunEnd(s, x);
    InRun(s, x);
    RunKeepsOneRecord(s, a, b);
  }

  /**
   * When nothing survives between the end of one run and a surviving record
   * y, the run after it reaches y.
   */
  lemma NextRunReaches(s: seq<string>, b: int, y: int)
    requires 0 <= b < y < |s| && !Linked(s, b) && Mask(s)[y]
    requires forall k :: b < k < y ==> !Mask(s)[k]
    ensures forall k :: b + 1 <= k < y ==> Linked(s, k)
  {
    var e := RunEnd(s, b + 1);
    InRun(s, b + 1);
    assert RunStart(s, b + 1) == b + 1;
    RunKeepsOneRecord(s, b + 1, e);
    var z := Survivor(s, b + 1, e);
    assert Mask(s)[z];
    assert y <= z;
  }

  /** On well-formed lines neighbours of the output are not linked. */
  lemma OutputUnlinked(s: seq<string>, k: int)
    requires WellFormedLines(s)
    requires 0 <= k < |Dedup36(s)| - 1
    ensures !Linked(Dedup36(s), k)
  {
    var t := Dedup36(s);
    SelectIsSubsequence(s, Mask(s));
    assert |Split(t[k])| >= 4 && |Split(t[k + 1])| >= 4;
    NoAdjacentDuplicates(s, k);
    EqualsAgree(t[k], t[k + 1]);
  }

  /** On well-formed lines a second pass removes nothing. */
  lemma Idempotent(s: seq<string>)
    requires WellFormedLines(s)
    ensures Dedup36(Dedup36(s)) == Dedup36(s)
  {
    var t := Dedup36(s);
    forall k | 0 <= k < |t| ensures Mask(t)[k] {
      OutputKept(s, k);
    }
    SelectAll(t, Mask(t));
  }

  /** A second pass keeps every record of the output. */
  lemma OutputKept(s: seq<string>, k: int)
    requires WellFormedLines(s)
    requires 0 <= k < |Dedup36(s)|
    ensures Mask(Dedup36(s))[k]
  {
    var t := Dedup36(s);
    if k > 0 {
      OutputUnlinked(s, k - 1);
    }
    if k + 1 < |t| {
      OutputUnlinked(s, k);
    }
    LoneRecordKept(t, k);
  }
}
