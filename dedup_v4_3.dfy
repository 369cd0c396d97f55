/**
 * The duplicate remover of the v4.3 exporter: a record is dropped when it
 * compares equal to the record just before it in the input, so each run of
 * equal neighbours collapses onto its first record.
 */
module NeighborDedup {
  import opened Text
  import opened Records
  import opened Selection

  /** Which records survive: the first, and each that differs from its predecessor. */
  function KeepMask(s: seq<string>): (m: seq<bool>)
    ensures |m| == |s|
  {
    seq(|s|, i requires 0 <= i < |s| => i == 0 || !IsRecordEquals43(s[i], s[i - 1]))
  }

  /** What `deleteDuplicateData` returns. */
  function Dedup43(s: seq<string>): seq<string> {
    Select(s, KeepMask(s))
  }

  /** `deleteDuplicateData(tL)`: appends each surviving record to a fresh list. */
  method DeleteDuplicateData(tL: seq<string>) returns (filtered: seq<string>)
    ensures filtered == Dedup43(tL)
  {
    if |tL| == 0 {
      return [];
    }
    filtered := [tL[0]];
    SelectSnoc(tL, KeepMask(tL), 0);
    for i := 1 to |tL|
      invariant filtered == Select(tL[..i], KeepMask(tL)[..i])
    {
      SelectSnoc(tL, KeepMask(tL), i);
      assert KeepMask(tL)[i] == !IsRecordEquals43(tL[i], tL[i - 1]);
      if !IsRecordEquals43(tL[i], tL[i - 1]) {
        filtered := filtered + [tL[i]];
      }
    }
    assert tL[..|tL|] == tL && KeepMask(tL)[..|tL|] == KeepMask(tL);
  }

  /** Empty input gives empty output, and the first record always survives, in front. */
  lemma FirstKept(s: seq<string>)
    ensures s == [] ==> Dedup43(s) == []
    ensures s != [] ==> |Dedup43(s)| > 0 && Dedup43(s)[0] == s[0]
  {
    if s != [] {
      SelectFirst(s, KeepMask(s));
    }
  }

  /** Records along a chain of equal neighbours all compare equal to its first. */
  lemma {:induction false} ChainEqual(s: seq<string>, p: int, q: int)
    requires 0 <= p < q < |s|
    requires forall k :: p < k <= q ==> IsRecordEquals43(s[k], s[k - 1])
    ensures IsRecordEquals43(s[p], s[q])
    decreases q - p
  {
    if p + 1 < q {
      ChainEqual(s, p, q - 1);
      Equals43Transitive(s[p], s[q - 1], s[q]);
    } else {
      Equals43Symmetric(s[q], s[p]);
    }
  }

  /** No two neighbours of the output compare equal, whatever the input. */
  lemma NoAdjacentDuplicates(s: seq<string>, i: int)
    requires 0 <= i < |Dedup43(s)| - 1
    ensures !IsRecordEquals43(Dedup43(s)[i], Dedup43(s)[i + 1])
  {
    var m := KeepMask(s);
    SelectIsSubsequence(s, m);
    KeptNeighbours(m, i);
    var x, y := Kept(m)[i], Kept(m)[i + 1];
    DroppedBetween(s, x, y);
    ChainThenDiffer(s, x, y);
  }

  /** Reading the flags: between two survivors every record equals its predecessor. */
  lemma DroppedBetween(s: seq<string>, x: int, y: int)
    requires 0 <= x < y < |s|
    requires KeepMask(s)[y]
    requires forall k :: x < k < y ==> !KeepMask(s)[k]
    ensures !IsRecordEquals43(s[y], s[y - 1])
    ensures forall k :: x < k < y ==> IsRecordEquals43(s[k], s[k - 1])
  {
    KeptAt(s, y);
    forall k | x < k < y ensures IsRecordEquals43(s[k], s[k - 1]) {
      KeptAt(s, k);
    }
  }

  /** Past the first record, a record survives exactly when it differs from its predecessor. */
  lemma KeptAt(s: seq<string>, k: int)
    requires 0 < k < |s|
    ensures KeepMask(s)[k] <==> !IsRecordEquals43(s[k], s[k - 1])
  {
  }

  /** A record that differs from its predecessor differs from the whole chain before it. */
  lemma ChainThenDiffer(s: seq<string>, x: int, y: int)
    requires 0 <= x < y < |s|
    requires !IsRecordEquals43(s[y], s[y - 1])
    requires forall k :: x < k < y ==> IsRecordEquals43(s[k], s[k - 1])
    ensures !IsRecordEquals43(s[x], s[y])
  {
    Equals43Symmetric(s[x], s[y]);
    if x < y - 1 {
      ChainEqual(s, x, y - 1);
      if IsRecordEquals43(s[y], s[x]) {
        Equals43Transitive(s[y], s[x], s[y - 1]);
      }
    }
  }

  /** A second pass removes nothing. */
  lemma Idempotent(s: seq<string>)
    ensures Dedup43(Dedup43(s)) == Dedup43(s)
  {
    var t := Dedup43(s);
    forall k | 0 < k < |t| ensures !IsRecordEquals43(t[k], t[k - 1]) {
      NoAdjacentDuplicates(s, k - 1);
    }
    SelectAll(t, KeepMask(t));
  }
  /**
   * Nothing but duplicates is lost: every input record either reaches the
   * output itself or compares equal to an output record taken from earlier
   * in the input.
   */
  lemma OnlyDuplicatesDropped(s: seq<string>, k: int)
    requires 0 <= k < |s|
    ensures |Kept(KeepMask(s))| == |Dedup43(s)|
    ensures exists i :: (0 <= i < |Dedup43(s)| && Kept(KeepMask(s))[i] <= k &&
                         (Dedup43(s)[i] == s[k] || IsRecordEquals43(Dedup43(s)[i], s[k])))
  {
    var m := KeepMask(s);
    var x := LastKeptUpTo(s, k);
    SelectIsSubsequence(s, m);
    assert x in Kept(m);
    var i :| 0 <= i < |Kept(m)| && Kept(m)[i] == x;
    if x < k {
      forall j | x < j <= k ensures IsRecordEquals43(s[j], s[j - 1]) {
        KeptAt(s, j);
      }
      ChainEqual(s, x, k);
    }
    assert Dedup43(s)[i] == s[x];
  }

  /** The last survivor at or before index `k`; the first record always is one. */
  lemma {:induction false} LastKeptUpTo(s: seq<string>, k: int) returns (x: int)
    requires 0 <= k < |s|
    ensures 0 <= x <= k && KeepMask(s)[x]
    ensures forall j :: x < j <= k ==> !KeepMask(s)[j]
    decreases k
  {
    if KeepMask(s)[k] {
      x := k;
    } else {
      x := LastKeptUpTo(s, k - 1);
    }
  }
}
