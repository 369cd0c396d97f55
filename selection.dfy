/**
 * Keeping the elements of a list whose flag is set, in order: the last step
 * of both duplicate removers (`filter` in v3.6, the appends in v4.3).
 */
module Selection {

  /** The elements of `s` whose flag in `m` is set, in their original order. */
  function Select<T>(s: seq<T>, m: seq<bool>): (r: seq<T>)
    requires |m| == |s|
    ensures |r| <= |s|
  {
    if s == [] then []
    else Select(s[..|s| - 1], m[..|m| - 1]) + (if m[|m| - 1] then [s[|s| - 1]] else [])
  }

  /** The positions whose flag is set, in increasing order. */
  function Kept(m: seq<bool>): (ks: seq<nat>)
    ensures forall i :: 0 <= i < |ks| ==> ks[i] < |m| && m[ks[i]]
    ensures forall i, j :: 0 <= i < j < |ks| ==> ks[i] < ks[j]
    ensures forall k :: 0 <= k < |m| && m[k] ==> k in ks
  {
    if m == [] then []
    else
      var ks := Kept(m[..|m| - 1]);
      assert forall k :: 0 <= k < |m| - 1 && m[k] ==> k in ks by {
        forall k | 0 <= k < |m| - 1 && m[k] ensures k in ks {
          assert m[..|m| - 1][k] == m[k];
        }
      }
      ks + (if m[|m| - 1] then [|m| - 1] else [])
  }

  /**
   * `Select` is an order-preserving subsequence: its i-th element is the
   * element at the i-th set position.
   */
  lemma {:induction false} SelectIsSubsequence<T>(s: seq<T>, m: seq<bool>)
    requires |m| == |s|
    ensures |Select(s, m)| == |Kept(m)|
    ensures forall i :: 0 <= i < |Kept(m)| ==> Select(s, m)[i] == s[Kept(m)[i]]
  {
    if s != [] {
      var s', m' := s[..|s| - 1], m[..|m| - 1];
      SelectIsSubsequence(s', m');
      forall i | 0 <= i < |Kept(m')| ensures s'[Kept(m')[i]] == s[Kept(m')[i]] {
      }
    }
  }

  /** Two neighbours in `Kept(m)` have no set position between them. */
  lemma KeptNeighbours(m: seq<bool>, i: int)
    requires 0 <= i < |Kept(m)| - 1
    ensures forall k :: Kept(m)[i] < k < Kept(m)[i + 1] ==> !m[k]
  {
    var ks := Kept(m);
    forall k | ks[i] < k < ks[i + 1] ensures !m[k] {
      forall p | 0 <= p < |ks| ensures ks[p] != k {
        if p < i {
          assert ks[p] < ks[i];
        } else if i + 1 < p {
          assert ks[i + 1] < ks[p];
        }
      }
    }
  }

  /** Selecting with every flag set keeps everything. */
  lemma {:induction false} SelectAll<T>(s: seq<T>, m: seq<bool>)
    requires |m| == |s|
    requires forall k :: 0 <= k < |m| ==> m[k]
    ensures Select(s, m) == s
  {
    if s != [] {
      SelectAll(s[..|s| - 1], m[..|m| - 1]);
      assert s == s[..|s| - 1] + [s[|s| - 1]];
    }
  }

  /** Extending the list by one element extends the selection by at most that element. */
  lemma SelectSnoc<T>(s: seq<T>, m: seq<bool>, k: int)
    requires |m| == |s| && 0 <= k < |s|
    ensures Select(s[..k + 1], m[..k + 1])
            == Select(s[..k], m[..k]) + (if m[k] then [s[k]] else [])
  {
    assert s[..k + 1][..k] == s[..k];
    assert m[..k + 1][..k] == m[..k];
  }

  /** A set first flag keeps the first element in front. */
  lemma SelectFirst<T>(s: seq<T>, m: seq<bool>)
    requires |m| == |s| && |s| > 0 && m[0]
    ensures |Select(s, m)| > 0 && Select(s, m)[0] == s[0]
  {
    SelectIsSubsequence(s, m);
    var ks := Kept(m);
    assert 0 in ks;
    assert ks[0] == 0;
  }
}
