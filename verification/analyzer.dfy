/** The anomaly filter `detect_anomalies` of analayzer.cpp: the indices of
    the samples that exceed a multiple of the series mean, written in
    ascending order into a caller-owned array of bounded capacity. */
module Analyzer {
  import opened Wrappers
  import opened Order

  /** `mean * multiplier`, the mean taken over the first `count` samples. */
  function Threshold(s: seq<real>, count: nat, multiplier: real): real
    requires 0 < count <= |s|
  {
    (Sum(s[..count]) / count as real) * multiplier
  }

  /** The indices below `i` whose sample exceeds `threshold`, in the order
      a left-to-right scan meets them. */
  function MatchesBelow(s: seq<real>, threshold: real, i: nat): (r: seq<int>)
    requires i <= |s|
    ensures |r| <= i
  {
    if i == 0 then []
    else MatchesBelow(s, threshold, i - 1) + (if s[i - 1] > threshold then [i - 1] else [])
  }

  /** Every listed index lies below `i` and names a sample above the threshold. */
  lemma {:induction false} MatchesSound(s: seq<real>, threshold: real, i: nat)
    requires i <= |s|
    ensures forall k :: 0 <= k < |MatchesBelow(s, threshold, i)| ==>
      0 <= MatchesBelow(s, threshold, i)[k] < i && s[MatchesBelow(s, threshold, i)[k]] > threshold
  {
    if i > 0 {
      MatchesSound(s, threshold, i - 1);
    }
  }

  /** The listed indices are strictly increasing. */
  lemma {:induction false} MatchesIncreasing(s: seq<real>, threshold: real, i: nat)
    requires i <= |s|
    ensures forall a, b :: 0 <= a < b < |MatchesBelow(s, threshold, i)| ==>
      MatchesBelow(s, threshold, i)[a] < MatchesBelow(s, threshold, i)[b]
  {
    if i > 0 {
      MatchesIncreasing(s, threshold, i - 1);
      MatchesSound(s, threshold, i - 1);
    }
  }

  /** Every index below `i` whose sample is above the threshold is listed. */
  lemma {:induction false} MatchesComplete(s: seq<real>, threshold: real, i: nat)
    requires i <= |s|
    ensures forall j :: 0 <= j < i && s[j] > threshold ==> j in MatchesBelow(s, threshold, i)
  {
    if i > 0 {
      MatchesComplete(s, threshold, i - 1);
    }
  }

  /** Scanning further only appends: the matches below `i` are a prefix of
      the matches below any `j >= i`. */
  lemma {:induction false} MatchesPrefix(s: seq<real>, threshold: real, i: nat, j: nat)
    requires i <= j <= |s|
    ensures |MatchesBelow(s, threshold, i)| <= |MatchesBelow(s, threshold, j)|
    ensures MatchesBelow(s, threshold, i) ==
            MatchesBelow(s, threshold, j)[..|MatchesBelow(s, threshold, i)|]
    decreases j - i
  {
    if i < j {
      MatchesPrefix(s, threshold, i, j - 1);
      var a := MatchesBelow(s, threshold, i);
      var b := MatchesBelow(s, threshold, j - 1);
      assert MatchesBelow(s, threshold, j)[..|b|] == b;
      assert b[..|a|] == a;
    }
  }

  /** `out_indices[written++] = i` for a matching sample. */
  method Append(out: seq<int>, written: nat, index: int) returns (out': seq<int>)
    requires written < |out|
    ensures |out'| == |out|
    ensures out'[..written + 1] == out[..written] + [index]
    ensures out'[written + 1..] == out[written + 1..]
  {
    out' := out[written := index];
    assert out'[..written + 1] == out[..written] + [index];
  }

  /** The scanning loop `for (i = 0; i < count && written < max_out; ++i)`:
      it stops at the end of the samples or when the output is full, having
      written exactly the matches below the index where it stopped. */
  method Scan(s: seq<real>, count: nat, threshold: real, out0: seq<int>, maxOut: nat)
    returns (i: nat, written: nat, out: Option<seq<int>>)
    requires count <= |s| && maxOut <= |out0|
    ensures i <= count && (i == count || written == maxOut)
    ensures written == |MatchesBelow(s, threshold, i)| <= maxOut
    ensures out.Some? && |out.value| == |out0|
    ensures out.value[..written] == MatchesBelow(s, threshold, i)
    ensures out.value[written..] == out0[written..]
  {
    var buffer := out0;
    written := 0;
    i := 0;
    while i < count && written < maxOut
      invariant 0 <= i <= count
      invariant written == |MatchesBelow(s, threshold, i)| <= maxOut
      invariant |buffer| == |out0|
      invariant buffer[..written] == MatchesBelow(s, threshold, i)
      invariant buffer[written..] == out0[written..]
    {
      if s[i] > threshold {
        buffer := Append(buffer, written, i);
        written := written + 1;
      }
      i := i + 1;
    }
    out := Some(buffer);
  }

  /** `detect_anomalies`'s argument check. */
  predicate DetectArgsValid(buf: Option<seq<real>>, count: int, outIndices: Option<seq<int>>, maxOut: int) {
    buf.Some? && count > 0 && outIndices.Some? && maxOut > 0
  }

  /** `detect_anomalies(buf, count, multiplier, out_indices, max_out)`.
      `buf` and `outIndices` are the cells behind the two pointers; the
      method returns the count and the new contents of the output cells. */
  method DetectAnomalies(buf: Option<seq<real>>, count: int, multiplier: real,
                         outIndices: Option<seq<int>>, maxOut: int)
    returns (written: int, outIndices': Option<seq<int>>)
    requires buf.Some? ==> count <= |buf.value|
    requires outIndices.Some? ==> maxOut <= |outIndices.value|
    ensures !DetectArgsValid(buf, count, outIndices, maxOut) ==>
      written == 0 && outIndices' == outIndices
    ensures DetectArgsValid(buf, count, outIndices, maxOut) ==>
      var matches := MatchesBelow(buf.value, Threshold(buf.value, count, multiplier), count);
      && written == Min(maxOut, |matches|)
      && outIndices'.Some?
      && |outIndices'.value| == |outIndices.value|
      && outIndices'.value[..written] == matches[..written]
      && outIndices'.value[written..] == outIndices.value[written..]
  {
    if !DetectArgsValid(buf, count, outIndices, maxOut) {
      return 0, outIndices;
    }
    var s := buf.value;
    var sum := SumPrefix(s, count);
    var mean := sum / count as real;
    var threshold := mean * multiplier;
    assert threshold == Threshold(s, count, multiplier);
    var i;
    i, written, outIndices' := Scan(s, count, threshold, outIndices.value, maxOut);
    MatchesPrefix(s, threshold, i, count);
  }

  /** What the caller reads back: at most `max_out` and at most `count`
      indices, strictly increasing, each in `[0, count)` and naming a sample
      above the threshold; and when fewer than `max_out` are reported, every
      matching index is among them. */
  lemma ReportedIndices(s: seq<real>, count: nat, multiplier: real, maxOut: nat, out: seq<int>, written: nat)
    requires 0 < count <= |s|
    requires written <= |out|
    requires written == Min(maxOut, |MatchesBelow(s, Threshold(s, count, multiplier), count)|)
    requires out[..written] == MatchesBelow(s, Threshold(s, count, multiplier), count)[..written]
    ensures written <= maxOut && written <= count
    ensures forall k :: 0 <= k < written ==>
      0 <= out[k] < count && s[out[k]] > Threshold(s, count, multiplier)
    ensures forall a, b :: 0 <= a < b < written ==> out[a] < out[b]
    ensures written < maxOut ==>
      forall j :: 0 <= j < count && s[j] > Threshold(s, count, multiplier) ==> j in out[..written]
  {
    var t := Threshold(s, count, multiplier);
    var m := MatchesBelow(s, t, count);
    MatchesSound(s, t, count);
    MatchesIncreasing(s, t, count);
    MatchesComplete(s, t, count);
    assert forall k :: 0 <= k < written ==> out[k] == out[..written][k] == m[k];
    if written < maxOut {
      assert out[..written] == m;
    }
  }

  /** Four samples of 1 and one of 16 average 4; with multiplier 2 only the
      last sample (index 4) exceeds the threshold 8. */
  lemma SingleSpikeFlagged(s: seq<real>)
    requires |s| == 5 && s[0] == 1.0 && s[1] == 1.0 && s[2] == 1.0 && s[3] == 1.0 && s[4] == 16.0
    ensures Threshold(s, 5, 2.0) == 8.0
    ensures MatchesBelow(s, Threshold(s, 5, 2.0), 5) == [4]
  {
    assert Sum(s[..5][..1]) == 1.0 by { assert s[..5][..1][..0] == []; }
    assert Sum(s[..5][..2]) == 2.0 by { assert s[..5][..2][..1] == s[..5][..1]; }
    assert Sum(s[..5][..3]) == 3.0 by { assert s[..5][..3][..2] == s[..5][..2]; }
    assert Sum(s[..5][..4]) == 4.0 by { assert s[..5][..4][..3] == s[..5][..3]; }
    assert Sum(s[..5]) == 20.0;
    assert MatchesBelow(s, 8.0, 1) == [];
    assert MatchesBelow(s, 8.0, 2) == [];
    assert MatchesBelow(s, 8.0, 3) == [];
    assert MatchesBelow(s, 8.0, 4) == [];
  }
}
