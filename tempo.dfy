/**
 * The reduction of ffmpeg's `bpm` filter output to one tempo: every
 * `BPM:` estimate that reads as a number strictly between 40 and 300 is
 * kept, the kept values are sorted in place, and their median is the
 * detected tempo; no estimate at all gives 0.
 */
module Tempo {
  import opened Wrappers
  import opened Text
  import opened Patterns

  /** The plausible tempo range, both ends excluded. */
  predicate InRange(v: real) { 40.0 < v < 300.0 }

  /** The estimates kept from the captures, in the order they were captured. */
  function Candidates(caps: seq<string>): (vs: seq<real>)
    ensures |vs| <= |caps|
    ensures forall v :: v in vs ==> InRange(v)
  {
    if |caps| == 0 then [] else Candidates(caps[..|caps| - 1]) + Kept(caps[|caps| - 1])
  }

  /** What one capture contributes: its value when it reads as a number in the range, nothing otherwise. */
  function Kept(c: string): (vs: seq<real>)
    ensures |vs| <= 1 && forall v :: v in vs ==> InRange(v)
  {
    var r := ParseNumber(c);
    if r.Some? && InRange(r.value) then [r.value] else []
  }

  /** A value is kept exactly when some capture reads as it and it lies in the range. */
  lemma {:induction false} CandidatesMembership(caps: seq<string>, v: real)
    ensures v in Candidates(caps) <==> InRange(v) && exists c :: c in caps && ParseNumber(c) == Some(v)
  {
    if |caps| > 0 {
      var front := caps[..|caps| - 1];
      var last := caps[|caps| - 1];
      CandidatesMembership(front, v);
      KeptMembership(last, v);
      assert Candidates(caps) == Candidates(front) + Kept(last);
      assert caps == front + [last];
      if InRange(v) && ParseNumber(last) == Some(v) {
        assert last in caps;
      }
      if c :| c in caps && ParseNumber(c) == Some(v) {
        assert c in front || c == last;
      }
    }
  }

  lemma KeptMembership(c: string, v: real)
    ensures v in Kept(c) <==> InRange(v) && ParseNumber(c) == Some(v)
  {
  }

  /** The `foreach` over the matches: each value that parses and lies in the range is appended. */
  method CollectCandidates(caps: seq<string>) returns (kept: seq<real>)
    ensures kept == Candidates(caps)
  {
    kept := [];
    var i := 0;
    while i < |caps|
      invariant 0 <= i <= |caps|
      invariant kept == Candidates(caps[..i])
    {
      CandidatesStep(caps, i);
      kept := KeepIfPlausible(kept, caps[i]);
      i := i + 1;
    }
    assert caps[..i] == caps;
  }

  /** The body of the `foreach`: the capture's value is appended when it parses and lies in the range. */
  method KeepIfPlausible(kept: seq<real>, c: string) returns (kept': seq<real>)
    ensures kept' == kept + Kept(c)
  {
    kept' := kept;
    var r := ParseNumber(c);
    if r.Some? && InRange(r.value) {
      kept' := kept' + [r.value];
    }
  }

  lemma CandidatesStep(caps: seq<string>, i: nat)
    requires i < |caps|
    ensures Candidates(caps[..i + 1]) == Candidates(caps[..i]) + Kept(caps[i])
  {
    assert caps[..i + 1][..i] == caps[..i];
  }

  predicate Sorted(s: seq<real>)
  {
    forall i, j :: 0 <= i < j < |s| ==> s[i] <= s[j]
  }

  /** `x` put into the sorted `s` before the first element above it. */
  function Insert(x: real, s: seq<real>): (t: seq<real>)
    requires Sorted(s)
    ensures Sorted(t) && multiset(t) == multiset(s) + multiset{x}
  {
    if |s| == 0 then [x]
    else if x <= s[0] then
      SortedCons(x, s);
      [x] + s
    else
      var rest := Insert(x, s[1..]);
      TailSorted(s);
      BoundedBelow(s[0], rest, s[1..], x);
      SortedCons(s[0], rest);
      assert s == [s[0]] + s[1..];
      assert multiset([s[0]] + rest) == multiset{s[0]} + multiset(rest);
      [s[0]] + rest
  }

  lemma TailSorted(s: seq<real>)
    requires |s| > 0 && Sorted(s)
    ensures Sorted(s[1..]) && forall k :: 0 <= k < |s| - 1 ==> s[0] <= s[1..][k]
  {
  }

  /** A value at most every element of a sorted list can go in front of it. */
  lemma SortedCons(b: real, s: seq<real>)
    requires Sorted(s) && forall k :: 0 <= k < |s| ==> b <= s[k]
    ensures Sorted([b] + s)
  {
  }

  /** A lower bound of `s` and of `x` bounds every element of a rearrangement of `s` with `x`. */
  lemma BoundedBelow(b: real, t: seq<real>, s: seq<real>, x: real)
    requires multiset(t) == multiset(s) + multiset{x}
    requires b <= x && forall k :: 0 <= k < |s| ==> b <= s[k]
    ensures forall k :: 0 <= k < |t| ==> b <= t[k]
  {
    forall k | 0 <= k < |t|
      ensures b <= t[k]
    {
      assert t[k] in multiset(t);
      if t[k] != x {
        assert t[k] in multiset(s);
        var i :| 0 <= i < |s| && s[i] == t[k];
      }
    }
  }

  /** The ascending order of `s`, as `List<double>.Sort` leaves it. */
  function SortedOf(s: seq<real>): (t: seq<real>)
    ensures Sorted(t) && multiset(t) == multiset(s)
  {
    if |s| == 0 then []
    else
      assert s == [s[0]] + s[1..];
      Insert(s[0], SortedOf(s[1..]))
  }

  /** Two sorted arrangements of the same values are the same sequence. */
  lemma {:induction false} SortedUnique(a: seq<real>, b: seq<real>)
    requires Sorted(a) && Sorted(b) && multiset(a) == multiset(b)
    ensures a == b
  {
    if |a| > 0 {
      SameHead(a, b);
      TailSorted(a);
      TailSorted(b);
      SameTail(a, b);
      SortedUnique(a[1..], b[1..]);
      assert a == [a[0]] + a[1..];
      assert b == [b[0]] + b[1..];
    }
  }

  /** Two sorted arrangements of the same non-empty values have the same length and start with the same (least) value. */
  lemma SameHead(a: seq<real>, b: seq<real>)
    requires |a| > 0 && Sorted(a) && Sorted(b) && multiset(a) == multiset(b)
    ensures |b| == |a| && b[0] == a[0]
  {
    assert |b| == |multiset(b)| == |multiset(a)| == |a|;
    assert a[0] in multiset(b);
    assert b[0] in multiset(a);
    var i :| 0 <= i < |b| && b[i] == a[0];
    var j :| 0 <= j < |a| && a[j] == b[0];
    assert b[0] <= b[i] && a[0] <= a[j];
  }

  lemma SameTail(a: seq<real>, b: seq<real>)
    requires |a| > 0 && |b| > 0 && a[0] == b[0] && multiset(a) == multiset(b)
    ensures multiset(a[1..]) == multiset(b[1..])
  {
    assert a == [a[0]] + a[1..];
    assert b == [b[0]] + b[1..];
    assert multiset(a[1..]) == multiset(a) - multiset{a[0]};
    assert multiset(b[1..]) == multiset(b) - multiset{b[0]};
  }

  /** `List<double>.Sort` on the kept values: an insertion sort by adjacent swaps. */
  method SortInPlace(a: array<real>)
    modifies a
    ensures Sorted(a[..]) && multiset(a[..]) == multiset(old(a[..]))
  {
    var i := 0;
    while i < a.Length
      invariant 0 <= i <= a.Length
      invariant forall p, q :: 0 <= p < q < i ==> a[p] <= a[q]
      invariant multiset(a[..]) == multiset(old(a[..]))
    {
      var j := i;
      while j > 0 && a[j - 1] > a[j]
        invariant 0 <= j <= i
        invariant forall p, q :: 0 <= p < q <= i && p != j && q != j ==> a[p] <= a[q]
        invariant forall q :: j < q <= i ==> a[j] <= a[q]
        invariant multiset(a[..]) == multiset(old(a[..]))
      {
        a[j - 1], a[j] := a[j], a[j - 1];
        j := j - 1;
      }
      i := i + 1;
    }
  }

  /** The middle element of a sorted list, or the mean of the two middle ones when the count is even. */
  function Median(s: seq<real>): (m: real)
    requires |s| > 0 && Sorted(s)
    ensures s[0] <= m <= s[|s| - 1]
  {
    var n := |s|;
    if n % 2 == 0 then (s[n / 2 - 1] + s[n / 2]) / 2.0 else s[n / 2]
  }

  /** The tempo `GetBpmFromAudio` reports for the filter's output: the median of the kept estimates, or 0 when none is kept. */
  function DetectedTempo(output: string): real
  {
    TempoOf(Candidates(BpmCaptures(output, 0)))
  }

  /** The median of the kept estimates in ascending order, or 0 when none is kept. */
  function TempoOf(kept: seq<real>): real
  {
    if |kept| == 0 then 0.0 else Median(SortedOf(kept))
  }

  /** The reduction as the source performs it: collect, sort the list in place, take the median. */
  method ReduceTempo(output: string) returns (bpm: real)
    ensures bpm == DetectedTempo(output)
  {
    var kept := CollectCandidates(BpmCaptures(output, 0));
    bpm := MedianOfKept(kept);
  }

  /** The kept values copied into an array, sorted there, and the middle read off. */
  method MedianOfKept(kept: seq<real>) returns (bpm: real)
    ensures bpm == TempoOf(kept)
  {
    if |kept| == 0 {
      return 0.0;
    }
    var a := new real[|kept|](i requires 0 <= i < |kept| => kept[i]);
    assert a[..] == kept;
    SortInPlace(a);
    SortedUnique(a[..], SortedOf(kept));
    var count := a.Length;
    if count % 2 == 0 {
      bpm := (a[count / 2 - 1] + a[count / 2]) / 2.0;
    } else {
      bpm := a[count / 2];
    }
  }

  /** The first and last of a sorted arrangement of `kept` are its minimum and maximum. */
  lemma SortedExtremes(kept: seq<real>, t: seq<real>)
    requires |t| > 0 && Sorted(t) && multiset(t) == multiset(kept)
    ensures t[0] in kept && t[|t| - 1] in kept
    ensures forall v :: v in kept ==> t[0] <= v <= t[|t| - 1]
  {
    assert t[0] in multiset(kept) && t[|t| - 1] in multiset(kept);
    forall v | v in kept
      ensures t[0] <= v <= t[|t| - 1]
    {
      assert v in multiset(t);
      var k :| 0 <= k < |t| && t[k] == v;
    }
  }

  /** The median of the kept values lies between their minimum and their maximum. */
  lemma MedianBetweenExtremes(kept: seq<real>)
    requires |kept| > 0
    ensures exists lo, hi :: lo in kept && hi in kept && lo <= Median(SortedOf(kept)) <= hi &&
                             (forall v :: v in kept ==> lo <= v <= hi)
  {
    var t := SortedOf(kept);
    assert |t| == |multiset(t)| == |kept|;
    SortedExtremes(kept, t);
    var lo, hi := t[0], t[|t| - 1];
    assert lo <= Median(t) <= hi;
  }

  /** The detected tempo is 0 exactly when no estimate was kept, and otherwise lies strictly between 40 and 300. */
  lemma DetectedTempoRange(output: string)
    ensures DetectedTempo(output) == 0.0 <==> |Candidates(BpmCaptures(output, 0))| == 0
    ensures DetectedTempo(output) != 0.0 ==> InRange(DetectedTempo(output))
  {
    var kept := Candidates(BpmCaptures(output, 0));
    if |kept| > 0 {
      MedianBetweenExtremes(kept);
    }
  }
}
