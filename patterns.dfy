/**
 * The three regular expressions the converter applies to text, written as
 * scanners over positions:
 *
 *  - the clipboard offset pattern `(?<!\d)-?\d+[\.,]\d{3}(?!\d)`, first match;
 *  - the EBU R128 summary pattern `Integrated loudness:\s+I:\s+(-?[\d\.]+)`,
 *    first match, group 1;
 *  - the tempo pattern `BPM:[\s]*([\d\.]+)`, every match, group 1.
 *
 * Each pattern is deterministic under backtracking: every greedy run is
 * followed by a character its own class excludes, so giving characters back
 * never lets the rest of the pattern match. A match attempt at one position
 * therefore has at most one outcome, computed by `...At` below; the
 * leftmost-first search of `Regex.Match` and the left-to-right,
 * non-overlapping search of `Regex.Matches` are the recursive functions.
 */
module Patterns {
  import opened Wrappers
  import opened Numerics
  import opened Text

  /** The characters of the class `[\d\.]`. */
  predicate IsDigitOrPoint(c: char) { IsDigit(c) || c == '.' }

  /** The end of the run of digits that starts at `i`. */
  function DigitRunEnd(s: string, i: nat): (k: nat)
    requires i <= |s|
    ensures i <= k <= |s|
    ensures forall j :: i <= j < k ==> IsDigit(s[j])
    ensures k < |s| ==> !IsDigit(s[k])
    decreases |s| - i
  {
    if i < |s| && IsDigit(s[i]) then DigitRunEnd(s, i + 1) else i
  }

  /** The end of the run of white space that starts at `i`. */
  function WhiteRunEnd(s: string, i: nat): (k: nat)
    requires i <= |s|
    ensures i <= k <= |s|
    ensures forall j :: i <= j < k ==> IsWhite(s[j])
    ensures k < |s| ==> !IsWhite(s[k])
    decreases |s| - i
  {
    if i < |s| && IsWhite(s[i]) then WhiteRunEnd(s, i + 1) else i
  }

  /** The end of the run of digits and points that starts at `i`. */
  function NumeralRunEnd(s: string, i: nat): (k: nat)
    requires i <= |s|
    ensures i <= k <= |s|
    ensures forall j :: i <= j < k ==> IsDigitOrPoint(s[j])
    ensures k < |s| ==> !IsDigitOrPoint(s[k])
    decreases |s| - i
  {
    if i < |s| && IsDigitOrPoint(s[i]) then NumeralRunEnd(s, i + 1) else i
  }

  // ----- The clipboard offset: (?<!\d)-?\d+[\.,]\d{3}(?!\d) -----

  /** Where the digits of an offset match tried at `i` begin: after a minus sign, if there is one. */
  function OffsetDigitsStart(s: string, i: nat): (j: nat)
    requires i <= |s|
    ensures i <= j <= |s|
  {
    if i < |s| && s[i] == '-' then i + 1 else i
  }

  /** The offset pattern tried at position `i`: the end of the match, if it matches there. */
  function OffsetMatchAt(s: string, i: nat): Option<nat>
    requires i <= |s|
  {
    if i > 0 && IsDigit(s[i - 1]) then None
    else
      var j := OffsetDigitsStart(s, i);
      var k := DigitRunEnd(s, j);
      if k == j || k + 4 > |s| || (s[k] != '.' && s[k] != ',') then None
      else if !AllDigits(s[k + 1..k + 4]) then None
      else if k + 4 < |s| && IsDigit(s[k + 4]) then None
      else Some(k + 4)
  }

  /** `Regex.Match` for the offset pattern, from position `i` on: the leftmost match. */
  function FirstOffsetMatch(s: string, i: nat): (r: Option<(nat, nat)>)
    requires i <= |s|
    ensures r.Some? ==> i <= r.value.0 < r.value.1 <= |s| && OffsetMatchAt(s, r.value.0) == Some(r.value.1)
    ensures r.Some? ==> forall j :: i <= j < r.value.0 ==> OffsetMatchAt(s, j).None?
    ensures r.None? ==> forall j :: i <= j <= |s| ==> OffsetMatchAt(s, j).None?
    decreases |s| - i
  {
    match OffsetMatchAt(s, i)
    case Some(e) => Some((i, e))
    case None => if i == |s| then None else FirstOffsetMatch(s, i + 1)
  }

  /** `Replace(",", ".")`. */
  function CommaToPoint(s: string): (t: string)
    ensures |t| == |s|
    ensures forall i :: 0 <= i < |s| ==> t[i] == if s[i] == ',' then '.' else s[i]
  {
    seq(|s|, i requires 0 <= i < |s| => if s[i] == ',' then '.' else s[i])
  }

  /**
   * The pre-filled answer of the offset prompt: the first offset-looking
   * number in the clipboard text with its decimal comma made a point, or
   * "0.0" when the clipboard holds no text or no such number.
   */
  function ClipboardDefault(clipboard: Option<string>): string
  {
    match clipboard
    case None => "0.0"
    case Some(text) =>
      match FirstOffsetMatch(text, 0)
      case None => "0.0"
      case Some(m) => CommaToPoint(text[m.0..m.1])
  }

  /** The text of an offset match, commas made points, is an optional minus, digits, a point and three digits. */
  lemma OffsetMatchShape(s: string, i: nat, e: nat)
    requires i <= |s| && OffsetMatchAt(s, i) == Some(e)
    ensures var j := OffsetDigitsStart(s, i);
      var k := DigitRunEnd(s, j);
      j < k && k + 4 == e && AllDigits(s[j..k]) && AllDigits(s[k + 1..e]) &&
      CommaToPoint(s[i..e]) == (if j == i + 1 then "-" else "") + (s[j..k] + "." + s[k + 1..e])
  {
    var j := OffsetDigitsStart(s, i);
    var k := DigitRunEnd(s, j);
    OffsetMatchParts(s, i, e);
    hide *;
    OffsetText(s, i, j, k, e);
  }

  /** Where an offset match ends: the digits, the separator and the three decimals it is made of. */
  lemma OffsetMatchParts(s: string, i: nat, e: nat)
    requires i <= |s| && OffsetMatchAt(s, i) == Some(e)
    ensures var j := OffsetDigitsStart(s, i);
      var k := DigitRunEnd(s, j);
      i <= j < k && k + 4 == e <= |s| && (j == i || (j == i + 1 && s[i] == '-')) &&
      AllDigits(s[j..k]) && AllDigits(s[k + 1..e]) && (s[k] == '.' || s[k] == ',')
  {
    hide AllDigits;
    var j := OffsetDigitsStart(s, i);
    var k := DigitRunEnd(s, j);
    assert j < k && k + 4 == e && AllDigits(s[k + 1..e]);
    DigitRunIsDigits(s, j);
  }

  lemma DigitRunIsDigits(s: string, j: nat)
    requires j <= |s|
    ensures AllDigits(s[j..DigitRunEnd(s, j)])
  {
    var k := DigitRunEnd(s, j);
    assert forall p :: 0 <= p < k - j ==> s[j..k][p] == s[j + p];
  }

  lemma OffsetText(s: string, i: nat, j: nat, k: nat, e: nat)
    requires i <= j < k && k + 4 == e <= |s| && (j == i || (j == i + 1 && s[i] == '-'))
    requires AllDigits(s[j..k]) && AllDigits(s[k + 1..e]) && (s[k] == '.' || s[k] == ',')
    ensures CommaToPoint(s[i..e]) == (if j == i + 1 then "-" else "") + (s[j..k] + "." + s[k + 1..e])
  {
    hide CommaToPoint;
    var sign, ip, point, fp := s[i..j], s[j..k], s[k..k + 1], s[k + 1..e];
    assert s[i..e] == sign + ip + point + fp;
    CommaToPointAppend(sign + ip + point, fp);
    CommaToPointAppend(sign + ip, point);
    CommaToPointAppend(sign, ip);
    assert CommaToPoint(point) == ".";
    assert sign == (if j == i + 1 then "-" else "");
    CommaToPointKeeps(sign);
    CommaToPointKeeps(ip);
    CommaToPointKeeps(fp);
  }

  lemma CommaToPointAppend(a: string, b: string)
    ensures CommaToPoint(a + b) == CommaToPoint(a) + CommaToPoint(b)
  {
  }

  lemma CommaToPointKeeps(a: string)
    requires forall p :: 0 <= p < |a| ==> a[p] != ','
    ensures CommaToPoint(a) == a
  {
  }

  /** The pre-filled offset always reads back as a number, so accepting it never cancels the run. */
  lemma ClipboardDefaultParses(clipboard: Option<string>)
    ensures ParseNumber(ClipboardDefault(clipboard)).Some?
    ensures (clipboard.None? || FirstOffsetMatch(clipboard.value, 0).None?) ==> ClipboardDefault(clipboard) == "0.0"
  {
    if clipboard.Some? && FirstOffsetMatch(clipboard.value, 0).Some? {
      var m := FirstOffsetMatch(clipboard.value, 0).value;
      MatchedOffsetParses(clipboard.value, m.0, m.1);
    } else {
      ZeroPointZeroParses();
    }
  }

  /** The text of an offset match, commas made points, reads as a number. */
  lemma MatchedOffsetParses(s: string, i: nat, e: nat)
    requires i <= |s| && OffsetMatchAt(s, i) == Some(e)
    ensures ParseNumber(CommaToPoint(s[i..e])).Some?
  {
    OffsetMatchShape(s, i, e);
    hide ParseNumber;
    hide ParseUnsigned;
    hide OffsetMatchAt;
    hide CommaToPoint;
    hide DigitRunEnd;
    hide OffsetDigitsStart;
    var j := OffsetDigitsStart(s, i);
    var k := DigitRunEnd(s, j);
    var t := s[j..k] + "." + s[k + 1..e];
    ParseUnsignedPoint(s[j..k], s[k + 1..e]);
    assert IsDigit(t[0]) && IsDigit(t[|t| - 1]);
    if j == i + 1 {
      assert CommaToPoint(s[i..e]) == "-" + t;
      ParseNegated(t, DecimalValue(s[j..k], s[k + 1..e]));
    } else {
      assert CommaToPoint(s[i..e]) == t;
      ParseUnsignedOnly(t);
    }
  }

  lemma ZeroPointZeroParses()
    ensures ParseNumber("0.0") == Some(0.0)
  {
    PointNumberParses("0", "0");
    assert "0" + "." + "0" == "0.0";
    assert DecimalValue("0", "0") == 0.0 by {
      assert DigitsValue("0") == 0;
    }
  }

  // ----- The EBU R128 summary: Integrated loudness:\s+I:\s+(-?[\d\.]+) -----

  const IntegratedLabel: string := "Integrated loudness:"

  /** Where the captured value of a loudness match tried at `i` begins, if the text before it matches. */
  function LoudnessValueStart(s: string, i: nat): (r: Option<nat>)
    requires i <= |s|
    ensures r.Some? ==> i + |IntegratedLabel| + 4 <= r.value <= |s|
  {
    var n := |IntegratedLabel|;
    if i + n > |s| || s[i..i + n] != IntegratedLabel then None
    else
      var a := WhiteRunEnd(s, i + n);
      if a == i + n || a + 2 > |s| || s[a..a + 2] != "I:" then None
      else
        var b := WhiteRunEnd(s, a + 2);
        if b == a + 2 then None else Some(b)
  }

  /** The loudness pattern tried at position `i`: group 1, if it matches there. */
  function LoudnessMatchAt(s: string, i: nat): Option<string>
    requires i <= |s|
  {
    match LoudnessValueStart(s, i)
    case None => None
    case Some(b) =>
      var c := if b < |s| && s[b] == '-' then b + 1 else b;
      var k := NumeralRunEnd(s, c);
      if k == c then None else Some(s[b..k])
  }

  /** Where the leftmost loudness match from position `i` on starts. */
  function FirstLoudnessStart(s: string, i: nat): (r: Option<nat>)
    requires i <= |s|
    ensures r.Some? ==> i <= r.value <= |s| && LoudnessMatchAt(s, r.value).Some?
    ensures r.Some? ==> forall p :: i <= p < r.value ==> LoudnessMatchAt(s, p).None?
    ensures r.None? ==> forall j :: i <= j <= |s| ==> LoudnessMatchAt(s, j).None?
    decreases |s| - i
  {
    if LoudnessMatchAt(s, i).Some? then Some(i)
    else if i == |s| then None
    else FirstLoudnessStart(s, i + 1)
  }

  /** `Regex.Match` for the loudness pattern from position `i` on: group 1 of the leftmost match. */
  function FirstLoudnessMatch(s: string, i: nat): Option<string>
    requires i <= |s|
  {
    match FirstLoudnessStart(s, i)
    case None => None
    case Some(j) => LoudnessMatchAt(s, j)
  }

  /** What `ParseAndLogEbur128` logs and parses: group 1 of the first match, or "N/A" when there is none. */
  function IntegratedLoudnessText(output: string): string
  {
    FirstLoudnessMatch(output, 0).GetOr("N/A")
  }

  /** A loudness capture is an optional minus followed by at least one digit or point. */
  lemma LoudnessCaptureShape(s: string, i: nat)
    requires i <= |s| && LoudnessMatchAt(s, i).Some?
    ensures var v := LoudnessMatchAt(s, i).value;
      1 <= |v| && (v[0] == '-' || IsDigitOrPoint(v[0])) &&
      (v[0] == '-' ==> |v| >= 2) &&
      forall p :: 0 < p < |v| ==> IsDigitOrPoint(v[p])
  {
  }

  /** The summary label stands at position `j`. */
  predicate LabelAt(s: string, j: nat)
  {
    j + |IntegratedLabel| <= |s| && s[j..j + |IntegratedLabel|] == IntegratedLabel
  }

  /** The measurement is found only in text that contains the summary label, and a "N/A" reads as no number. */
  lemma LoudnessNeedsLabel(output: string)
    ensures FirstLoudnessMatch(output, 0).Some? ==> exists j :: LabelAt(output, j)
    ensures FirstLoudnessMatch(output, 0).None? ==> ParseNumber(IntegratedLoudnessText(output)).None?
  {
    if FirstLoudnessMatch(output, 0).Some? {
      var j := FirstLoudnessStart(output, 0).value;
      assert LoudnessValueStart(output, j).Some?;
      assert LabelAt(output, j);
    } else {
      NotAvailableIsNotANumber();
    }
  }

  // ----- Tempo estimates: BPM:[\s]*([\d\.]+) -----

  const BpmLabel: string := "BPM:"

  /** The tempo pattern tried at position `i`: the bounds of group 1, if it matches there. */
  function BpmMatchAt(s: string, i: nat): (r: Option<(nat, nat)>)
    requires i <= |s|
    ensures r.Some? ==> i + 4 <= r.value.0 < r.value.1 <= |s| && s[i..i + 4] == BpmLabel
    ensures r.Some? ==> (forall p :: i + 4 <= p < r.value.0 ==> IsWhite(s[p])) && (forall p :: r.value.0 <= p < r.value.1 ==> IsDigitOrPoint(s[p]))
    ensures r.Some? && r.value.1 < |s| ==> !IsDigitOrPoint(s[r.value.1])
  {
    if i + 4 > |s| || s[i..i + 4] != BpmLabel then None
    else
      var a := WhiteRunEnd(s, i + 4);
      var k := NumeralRunEnd(s, a);
      if k == a then None else Some((a, k))
  }

  /** `Regex.Matches` for the tempo pattern from position `i` on: group 1 of every match, in order. */
  function BpmCaptures(s: string, i: nat): (caps: seq<string>)
    requires i <= |s|
    ensures forall c :: c in caps ==> 1 <= |c| && forall p :: 0 <= p < |c| ==> IsDigitOrPoint(c[p])
    decreases |s| - i
  {
    if i == |s| then []
    else
      match BpmMatchAt(s, i)
      case Some(m) => [s[m.0..m.1]] + BpmCaptures(s, m.1)
      case None => BpmCaptures(s, i + 1)
  }

  /** Group 1 of the tempo match at `j`. */
  function BpmGroup(s: string, j: nat): string
    requires j <= |s| && BpmMatchAt(s, j).Some?
  {
    s[BpmMatchAt(s, j).value.0..BpmMatchAt(s, j).value.1]
  }

  /** `c` is group 1 of a tempo match that starts at or after `i`. */
  predicate IsBpmGroupFrom(s: string, i: nat, c: string)
  {
    exists j :: i <= j < |s| && BpmMatchAt(s, j).Some? && c == BpmGroup(s, j)
  }

  /** Every capture is group 1 of a match that starts at or after `i`. */
  lemma {:induction false} BpmCapturesAreGroups(s: string, i: nat)
    requires i <= |s|
    ensures forall k :: 0 <= k < |BpmCaptures(s, i)| ==> IsBpmGroupFrom(s, i, BpmCaptures(s, i)[k])
    decreases |s| - i
  {
    if i < |s| {
      var next := BpmCapturesStep(s, i);
      BpmCapturesAreGroups(s, next);
      hide *;
      var caps := BpmCaptures(s, i);
      var rest := BpmCaptures(s, next);
      if BpmMatchAt(s, i).Some? {
        forall k | 0 <= k < |caps|
          ensures IsBpmGroupFrom(s, i, caps[k])
        {
          if k == 0 {
            GroupIsFrom(s, i, i, caps[k]);
          } else {
            GroupFromLater(s, i, next, rest[k - 1]);
          }
        }
      } else {
        forall k | 0 <= k < |caps|
          ensures IsBpmGroupFrom(s, i, caps[k])
        {
          GroupFromLater(s, i, next, rest[k]);
        }
      }
    }
  }

  /** One step of the scan: the group at `i` if the pattern matches there, then the captures from where the scan goes on. */
  lemma BpmCapturesStep(s: string, i: nat) returns (next: nat)
    requires i < |s|
    ensures i < next <= |s|
    ensures BpmMatchAt(s, i).Some? ==> next == BpmMatchAt(s, i).value.1 && BpmCaptures(s, i) == [BpmGroup(s, i)] + BpmCaptures(s, next)
    ensures BpmMatchAt(s, i).None? ==> next == i + 1 && BpmCaptures(s, i) == BpmCaptures(s, next)
  {
    next := if BpmMatchAt(s, i).Some? then BpmMatchAt(s, i).value.1 else i + 1;
  }

  lemma GroupIsFrom(s: string, i: nat, j: nat, c: string)
    requires i <= j < |s| && BpmMatchAt(s, j).Some? && c == BpmGroup(s, j)
    ensures IsBpmGroupFrom(s, i, c)
  {
  }

  lemma GroupFromLater(s: string, i: nat, next: nat, c: string)
    requires i <= next && IsBpmGroupFrom(s, next, c)
    ensures IsBpmGroupFrom(s, i, c)
  {
    var j :| next <= j < |s| && BpmMatchAt(s, j).Some? && c == BpmGroup(s, j);
    GroupIsFrom(s, i, j, c);
  }

  /** There are no captures exactly when the pattern matches nowhere from `i` on. */
  lemma {:induction false} BpmCapturesEmpty(s: string, i: nat)
    requires i <= |s|
    ensures BpmCaptures(s, i) == [] <==> forall j :: i <= j < |s| ==> BpmMatchAt(s, j).None?
    decreases |s| - i
  {
    if i < |s| {
      BpmCapturesEmpty(s, i + 1);
    }
  }

  /**
   * The captures from `i` on start with group 1 of the leftmost match, at `j`;
   * the scan then goes on from the end of that match, as `Regex.Matches` does.
   */
  lemma {:induction false} BpmCapturesLeftmost(s: string, i: nat, j: nat)
    requires i <= j < |s| && BpmMatchAt(s, j).Some?
    requires forall k :: i <= k < j ==> BpmMatchAt(s, k).None?
    ensures BpmCaptures(s, i) == [BpmGroup(s, j)] + BpmCaptures(s, BpmMatchAt(s, j).value.1)
    decreases j - i
  {
    if i < j {
      assert BpmMatchAt(s, i).None?;
      BpmCapturesLeftmost(s, i + 1, j);
    }
  }

  /** A capture of digits and points never reads as a negative number. */
  lemma {:induction false} UnsignedCaptureValue(c: string, v: real)
    requires forall p :: 0 <= p < |c| ==> IsDigitOrPoint(c[p])
    requires ParseNumber(c) == Some(v)
    ensures v >= 0.0
  {
    var t := TrimEnd(TrimStart(c));
    TrimmedIsSlice(c);
    if |t| > 0 && (t[0] == '-' || t[0] == '+') {
      assert false;
    }
    ParseUnsignedNonNegative(t);
  }

  /** Trimming a string without blanks leaves it as it is. */
  lemma TrimmedIsSlice(c: string)
    requires forall p :: 0 <= p < |c| ==> IsDigitOrPoint(c[p])
    ensures TrimEnd(TrimStart(c)) == c
  {
    if |c| > 0 {
      NothingToTrim(c);
    }
  }

  /** An unsigned decimal is never negative. */
  lemma ParseUnsignedNonNegative(t: string)
    ensures ParseUnsigned(t).Some? ==> ParseUnsigned(t).value >= 0.0
  {
    if ParseUnsigned(t).Some? {
      var k := IndexOf(t, '.');
      var fp := if k < |t| then t[k + 1..] else "";
      assert Scale(|fp|) > 0.0;
    }
  }
}
