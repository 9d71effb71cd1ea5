/**
 * The command lines the converter hands to ffmpeg and ffprobe, the audio
 * filter list of the final encode and the names of the files it writes.
 */
module Encoding {
  import opened Wrappers
  import opened Numerics
  import opened Text

  /** The loudness every processed file is brought to, in LUFS. */
  const TargetLoudness: real := -8.0

  /** The gain filter for a measured integrated loudness: the difference to the target, in dB with two decimals. */
  function VolumeFilter(measured: real): string
  {
    "volume=" + FormatFixed(TargetLoudness - measured, 2) + "dB"
  }

  /** The delay filter for a positive offset: the offset in whole milliseconds, truncated, for both channels. */
  function DelayFilter(offset: real): string
  {
    var ms := IntToString(Truncate(offset * 1000.0));
    "adelay=" + ms + "|" + ms
  }

  /**
   * The filter list of the final encode: the gain filter when a loudness
   * was measured, and in front of it the delay filter when the offset is
   * positive.
   */
  function Filters(measured: Option<real>, offset: real): seq<string>
  {
    var volume := if measured.Some? then [VolumeFilter(measured.value)] else [];
    if offset > 0.0 then [DelayFilter(offset)] + volume else volume
  }

  /** The seek option: a negative offset skips its magnitude, written with three decimals; otherwise nothing. */
  function SeekArg(offset: real): string
  {
    if offset < 0.0 then "-ss " + FormatFixed(-offset, 3) else ""
  }

  /** The filter option: the filters joined by commas inside quotes, or nothing when there are none. */
  function FilterArg(filters: seq<string>): string
  {
    if |filters| == 0 then "" else "-af " + Quoted(Join(filters, ','))
  }

  function Quoted(s: string): string { "\"" + s + "\"" }

  /** The name of a processed file with bar counters: `S_<stem> <bpm> <startmadi> <totalmadi>.ogg`. */
  function MadiFileName(stem: string, bpm: real, start: int, total: int): string
  {
    "S_" + stem + " " + FormatBpm(bpm) + " " + IntToString(start) + " " + IntToString(total) + ".ogg"
  }

  /** The three numeric fields at the end of a name with bar counters. */
  function MadiFields(bpm: real, start: int, total: int): seq<string>
  {
    [FormatBpm(bpm), IntToString(start), IntToString(total)]
  }

  /** The name of a processed file without bar counters. */
  function EditedFileName(stem: string): string
  {
    "edited_" + stem + ".ogg"
  }

  /** One start of an external tool, with what determines its command line. */
  datatype Invocation =
    | ToWav(input: string, output: string)
    | TempoProbe(input: string)
    | LoudnessProbe(input: string)
    | DurationProbe(input: string)
    | FinalEncode(input: string, offset: real, filters: seq<string>, output: string)
  {
    /** ffprobe for the duration, ffmpeg for everything else. */
    function Executable(): string
    {
      if DurationProbe? then "ffprobe.exe" else "ffmpeg.exe"
    }

    /** The argument string as the converter builds it. */
    function Arguments(): string
    {
      match this
      case ToWav(input, output) =>
        "-i " + Quoted(input) + " -c:a pcm_s16le -ar 44100 -rf64 never -map_metadata -1 -fflags +bitexact -y " + Quoted(output)
      case TempoProbe(input) => "-i " + Quoted(input) + " -af bpm -f null -"
      case LoudnessProbe(input) => "-i " + Quoted(input) + " -af ebur128 -f null -"
      case DurationProbe(input) => "-v error -show_entries format=duration -of default=noprint_wrappers=1:nokey=1 " + Quoted(input)
      case FinalEncode(input, offset, filters, output) =>
        SeekArg(offset) + " -i " + Quoted(input) + " " + FilterArg(filters) + " -b:a 96k -ar 44100 -map_metadata -1 -y " + Quoted(output)
    }
  }

  // ----- Properties -----

  /** The three parts of a concatenation can be cut back out of it. */
  lemma Framed(pre: string, mid: string, post: string)
    ensures var s := pre + mid + post;
      |s| == |pre| + |mid| + |post| && s[..|pre|] == pre && s[|pre|..|pre| + |mid|] == mid && s[|pre| + |mid|..] == post
  {
    var s := pre + mid + post;
    assert s[..|pre|] == pre;
    assert s[|pre|..|pre| + |mid|] == mid;
    assert s[|pre| + |mid|..] == post;
  }

  /**
   * The gain filter is in the list exactly when a loudness was measured, and
   * it is the last filter; the delay filter is the first exactly when the
   * offset is positive; nothing else is ever in the list.
   */
  lemma FiltersShape(measured: Option<real>, offset: real)
    ensures |Filters(measured, offset)| == (if measured.Some? then 1 else 0) + (if offset > 0.0 then 1 else 0)
    ensures measured.Some? <==> exists m :: VolumeFilter(m) in Filters(measured, offset)
    ensures measured.Some? ==> Filters(measured, offset)[|Filters(measured, offset)| - 1] == VolumeFilter(measured.value)
    ensures offset > 0.0 <==> |Filters(measured, offset)| > 0 && Filters(measured, offset)[0] == DelayFilter(offset)
    ensures forall f :: f in Filters(measured, offset) ==> (measured.Some? && f == VolumeFilter(measured.value)) || (offset > 0.0 && f == DelayFilter(offset))
  {
    hide FormatFixed;
    hide IntToString;
    var fs := Filters(measured, offset);
    forall m | VolumeFilter(m) in fs
      ensures measured.Some?
    {
      FilterHeads(m, offset);
    }
    if measured.Some? {
      FilterHeads(measured.value, offset);
      assert VolumeFilter(measured.value) in fs;
    }
  }

  /** The gain filter starts with `v`, the delay filter with `a`. */
  lemma FilterHeads(measured: real, offset: real)
    ensures |VolumeFilter(measured)| > 0 && VolumeFilter(measured)[0] == 'v'
    ensures |DelayFilter(offset)| > 0 && DelayFilter(offset)[0] == 'a'
  {
    hide FormatFixed;
    hide IntToString;
  }

  /** The gain filter reads back as the required gain rounded to two decimals. */
  lemma VolumeGain(measured: real)
    ensures var f := VolumeFilter(measured);
      |f| > 9 && f[..7] == "volume=" && f[|f| - 2..] == "dB" &&
      ParseNumber(f[7..|f| - 2]) == Some(RoundTo(TargetLoudness - measured, 2))
  {
    var g := FormatFixed(TargetLoudness - measured, 2);
    Framed("volume=", g, "dB");
    ParseFormatFixed(TargetLoudness - measured, 2);
  }

  /** Both delays read back as the offset in milliseconds, truncated to a whole number that is at most the exact value and less than one below it. */
  lemma DelayMilliseconds(offset: real)
    requires offset > 0.0
    ensures var ms := IntToString(Truncate(offset * 1000.0));
      DelayFilter(offset) == "adelay=" + ms + "|" + ms &&
      ParseNumber(ms) == Some(Truncate(offset * 1000.0) as real) &&
      0 <= Truncate(offset * 1000.0) &&
      Truncate(offset * 1000.0) as real <= offset * 1000.0 < Truncate(offset * 1000.0) as real + 1.0
  {
    ParseIntToString(Truncate(offset * 1000.0));
  }

  /** A non-negative value is written without a minus sign. */
  lemma FormatFixedUnsigned(x: real, d: nat)
    requires x >= 0.0
    ensures IsDigit(FormatFixed(x, d)[0])
  {
  }

  /**
   * A negative offset becomes a seek over its magnitude: the value after
   * `-ss ` carries no sign and reads as the magnitude rounded to three
   * decimals. No other offset seeks.
   */
  lemma SeekMagnitude(offset: real)
    ensures offset >= 0.0 <==> SeekArg(offset) == ""
    ensures offset < 0.0 ==> var s := SeekArg(offset);
      |s| > 4 && s[..4] == "-ss " && IsDigit(s[4]) && ParseNumber(s[4..]) == Some(RoundTo(-offset, 3))
  {
    hide FormatFixed;
    hide ParseNumber;
    hide RoundTo;
    if offset < 0.0 {
      var v := FormatFixed(-offset, 3);
      SeekShape(offset, v);
      UnsignedReadsBack(-offset, v);
    }
  }

  lemma SeekShape(offset: real, v: string)
    requires offset < 0.0 && v == FormatFixed(-offset, 3)
    ensures var s := SeekArg(offset); |s| > 4 && s[..4] == "-ss " && s[4..] == v
  {
    Framed("-ss ", v, "");
  }

  /** A positive value written with three decimals starts with a digit and reads back rounded. */
  lemma UnsignedReadsBack(x: real, v: string)
    requires x > 0.0 && v == FormatFixed(x, 3)
    ensures IsDigit(v[0]) && ParseNumber(v) == Some(RoundTo(x, 3))
  {
    hide *;
    FormatFixedUnsigned(x, 3);
    ParseFormatFixed(x, 3);
  }

  /** A negative offset never also delays: seeking and delaying exclude each other. */
  lemma SeekOrDelay(measured: Option<real>, offset: real)
    ensures SeekArg(offset) != "" ==> forall f :: f in Filters(measured, offset) ==> f[..6] != "adelay"
  {
    hide FormatFixed;
    hide DelayFilter;
    if SeekArg(offset) != "" {
      assert !(offset > 0.0);
      forall f | f in Filters(measured, offset)
        ensures f[..6] != "adelay"
      {
        var g := FormatFixed(TargetLoudness - measured.value, 2);
        Framed("volume=", g, "dB");
        assert f[0] == 'v';
      }
    }
  }

  /** The filter option is empty exactly when there are no filters; otherwise it quotes the filters joined by commas, and that list splits back into them. */
  lemma FilterArgSplits(measured: Option<real>, offset: real)
    ensures var fs := Filters(measured, offset);
      (FilterArg(fs) == "" <==> |fs| == 0) &&
      (|fs| > 0 ==> FilterArg(fs) == "-af " + Quoted(Join(fs, ',')) && Split(Join(fs, ','), ',') == fs)
  {
    FiltersCommaFree(measured, offset);
    CommaFreeFilterArg(Filters(measured, offset));
  }

  lemma CommaFreeFilterArg(fs: seq<string>)
    requires forall i :: 0 <= i < |fs| ==> ',' !in fs[i]
    ensures FilterArg(fs) == "" <==> |fs| == 0
    ensures |fs| > 0 ==> FilterArg(fs) == "-af " + Quoted(Join(fs, ',')) && Split(Join(fs, ','), ',') == fs
  {
    if |fs| > 0 {
      SplitJoin(fs, ',');
      assert |FilterArg(fs)| >= 4;
    }
  }

  /** No filter contains a comma. */
  lemma FiltersCommaFree(measured: Option<real>, offset: real)
    ensures forall i :: 0 <= i < |Filters(measured, offset)| ==> ',' !in Filters(measured, offset)[i]
  {
    hide FormatFixed;
    hide IntToString;
    var fs := Filters(measured, offset);
      forall i | 0 <= i < |fs|
        ensures ',' !in fs[i]
      {
        if measured.Some? && fs[i] == VolumeFilter(measured.value) {
          var g := FormatFixed(TargetLoudness - measured.value, 2);
          NumeralLacks(g, ',');
          CommaFree("volume=", g, "dB");
        } else {
          var ms := IntToString(Truncate(offset * 1000.0));
          NumeralLacks(ms, ',');
          CommaFree("adelay=", ms, "|" + ms);
        }
      }
  }

  /** A concatenation of comma-free parts is comma-free. */
  lemma CommaFree(a: string, b: string, c: string)
    requires ',' !in a && ',' !in b && ',' !in c
    ensures ',' !in a + b + c
  {
  }

  /** A numeral holds no character that is not a digit, a sign or a point. */
  lemma NumeralLacks(s: string, c: char)
    requires AllNumeral(s) && !IsNumeral(c)
    ensures c !in s
  {
  }

  /**
   * A name with bar counters ends in its three fields, separated by spaces,
   * before `.ogg`; they split back apart and read as the tempo rounded to
   * three decimals and the two counters.
   */
  lemma MadiFileNameFields(stem: string, bpm: real, start: int, total: int)
    ensures var fields := MadiFields(bpm, start, total);
      MadiFileName(stem, bpm, start, total) == "S_" + stem + " " + Join(fields, ' ') + ".ogg" &&
      Split(Join(fields, ' '), ' ') == fields &&
      ParseNumber(fields[0]) == Some(RoundTo(bpm, 3)) &&
      ParseNumber(fields[1]) == Some(start as real) &&
      ParseNumber(fields[2]) == Some(total as real)
  {
    var fields := MadiFields(bpm, start, total);
    MadiFieldsSplit(fields, bpm, start, total);
    MadiFieldsRead(fields, bpm, start, total);
    MadiNameJoin(stem, fields);
  }

  lemma MadiFieldsSplit(fields: seq<string>, bpm: real, start: int, total: int)
    requires fields == MadiFields(bpm, start, total)
    ensures Split(Join(fields, ' '), ' ') == fields
  {
    forall i | 0 <= i < 3
      ensures ' ' !in fields[i]
    {
      NumeralLacks(fields[i], ' ');
    }
    SplitJoin(fields, ' ');
  }

  lemma MadiFieldsRead(fields: seq<string>, bpm: real, start: int, total: int)
    requires fields == MadiFields(bpm, start, total)
    ensures ParseNumber(fields[0]) == Some(RoundTo(bpm, 3))
    ensures ParseNumber(fields[1]) == Some(start as real)
    ensures ParseNumber(fields[2]) == Some(total as real)
  {
    ParseFormatBpm(bpm);
    ParseIntToString(start);
    ParseIntToString(total);
  }

  lemma MadiNameJoin(stem: string, fields: seq<string>)
    requires |fields| == 3
    ensures "S_" + stem + " " + fields[0] + " " + fields[1] + " " + fields[2] + ".ogg" == "S_" + stem + " " + Join(fields, ' ') + ".ogg"
  {
    var j2 := Join(fields[1..][1..], ' ');
    assert fields[1..][1..] == [fields[2]];
    assert j2 == fields[2];
    var j1 := Join(fields[1..], ' ');
    assert j1 == fields[1] + [' '] + j2;
    assert Join(fields, ' ') == fields[0] + [' '] + j1;
  }

  /** Both output names keep the stem and end in `.ogg`, and they never coincide. */
  lemma OutputNamesDiffer(stem: string, bpm: real, start: int, total: int)
    ensures EditedFileName(stem)[7..|EditedFileName(stem)| - 4] == stem
    ensures MadiFileName(stem, bpm, start, total)[2..2 + |stem|] == stem
    ensures EditedFileName(stem)[|EditedFileName(stem)| - 4..] == ".ogg"
    ensures MadiFileName(stem, bpm, start, total)[|MadiFileName(stem, bpm, start, total)| - 4..] == ".ogg"
    ensures EditedFileName(stem) != MadiFileName(stem, bpm, start, total)
  {
    hide FormatBpm;
    hide IntToString;
    var rest := " " + FormatBpm(bpm) + " " + IntToString(start) + " " + IntToString(total);
    assert MadiFileName(stem, bpm, start, total) == "S_" + stem + rest + ".ogg";
    Framed("edited_", stem, ".ogg");
    Framed("S_", stem, rest + ".ogg");
    Framed("S_" + stem, rest, ".ogg");
  }

  /** Every command line ends with the quoted file it reads or writes last: the output of a conversion, the input of a probe. */
  lemma ArgumentsEndWithTarget(inv: Invocation)
    ensures var target := if inv.ToWav? || inv.FinalEncode? then inv.output else inv.input;
      var a := inv.Arguments();
      (inv.ToWav? || inv.FinalEncode? || inv.DurationProbe?) ==>
        |a| >= |target| + 2 && a[|a| - |target| - 2..] == Quoted(target)
  {
    hide SeekArg;
    hide FilterArg;
  }

  /** Worked filters: a file measured at -14 LUFS is raised by exactly 6 dB, written with two decimals. */
  lemma VolumeExample()
    ensures VolumeFilter(-14.0) == "volume=6.00dB"
  {
    hide FormatFixed;
    FixedUnits(6.0, 2, 600);
    assert FixedDigits(600, 2) == "6.00";
  }

  /** An offset of 1.2345 s delays both channels by 1234 ms, truncated. */
  lemma DelayExample()
    ensures DelayFilter(1.2345) == "adelay=1234|1234"
  {
    assert Truncate(1.2345 * 1000.0) == 1234;
    assert NatToString(1) == "1";
    assert NatToString(12) == "12";
    assert NatToString(123) == "123";
    assert NatToString(1234) == "1234";
  }

  /** An offset of -1.5 s skips 1.5 s, written with three decimals. */
  lemma SeekExample()
    ensures SeekArg(-1.5) == "-ss 1.500"
  {
    hide FormatFixed;
    ScaleThousand();
    assert Pow10(3) == 1000;
    assert NatToString(1) == "1";
    assert Digits(5, 1) == "5";
    assert Digits(50, 2) == "50";
    assert Digits(500, 3) == "500";
    FixedUnits(1.5, 3, 1500);
    assert FixedDigits(1500, 3) == "1.500";
  }

  /** The text `F<d>` of a value that is a whole number `u` of `10^-d` units is the text of `u`. */
  lemma FixedUnits(x: real, d: nat, u: nat)
    requires x * Scale(d) == u as real
    ensures FormatFixed(x, d) == FixedDigits(u, d)
  {
    hide FixedDigits;
    assert RoundHalfAway(u as real) == u;
  }
}
