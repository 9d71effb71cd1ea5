/**
 * What one run of the converter promises, proved about the functions of
 * the Pipeline module: the dispatch on the extension, the order of the
 * prompts and tool starts, cancellation, the duration guard, the loudness
 * and tempo choices and the result handling.
 */
module Behaviour {
  import opened Wrappers
  import opened Numerics
  import opened Text
  import opened Paths
  import opened Patterns
  import opened Tempo
  import opened Madi
  import opened Encoding
  import opened Pipeline

  /** The kind of a prompt or tool start, without its details. */
  datatype Step = AskOffset | ProbeTempo | AskTempo | AskTime | ProbeLoudness | ProbeDuration | EncodeFinal | ConvertWav | AskOther

  function StepOf(e: Event): Step
  {
    match e
    case Asked(q, _) =>
      if q == OffsetQuestion then AskOffset
      else if q == TempoQuestion then AskTempo
      else if q == TimeQuestion then AskTime
      else AskOther
    case Started(inv) =>
      match inv
      case ToWav(_, _) => ConvertWav
      case TempoProbe(_) => ProbeTempo
      case LoudnessProbe(_) => ProbeLoudness
      case DurationProbe(_) => ProbeDuration
      case FinalEncode(_, _, _, _) => EncodeFinal
  }

  function Steps(es: seq<Event>): seq<Step>
  {
    if |es| == 0 then [] else [StepOf(es[0])] + Steps(es[1..])
  }

  /** The order in which a WAV input is worked on: the offset prompt; with bar counters, the tempo probe and the tempo and time prompts; with normalisation, the loudness analysis; with bar counters, the duration probe; last the encode. */
  function Plan(lufs: bool, madi: bool): seq<Step>
  {
    [AskOffset] + (if madi then [ProbeTempo, AskTempo, AskTime] else []) + (if lufs then [ProbeLoudness] else [])
      + (if madi then [ProbeDuration] else []) + [EncodeFinal]
  }

  /** The events a run added to the trace. */
  function Added(before: Machine, after: Machine): seq<Event>
    requires |before.trace| <= |after.trace|
  {
    after.trace[|before.trace|..]
  }

  /** The switches a run does not change. */
  predicate SameSwitches(a: Machine, b: Machine)
  {
    a.lufs == b.lufs && a.madi == b.madi
  }

  // ----- One step at a time -----

  lemma PromptEffect(m: Machine, q: string, s: string)
    ensures var r := Prompt(m, q, s).0;
      r.trace == m.trace + [Asked(q, s)] && r.status == m.status && r.log == m.log && SameSwitches(m, r) && r.busy == m.busy
  {
  }

  lemma RunEffect(m: Machine, inv: Invocation)
    ensures var r := RunFfmpeg(m, inv).0;
      r.trace == m.trace + [Started(inv)] && r.status == m.status && r.log == m.log && SameSwitches(m, r) && r.busy == m.busy
  {
  }

  /** `HandleConversionResult` sets "Done." exactly on success and "Error." otherwise; a failure logs the tool's output after the error line. */
  lemma HandleResultOutcome(m: Machine, r: FfmpegResult)
    ensures var h := HandleResult(m, r);
      (h.status == "Done." <==> r.success) && (h.status == "Error." <==> !r.success) &&
      h.trace == m.trace && SameSwitches(m, h) && h.busy == m.busy &&
      (r.success ==> h.log == m.log + [LogEntry("\nConversion successful.", LimeGreen)]) &&
      (!r.success ==> h.log == m.log + [LogEntry("\nError: Conversion failed.", Red), LogEntry(r.output, Gray)])
  {
  }

  /** The encode appends its start to the trace, adds to the log without touching what is there, and ends in "Done." or "Error.". */
  lemma EncodeEffect(m: Machine, input: string, offset: real, filters: seq<string>, output: string)
    ensures var r := Encode(m, input, offset, filters, output);
      r.trace == m.trace + [Started(FinalEncode(input, offset, filters, output))] &&
      (r.status == "Done." || r.status == "Error.") && SameSwitches(m, r) && r.busy == m.busy &&
      |r.log| > |m.log| && r.log[..|m.log|] == m.log
  {
    var (m', res) := RunFfmpeg(m, FinalEncode(input, offset, filters, output));
    RunEffect(m, FinalEncode(input, offset, filters, output));
    HandleResultOutcome(m', res);
  }

  /**
   * The loudness step starts the analysis exactly when normalisation is on,
   * and yields a loudness exactly when the analysis exits with 0, prints
   * something, and the integrated value it prints reads as a number.
   */
  lemma LoudnessOutcome(m: Machine, input: string)
    ensures var (r, measured) := Loudness(m, input);
      r.trace == m.trace + (if m.lufs then [Started(LoudnessProbe(input))] else []) &&
      r.status == m.status && SameSwitches(m, r) && r.busy == m.busy &&
      (measured.Some? <==>
        m.lufs && |m.env.replies| > 0 && m.env.replies[0].Exited? && m.env.replies[0].code == 0 &&
        |m.env.replies[0].text| > 0 && ParseNumber(IntegratedLoudnessText(m.env.replies[0].text)).Some?) &&
      (measured.Some? ==> measured == ParseNumber(IntegratedLoudnessText(m.env.replies[0].text)))
  {
    if m.lufs {
      RunEffect(m, LoudnessProbe(input));
    }
  }

  /** The suggestion of the tempo prompt: the detected tempo, or 120, written as `FormatBpmToString` writes it. */
  function TempoSuggestion(m: Machine, input: string): string
  {
    FormatBpm(TempoGuess(BpmFromAudio(m.(status := "Detecting BPM..."), input).1))
  }

  /** The tempo prompt of the tempo step, shown after the probe. */
  function TempoPrompt(m: Machine, input: string): (Machine, Option<real>)
  {
    Prompt(BpmFromAudio(m.(status := "Detecting BPM..."), input).0, TempoQuestion, TempoSuggestion(m, input))
  }

  /** The answer to the time prompt, shown after the tempo prompt. */
  function TimeAnswer(m: Machine, input: string): Option<real>
  {
    Prompt(TempoPrompt(m, input).0, TimeQuestion, "0.0").1
  }

  /**
   * The tempo step: the probe, then the tempo prompt, then the time prompt
   * exactly when the tempo prompt gave a number. It yields a tempo and a
   * time exactly when both prompts gave a number, and then those two
   * numbers; a cancel or an unreadable answer at either prompt yields none.
   */
  lemma TempoAndTimeEffect(m: Machine, input: string)
    ensures var (r, bt) := TempoAndTime(m, input);
      var tempo := TempoPrompt(m, input).1;
      var time := TimeAnswer(m, input);
      var asked := [Started(TempoProbe(input)), Asked(TempoQuestion, TempoSuggestion(m, input))];
      SameSwitches(m, r) && r.busy == m.busy && r.log == m.log && r.status == "Detecting BPM..." &&
      (tempo.None? ==> r.trace == m.trace + asked) &&
      (tempo.Some? ==> r.trace == m.trace + asked + [Asked(TimeQuestion, "0.0")]) &&
      (bt.Some? <==> tempo.Some? && time.Some?) &&
      (bt.Some? ==> bt.value == (tempo.value, time.value))
  {
    hide ParseNumber;
    hide FormatBpm;
    hide DetectedTempo;
    var m0 := m.(status := "Detecting BPM...");
    var (m1, detected) := BpmFromAudio(m0, input);
    var s := TempoSuggestion(m, input);
    var (m2, bpm) := Prompt(m1, TempoQuestion, s);
    PromptEffect(m1, TempoQuestion, s);
    PromptEffect(m2, TimeQuestion, "0.0");
  }

  /** The answer at position `k` of those still to come; with none left the user cancels. */
  function AnswerAt(m: Machine, k: nat): Answer
  {
    if k < |m.env.answers| then m.env.answers[k] else Cancel
  }

  /** The number an answer gives at a prompt with this suggestion, if any. */
  function AnswerValue(a: Answer, suggestion: string): Option<real>
  {
    match AnswerText(a, suggestion)
    case None => None
    case Some(text) => ParseNumber(text)
  }

  /**
   * The tempo step in terms of the user's answers: the first answer is the
   * tempo's and the second the time's; it yields both numbers exactly when
   * both answers give one.
   */
  lemma TempoAndTimeAnswers(m: Machine, input: string)
    ensures var bt := TempoAndTime(m, input).1;
      var tempo := AnswerValue(AnswerAt(m, 0), TempoSuggestion(m, input));
      var time := AnswerValue(AnswerAt(m, 1), "0.0");
      (bt.Some? <==> tempo.Some? && time.Some?) &&
      (bt.Some? ==> bt.value == (tempo.value, time.value))
  {
    hide ParseNumber;
    hide FormatBpm;
    hide DetectedTempo;
    TempoAndTimeEffect(m, input);
    var m1 := BpmFromAudio(m.(status := "Detecting BPM..."), input).0;
    assert m1.env.answers == m.env.answers;
    var m2 := TempoPrompt(m, input).0;
    assert AnswerAt(m2, 0) == AnswerAt(m, 1);
  }

  lemma DurationEffect(m: Machine, input: string)
    ensures var r := AudioDuration(m, input).0;
      r.trace == m.trace + [Started(DurationProbe(input))] && r.status == m.status && r.log == m.log && SameSwitches(m, r) && r.busy == m.busy
  {
  }

  /** The steps of a concatenation are the concatenated steps. */
  lemma {:induction false} StepsAppend(a: seq<Event>, b: seq<Event>)
    ensures Steps(a + b) == Steps(a) + Steps(b)
  {
    if |a| > 0 {
      assert (a + b)[1..] == a[1..] + b;
      StepsAppend(a[1..], b);
    } else {
      assert a + b == b;
    }
  }

  lemma EncodeSteps(e: Event)
    requires e.Started? && e.invocation.FinalEncode?
    ensures Steps([e]) == [EncodeFinal]
  {
  }

  lemma DurationSteps(input: string)
    ensures Steps([Started(DurationProbe(input))]) == [ProbeDuration]
  {
  }

  lemma DurationEncodeSteps(input: string, e: Event)
    requires e.Started? && e.invocation.FinalEncode?
    ensures Steps([Started(DurationProbe(input)), e]) == [ProbeDuration, EncodeFinal]
  {
    assert [Started(DurationProbe(input)), e][1..] == [e];
    EncodeSteps(e);
  }

  /** The run reached the encode and reported its result. */
  predicate Ended(r: Machine)
  {
    r.status == "Done." || r.status == "Error."
  }

  /** The events after the prompts. */
  function FinishSteps(lufs: bool, madi: bool, ended: bool): seq<Step>
  {
    (if lufs then [ProbeLoudness] else []) + (if madi then [ProbeDuration] else []) + (if ended then [EncodeFinal] else [])
  }

  /** `after` continues `before`: the trace only grew, and neither the switches nor the busy flag changed. */
  predicate Extends(before: Machine, after: Machine)
  {
    |before.trace| <= |after.trace| && after.trace[..|before.trace|] == before.trace &&
    SameSwitches(before, after) && after.busy == before.busy
  }

  /** The run either reported the encode's result, or, with bar counters on, stopped at an unreadable duration with `status` left as it was and the error as the last log line. */
  predicate EndedOrNoDuration(r: Machine, status: string, madi: bool)
  {
    Ended(r) ||
    (r.status == status && madi && |r.log| > 0 && r.log[|r.log| - 1] == LogEntry("Error: Could not read duration.", Red))
  }

  /**
   * After the prompts: the loudness analysis when normalisation is on, the
   * duration probe when bar counters are on, then the encode, which is
   * skipped only when bar counters are on and the duration is not positive;
   * then the status stays "Processing..." and the last log entry is the error.
   */
  lemma FinishEffect(m: Machine, input: string, offset: real, bpm: real, time: real)
    ensures var r := Finish(m, input, offset, bpm, time);
      Extends(m, r) && |r.trace| > |m.trace| && EndedOrNoDuration(r, "Processing...", m.madi) &&
      Steps(Added(m, r)) == FinishSteps(m.lufs, m.madi, Ended(r))
  {
    var m0 := m.(status := "Processing...");
    var (m1, measured) := Loudness(m0, input);
    LoudnessOutcome(m0, input);
    var filters := Filters(measured, offset);
    var r := Conclude(m1, input, offset, filters, bpm, time);
    ConcludeEffect(m1, input, offset, filters, bpm, time);
    FinishCompose(m, m1, r, input);
  }

  lemma FinishCompose(m: Machine, m1: Machine, r: Machine, input: string)
    requires m1.trace == m.trace + (if m.lufs then [Started(LoudnessProbe(input))] else [])
    requires SameSwitches(m, m1) && m1.busy == m.busy && m1.status == "Processing..."
    requires Extends(m1, r) && |r.trace| > |m1.trace| && EndedOrNoDuration(r, m1.status, m1.madi)
    requires Steps(Added(m1, r)) == (if m.madi then [ProbeDuration] else []) + (if Ended(r) then [EncodeFinal] else [])
    ensures Extends(m, r) && |r.trace| > |m.trace| && EndedOrNoDuration(r, "Processing...", m.madi)
    ensures Steps(Added(m, r)) == FinishSteps(m.lufs, m.madi, Ended(r))
  {
    var loud := if m.lufs then [Started(LoudnessProbe(input))] else [];
    var rest := Added(m1, r);
    assert r.trace == m1.trace + rest;
    assert Added(m, r) == loud + rest;
    FinishStepsCompose(loud, rest, m.lufs, m.madi, Ended(r), input);
  }

  lemma FinishStepsCompose(loud: seq<Event>, rest: seq<Event>, lufs: bool, madi: bool, ended: bool, input: string)
    requires loud == (if lufs then [Started(LoudnessProbe(input))] else [])
    requires Steps(rest) == (if madi then [ProbeDuration] else []) + (if ended then [EncodeFinal] else [])
    ensures Steps(loud + rest) == FinishSteps(lufs, madi, ended)
  {
    StepsAppend(loud, rest);
    if lufs {
      assert Steps(loud) == [ProbeLoudness] by {
        assert loud[1..] == [];
      }
    }
  }

  lemma ConcludeEffect(m: Machine, input: string, offset: real, filters: seq<string>, bpm: real, time: real)
    requires !Ended(m)
    ensures var r := Conclude(m, input, offset, filters, bpm, time);
      Extends(m, r) && |r.trace| > |m.trace| && EndedOrNoDuration(r, m.status, m.madi) &&
      Steps(Added(m, r)) == (if m.madi then [ProbeDuration] else []) + (if Ended(r) then [EncodeFinal] else [])
  {
    hide Conclude;
    hide AudioDuration;
    hide Encode;
    hide FormatBpm, IntToString, MadiOutput, EditedOutput, StartMadi, TotalMadi;
    var r := Conclude(m, input, offset, filters, bpm, time);
    if !m.madi {
      var e := ConcludeEdited(m, input, offset, filters, bpm, time);
      assert Added(m, r) == [e];
      EncodeSteps(e);
    } else if AudioDuration(m, input).1 <= 0.0 {
      ConcludeNoDuration(m, input, offset, filters, bpm, time);
      assert Added(m, r) == [Started(DurationProbe(input))];
      DurationSteps(input);
    } else {
      var e := ConcludeMadi(m, input, offset, filters, bpm, time);
      assert Added(m, r) == [Started(DurationProbe(input)), e];
      DurationEncodeSteps(input, e);
    }
  }

  /** Without bar counters the encode to `edited_<stem>.ogg` follows at once. */
  lemma ConcludeEdited(m: Machine, input: string, offset: real, filters: seq<string>, bpm: real, time: real)
    returns (e: Event)
    requires !m.madi
    ensures e == Started(FinalEncode(input, offset, filters, EditedOutput(input)))
    ensures var r := Conclude(m, input, offset, filters, bpm, time);
      r.trace == m.trace + [e] && e.Started? && e.invocation.FinalEncode? && Ended(r) && SameSwitches(m, r) && r.busy == m.busy
  {
    e := Started(FinalEncode(input, offset, filters, EditedOutput(input)));
    EncodeEffect(m, input, offset, filters, EditedOutput(input));
  }

  lemma ConcludeNoDuration(m: Machine, input: string, offset: real, filters: seq<string>, bpm: real, time: real)
    requires m.madi && AudioDuration(m, input).1 <= 0.0
    ensures var r := Conclude(m, input, offset, filters, bpm, time);
      r.trace == m.trace + [Started(DurationProbe(input))] && r.status == m.status && SameSwitches(m, r) && r.busy == m.busy &&
      |r.log| > 0 && r.log[|r.log| - 1] == LogEntry("Error: Could not read duration.", Red)
  {
    DurationEffect(m, input);
  }

  /**
   * With bar counters and a positive duration: the probe, then the tempo and
   * the two counters logged under their header, then the encode to the name
   * that carries the same tempo and counters.
   */
  lemma ConcludeMadi(m: Machine, input: string, offset: real, filters: seq<string>, bpm: real, time: real)
    returns (e: Event)
    requires m.madi && AudioDuration(m, input).1 > 0.0
    ensures var start := StartMadi(bpm, time, offset);
      var total := TotalMadi(bpm, AudioDuration(m, input).1);
      e == Started(FinalEncode(input, offset, filters, MadiOutput(input, bpm, start, total)))
    ensures var r := Conclude(m, input, offset, filters, bpm, time);
      r.trace == m.trace + [Started(DurationProbe(input)), e] && e.Started? && e.invocation.FinalEncode? &&
      Ended(r) && SameSwitches(m, r) && r.busy == m.busy
    ensures var r := Conclude(m, input, offset, filters, bpm, time);
      var start := StartMadi(bpm, time, offset);
      var total := TotalMadi(bpm, AudioDuration(m, input).1);
      |r.log| > |m.log| + 4 &&
      r.log[..|m.log| + 4] == m.log + [LogEntry("\tBPM: \t\t" + FormatBpm(bpm), LightGreen), LogEntry("Time Signature", LightCoral),
                                        LogEntry("\tStartMadi: \t" + IntToString(start), LightGreen),
                                        LogEntry("\tTotalMadi: \t" + IntToString(total) + "\n", LightGreen)]
  {
    hide FormatBpm, IntToString, MadiOutput, StartMadi, TotalMadi;
    var (m1, length) := AudioDuration(m, input);
    DurationEffect(m, input);
    var start := StartMadi(bpm, time, offset);
    var total := TotalMadi(bpm, length);
    var out := MadiOutput(input, bpm, start, total);
    var m2 := MadiLog(m1, bpm, start, total);
    assert m2.trace == m1.trace && SameSwitches(m1, m2) && m2.busy == m1.busy;
    assert m2.log == m.log + [LogEntry("\tBPM: \t\t" + FormatBpm(bpm), LightGreen), LogEntry("Time Signature", LightCoral),
                              LogEntry("\tStartMadi: \t" + IntToString(start), LightGreen),
                              LogEntry("\tTotalMadi: \t" + IntToString(total) + "\n", LightGreen)];
    assert Conclude(m, input, offset, filters, bpm, time) == Encode(m2, input, offset, filters, out);
    EncodeEffect(m2, input, offset, filters, out);
    e := Started(FinalEncode(input, offset, filters, out));
  }

  // ----- A whole WAV run -----

  /** A step that is a prompt. */
  predicate IsPrompt(s: Step)
  {
    s == AskOffset || s == AskTempo || s == AskTime
  }

  /**
   * What `ConvertWavToSpecialOgg` guarantees: the prompts and tool starts it
   * adds follow the plan for the two switches and stop early only on a
   * cancel or an unreadable duration. The run was cancelled exactly when the
   * last thing it did was a prompt; it encoded exactly when it went through
   * the whole plan; otherwise bar counters are on, the duration probe was
   * the last step, the status is "Processing..." and the error is logged.
   */
  predicate WavOutcome(m: Machine, r: Machine)
  {
    Extends(m, r) && |r.trace| > |m.trace| &&
    var ss := Steps(Added(m, r));
    |ss| > 0 && ss <= Plan(m.lufs, m.madi) &&
    (Ended(r) <==> ss == Plan(m.lufs, m.madi)) &&
    (r.status == "Cancelled." <==> IsPrompt(ss[|ss| - 1])) &&
    (Ended(r) || r.status == "Cancelled." ||
     (r.status == "Processing..." && m.madi && ss[|ss| - 1] == ProbeDuration &&
      |r.log| > 0 && r.log[|r.log| - 1] == LogEntry("Error: Could not read duration.", Red)))
  }

  /** Steps compose along a run. */
  lemma Chain(a: Machine, b: Machine, c: Machine)
    requires Extends(a, b) && Extends(b, c)
    ensures Extends(a, c) && Steps(Added(a, c)) == Steps(Added(a, b)) + Steps(Added(b, c))
  {
    assert c.trace[..|b.trace|][..|a.trace|] == c.trace[..|a.trace|];
    TraceSplit(a, b);
    TraceSplit(b, c);
    assert Added(a, c) == Added(a, b) + Added(b, c);
    StepsAppend(Added(a, b), Added(b, c));
  }

  /** A trace is what it continued plus what was added. */
  lemma TraceSplit(a: Machine, b: Machine)
    requires Extends(a, b)
    ensures b.trace == a.trace + Added(a, b)
  {
    assert b.trace == b.trace[..|a.trace|] + b.trace[|a.trace|..];
  }

  lemma OffsetSteps(suggestion: string)
    ensures Steps([Asked(OffsetQuestion, suggestion)]) == [AskOffset]
  {
  }

  lemma TempoSteps(input: string, suggestion: string)
    ensures Steps([Started(TempoProbe(input)), Asked(TempoQuestion, suggestion)]) == [ProbeTempo, AskTempo]
    ensures Steps([Started(TempoProbe(input)), Asked(TempoQuestion, suggestion), Asked(TimeQuestion, "0.0")]) == [ProbeTempo, AskTempo, AskTime]
  {
    var a, b, c := Started(TempoProbe(input)), Asked(TempoQuestion, suggestion), Asked(TimeQuestion, "0.0");
    assert StepOf(b) == AskTempo by {
      assert TempoQuestion != OffsetQuestion by { assert |TempoQuestion| != |OffsetQuestion|; }
    }
    assert StepOf(c) == AskTime by {
      assert TimeQuestion != OffsetQuestion by { assert |TimeQuestion| != |OffsetQuestion|; }
      assert TimeQuestion != TempoQuestion by { assert |TimeQuestion| != |TempoQuestion|; }
    }
    assert Steps([c]) == [AskTime] by { assert [c][1..] == []; }
    assert Steps([b]) == [AskTempo] by { assert [b][1..] == []; }
    assert Steps([b, c]) == [AskTempo, AskTime] by { assert [b, c][1..] == [c]; }
    assert [a, b][1..] == [b];
    assert [a, b, c][1..] == [b, c];
  }

  /** The outcome of a run cancelled at a prompt. */
  lemma CancelledOutcome(m: Machine, r: Machine)
    requires Extends(m, r) && r.status == "Cancelled." && |r.trace| > |m.trace|
    requires var ss := Steps(Added(m, r));
      ss == [AskOffset] || (m.madi && (ss == [AskOffset, ProbeTempo, AskTempo] || ss == [AskOffset, ProbeTempo, AskTempo, AskTime]))
    ensures WavOutcome(m, r)
  {
    var ss := Steps(Added(m, r));
    var plan := Plan(m.lufs, m.madi);
    assert plan[..1] == [AskOffset];
    if m.madi {
      assert plan[..3] == [AskOffset, ProbeTempo, AskTempo];
      assert plan[..4] == [AskOffset, ProbeTempo, AskTempo, AskTime];
    }
    assert |ss| < |plan|;
  }

  /** The outcome of a run that got past the prompts. */
  lemma FinishedOutcome(m: Machine, r: Machine)
    requires Extends(m, r) && |r.trace| > |m.trace| && EndedOrNoDuration(r, "Processing...", m.madi)
    requires Steps(Added(m, r)) == [AskOffset] + (if m.madi then [ProbeTempo, AskTempo, AskTime] else []) + FinishSteps(m.lufs, m.madi, Ended(r))
    ensures WavOutcome(m, r)
  {
    var ss := Steps(Added(m, r));
    var plan := Plan(m.lufs, m.madi);
    var front := [AskOffset] + (if m.madi then [ProbeTempo, AskTempo, AskTime] else []) + (if m.lufs then [ProbeLoudness] else []) + (if m.madi then [ProbeDuration] else []);
    assert plan == front + [EncodeFinal];
    if Ended(r) {
      assert ss == plan;
    } else {
      assert ss == front;
      assert |ss| < |plan| && ss == plan[..|ss|];
      assert ss[|ss| - 1] == ProbeDuration;
    }
  }

  /** The offset prompt cancelled: the run is "Cancelled." after that one prompt. */
  lemma OffsetCancelled(m: Machine, input: string)
    requires Prompt(m, OffsetQuestion, ClipboardDefault(m.env.clipboard)).1.None?
    ensures var r := SpecialOgg(m, input);
      WavOutcome(m, r) && r.status == "Cancelled." && Steps(Added(m, r)) == [AskOffset]
  {
    var c := ClipboardDefault(m.env.clipboard);
    var (m1, offset) := Prompt(m, OffsetQuestion, c);
    PromptEffect(m, OffsetQuestion, c);
    var r := m1.(status := "Cancelled.");
    assert Added(m, r) == [Asked(OffsetQuestion, c)];
    OffsetSteps(c);
    CancelledOutcome(m, r);
  }

  /** Without bar counters and with the offset given: the whole plan, ending in the encode's result. */
  lemma EditedRun(m: Machine, input: string)
    requires Prompt(m, OffsetQuestion, ClipboardDefault(m.env.clipboard)).1.Some? && !m.madi
    ensures var r := SpecialOgg(m, input);
      WavOutcome(m, r) && Ended(r) && Steps(Added(m, r)) == Plan(m.lufs, false)
  {
    var c := ClipboardDefault(m.env.clipboard);
    var (m1, offset) := Prompt(m, OffsetQuestion, c);
    PromptEffect(m, OffsetQuestion, c);
    assert Added(m, m1) == [Asked(OffsetQuestion, c)];
    OffsetSteps(c);
    var r := Finish(m1, input, offset.value, 0.0, 0.0);
    FinishEffect(m1, input, offset.value, 0.0, 0.0);
    Chain(m, m1, r);
    FinishedOutcome(m, r);
  }

  /** With bar counters, the tempo or time prompt cancelled: the run is "Cancelled." right after that prompt, with nothing logged. */
  lemma TempoCancelled(m: Machine, input: string)
    requires Prompt(m, OffsetQuestion, ClipboardDefault(m.env.clipboard)).1.Some? && m.madi
    requires TempoAndTime(Prompt(m, OffsetQuestion, ClipboardDefault(m.env.clipboard)).0, input).1.None?
    ensures var r := SpecialOgg(m, input);
      WavOutcome(m, r) && r.status == "Cancelled." && r.log == m.log &&
      (Steps(Added(m, r)) == [AskOffset, ProbeTempo, AskTempo] || Steps(Added(m, r)) == [AskOffset, ProbeTempo, AskTempo, AskTime])
  {
    var c := ClipboardDefault(m.env.clipboard);
    var (m1, offset) := Prompt(m, OffsetQuestion, c);
    PromptEffect(m, OffsetQuestion, c);
    assert Added(m, m1) == [Asked(OffsetQuestion, c)];
    OffsetSteps(c);
    var (m2, bt) := TempoAndTime(m1, input);
    TempoAndTimeEffect(m1, input);
    TempoCancelCompose(m, m1, m2.(status := "Cancelled."), input, TempoSuggestion(m1, input));
  }

  /** A cancel or an unreadable answer at the tempo prompt ends the run there as "Cancelled.": the time prompt is not shown. */
  lemma TempoPromptCancelled(m: Machine, input: string)
    requires Prompt(m, OffsetQuestion, ClipboardDefault(m.env.clipboard)).1.Some? && m.madi
    requires TempoPrompt(Prompt(m, OffsetQuestion, ClipboardDefault(m.env.clipboard)).0, input).1.None?
    ensures var r := SpecialOgg(m, input);
      WavOutcome(m, r) && r.status == "Cancelled." && r.log == m.log && Steps(Added(m, r)) == [AskOffset, ProbeTempo, AskTempo]
  {
    var m1 := Prompt(m, OffsetQuestion, ClipboardDefault(m.env.clipboard)).0;
    PromptEffect(m, OffsetQuestion, ClipboardDefault(m.env.clipboard));
    TempoAndTimeEffect(m1, input);
    TempoCancelled(m, input);
    var r := SpecialOgg(m, input);
    StepsLength(Added(m, r));
  }

  /** With a tempo given, a cancel or an unreadable answer at the time prompt ends the run there as "Cancelled.". */
  lemma TimePromptCancelled(m: Machine, input: string)
    requires Prompt(m, OffsetQuestion, ClipboardDefault(m.env.clipboard)).1.Some? && m.madi
    requires var m1 := Prompt(m, OffsetQuestion, ClipboardDefault(m.env.clipboard)).0;
      TempoPrompt(m1, input).1.Some? && TimeAnswer(m1, input).None?
    ensures var r := SpecialOgg(m, input);
      WavOutcome(m, r) && r.status == "Cancelled." && r.log == m.log && Steps(Added(m, r)) == [AskOffset, ProbeTempo, AskTempo, AskTime]
  {
    var m1 := Prompt(m, OffsetQuestion, ClipboardDefault(m.env.clipboard)).0;
    PromptEffect(m, OffsetQuestion, ClipboardDefault(m.env.clipboard));
    TempoAndTimeEffect(m1, input);
    TempoCancelled(m, input);
    var r := SpecialOgg(m, input);
    StepsLength(Added(m, r));
  }

  /** Each event is one step. */
  lemma {:induction false} StepsLength(es: seq<Event>)
    ensures |Steps(es)| == |es|
  {
    if |es| > 0 {
      StepsLength(es[1..]);
    }
  }

  lemma TempoCancelCompose(m: Machine, m1: Machine, r: Machine, input: string, suggestion: string)
    requires m.madi && Extends(m, m1) && Steps(Added(m, m1)) == [AskOffset] && SameSwitches(m1, r) && r.busy == m1.busy
    requires r.status == "Cancelled."
    requires var asked := [Started(TempoProbe(input)), Asked(TempoQuestion, suggestion)];
      r.trace == m1.trace + asked || r.trace == m1.trace + asked + [Asked(TimeQuestion, "0.0")]
    ensures WavOutcome(m, r)
    ensures Steps(Added(m, r)) == [AskOffset, ProbeTempo, AskTempo] || Steps(Added(m, r)) == [AskOffset, ProbeTempo, AskTempo, AskTime]
  {
    TempoSteps(input, suggestion);
    var asked := [Started(TempoProbe(input)), Asked(TempoQuestion, suggestion)];
    if r.trace == m1.trace + asked {
      assert Added(m1, r) == asked;
    } else {
      assert Added(m1, r) == asked + [Asked(TimeQuestion, "0.0")];
    }
    Chain(m, m1, r);
    CancelledOutcome(m, r);
  }

  /**
   * With bar counters and every prompt answered: the three prompts, then the
   * rest of the plan; the run is not cancelled, and it ends in the encode's
   * result or at an unreadable duration.
   */
  lemma MadiRun(m: Machine, input: string)
    requires Prompt(m, OffsetQuestion, ClipboardDefault(m.env.clipboard)).1.Some? && m.madi
    requires TempoAndTime(Prompt(m, OffsetQuestion, ClipboardDefault(m.env.clipboard)).0, input).1.Some?
    ensures var r := SpecialOgg(m, input);
      WavOutcome(m, r) && r.status != "Cancelled." && EndedOrNoDuration(r, "Processing...", true) &&
      Steps(Added(m, r)) == [AskOffset, ProbeTempo, AskTempo, AskTime] + FinishSteps(m.lufs, true, Ended(r))
  {
    hide Prompt;
    hide TempoAndTime;
    hide Finish;
    hide ClipboardDefault;
    hide ParseNumber;
    hide FormatBpm;
    hide TempoSuggestion;
    hide BpmFromAudio;
    var c := ClipboardDefault(m.env.clipboard);
    var (m1, offset) := Prompt(m, OffsetQuestion, c);
    PromptEffect(m, OffsetQuestion, c);
    assert Added(m, m1) == [Asked(OffsetQuestion, c)];
    OffsetSteps(c);
    var (m2, bt) := TempoAndTime(m1, input);
    TempoAndTimeEffect(m1, input);
    TempoSteps(input, TempoSuggestion(m1, input));
    assert Added(m1, m2) == [Started(TempoProbe(input)), Asked(TempoQuestion, TempoSuggestion(m1, input)), Asked(TimeQuestion, "0.0")];
    Chain(m, m1, m2);
    var r := Finish(m2, input, offset.value, bt.value.0, bt.value.1);
    FinishEffect(m2, input, offset.value, bt.value.0, bt.value.1);
    Chain(m, m2, r);
    assert Steps(Added(m, r)) == [AskOffset, ProbeTempo, AskTempo, AskTime] + FinishSteps(m.lufs, true, Ended(r));
    FinishedOutcome(m, r);
  }

  /** With bar counters, a number given at each of the three prompts keeps the run from being cancelled. */
  lemma AnsweredMadiRun(m: Machine, input: string)
    requires Prompt(m, OffsetQuestion, ClipboardDefault(m.env.clipboard)).1.Some? && m.madi
    requires var m1 := Prompt(m, OffsetQuestion, ClipboardDefault(m.env.clipboard)).0;
      TempoPrompt(m1, input).1.Some? && TimeAnswer(m1, input).Some?
    ensures var r := SpecialOgg(m, input);
      WavOutcome(m, r) && r.status != "Cancelled." && EndedOrNoDuration(r, "Processing...", true) &&
      Steps(Added(m, r)) == [AskOffset, ProbeTempo, AskTempo, AskTime] + FinishSteps(m.lufs, true, Ended(r))
  {
    TempoAndTimeEffect(Prompt(m, OffsetQuestion, ClipboardDefault(m.env.clipboard)).0, input);
    MadiRun(m, input);
  }

  /** Every WAV run ends in one of the outcomes `WavOutcome` lists. */
  lemma SpecialOggOutcome(m: Machine, input: string)
    ensures WavOutcome(m, SpecialOgg(m, input))
  {
    var c := ClipboardDefault(m.env.clipboard);
    var (m1, offset) := Prompt(m, OffsetQuestion, c);
    if offset.None? {
      OffsetCancelled(m, input);
    } else if !m.madi {
      EditedRun(m, input);
    } else if TempoAndTime(m1, input).1.None? {
      TempoCancelled(m, input);
    } else {
      MadiRun(m, input);
    }
  }

  // ----- Prompts and the choice of tempo -----

  /** The answer a prompt takes: the next one, or a cancel when none is left. */
  function NextAnswer(m: Machine): Answer
  {
    if |m.env.answers| > 0 then m.env.answers[0] else Cancel
  }

  /**
   * `PromptForValue` yields a number exactly when the dialog is confirmed
   * and its text reads as a number; the number is what the text reads as.
   */
  lemma PromptValue(m: Machine, q: string, s: string)
    ensures var v := Prompt(m, q, s).1;
      (v.Some? <==> match NextAnswer(m)
                    case Cancel => false
                    case Accept => ParseNumber(s).Some?
                    case Enter(t) => ParseNumber(t).Some?) &&
      (NextAnswer(m).Accept? ==> v == ParseNumber(s)) &&
      (NextAnswer(m).Enter? ==> v == ParseNumber(NextAnswer(m).text))
  {
  }

  /** An answer that does not read as a number does exactly what a cancel does. */
  lemma UnparseableIsCancel(m: Machine, q: string, s: string, t: string)
    requires |m.env.answers| > 0 && m.env.answers[0] == Enter(t) && ParseNumber(t).None?
    ensures Prompt(m, q, s) == Prompt(m.(env := m.env.(answers := [Cancel] + m.env.answers[1..])), q, s)
    ensures Prompt(m, q, s).1.None?
  {
    assert ([Cancel] + m.env.answers[1..])[1..] == m.env.answers[1..];
  }

  /** Confirming the pre-filled offset never cancels the run. */
  lemma AcceptedOffsetParses(m: Machine)
    requires NextAnswer(m).Accept?
    ensures Prompt(m, OffsetQuestion, ClipboardDefault(m.env.clipboard)).1.Some?
  {
    ClipboardDefaultParses(m.env.clipboard);
  }

  /** A cancelled offset prompt ends the run at once: nothing is started, nothing logged, and the status says so. */
  lemma OffsetCancelEndsRun(m: Machine, input: string)
    requires Prompt(m, OffsetQuestion, ClipboardDefault(m.env.clipboard)).1.None?
    ensures var r := SpecialOgg(m, input);
      r.trace == m.trace + [Asked(OffsetQuestion, ClipboardDefault(m.env.clipboard))] &&
      r.log == m.log && r.status == "Cancelled." && r.env.replies == m.env.replies
  {
  }

  /** The suggestion of the tempo prompt always lies strictly between 40 and 300: the detected tempo, or 120 when none was detected. */
  lemma TempoGuessInRange(m: Machine, input: string)
    ensures var d := BpmFromAudio(m, input).1;
      InRange(TempoGuess(d)) && (d == 0.0 ==> TempoGuess(d) == FallbackTempo) && (d != 0.0 ==> TempoGuess(d) == d)
  {
    var reply := if |m.env.replies| > 0 then m.env.replies[0] else NotStarted("");
    if reply.Exited? {
      DetectedTempoRange(reply.text);
    }
  }

  /**
   * The tempo used for the bar counters: a typed number wins over the
   * detection; a confirmed suggestion gives the detected tempo (or 120)
   * rounded to three decimals, as the suggestion was written.
   */
  lemma TempoChoice(m: Machine, input: string)
    ensures var m1 := BpmFromAudio(m.(status := "Detecting BPM..."), input).0;
      var guess := TempoGuess(BpmFromAudio(m.(status := "Detecting BPM..."), input).1);
      var bt := TempoAndTime(m, input).1;
      bt.Some? ==>
        (NextAnswer(m1).Enter? ==> Some(bt.value.0) == ParseNumber(NextAnswer(m1).text)) &&
        (NextAnswer(m1).Accept? ==> bt.value.0 == RoundTo(guess, 3))
  {
    var m0 := m.(status := "Detecting BPM...");
    var (m1, detected) := BpmFromAudio(m0, input);
    var guess := TempoGuess(detected);
    PromptValue(m1, TempoQuestion, FormatBpm(guess));
    ParseFormatBpm(guess);
  }

  // ----- ProcessFile -----

  /** An extension other than .flac, .wav, .ogg or .mp3, in any letter case, is refused: one red line, status "Invalid File", nothing started, the busy flag untouched. */
  lemma UnsupportedInput(m: Machine, input: string)
    requires DispatchKey(input) !in Extensions
    ensures var r := ProcessFile(m, input);
      r.trace == m.trace && r.env == m.env && r.busy == m.busy && r.status == "Invalid File" &&
      r.log == m.log + [LogEntry("Error: Unsupported file type '" + DispatchKey(input) + "'.", Red)]
  {
  }

  /**
   * A FLAC, OGG or MP3 input is converted to a WAV beside it with one tool
   * start; the log is cleared first; the run ends not busy, "Done." exactly
   * when the converter exits with 0, "Error." otherwise.
   */
  lemma StandardInput(m: Machine, input: string)
    requires DispatchKey(input) in [".flac", ".ogg", ".mp3"]
    ensures var r := ProcessFile(m, input);
      var ok := |m.env.replies| > 0 && m.env.replies[0].Exited? && m.env.replies[0].code == 0;
      r.trace == m.trace + [Started(ToWav(input, WavOutput(input)))] && !r.busy && SameSwitches(m, r) &&
      (r.status == "Done." <==> ok) && (r.status == "Error." <==> !ok) &&
      |r.log| == (if ok then 1 else 2) && r.log[0].text == (if ok then "\nConversion successful." else "\nError: Conversion failed.")
  {
    var m1 := m.(busy := true, log := [], status := "Processing...");
    StandardKey(DispatchKey(input));
    StandardWavEffect(m1, input);
    assert ProcessFile(m, input) == StandardWav(m1, input).(busy := false);
  }

  lemma StandardKey(k: string)
    requires k in [".flac", ".ogg", ".mp3"]
    ensures k in Extensions && k != ".wav"
  {
    assert ".ogg"[1] != ".wav"[1];
  }

  /** `ConvertToStandardWav`: one tool start, then the result handled. */
  lemma StandardWavEffect(m: Machine, input: string)
    ensures var r := StandardWav(m, input);
      var ok := |m.env.replies| > 0 && m.env.replies[0].Exited? && m.env.replies[0].code == 0;
      r.trace == m.trace + [Started(ToWav(input, WavOutput(input)))] && SameSwitches(m, r) &&
      (r.status == "Done." <==> ok) && (r.status == "Error." <==> !ok) &&
      r.log == m.log + (if ok then [LogEntry("\nConversion successful.", LimeGreen)]
                        else [LogEntry("\nError: Conversion failed.", Red), LogEntry(RunFfmpeg(m, ToWav(input, WavOutput(input))).1.output, Gray)])
  {
    var (m2, res) := RunFfmpeg(m, ToWav(input, WavOutput(input)));
    RunEffect(m, ToWav(input, WavOutput(input)));
    HandleResultOutcome(m2, res);
  }

  /**
   * A WAV input goes through the special encode: the log is cleared, the
   * prompts and tool starts follow the plan for the two switches as far as
   * the run got, and the run ends not busy.
   */
  lemma WavInput(m: Machine, input: string)
    requires DispatchKey(input) == ".wav"
    ensures var r := ProcessFile(m, input);
      !r.busy && |r.trace| > |m.trace| && r.trace[..|m.trace|] == m.trace &&
      var ss := Steps(r.trace[|m.trace|..]);
      |ss| > 0 && ss <= Plan(m.lufs, m.madi) && (Ended(r) <==> ss == Plan(m.lufs, m.madi)) &&
      (r.status == "Cancelled." <==> IsPrompt(ss[|ss| - 1])) &&
      (Ended(r) || r.status == "Cancelled." || r.status == "Processing...")
  {
    hide SpecialOgg;
    hide WavOutcome;
    var m1 := m.(busy := true, log := [], status := "Processing...");
    var w := SpecialOgg(m1, input);
    SpecialOggOutcome(m1, input);
    WavCompose(m, m1, w);
  }

  lemma WavCompose(m: Machine, m1: Machine, w: Machine)
    requires m1.trace == m.trace && SameSwitches(m, m1) && WavOutcome(m1, w)
    ensures var r := w.(busy := false);
      !r.busy && |r.trace| > |m.trace| && r.trace[..|m.trace|] == m.trace &&
      var ss := Steps(r.trace[|m.trace|..]);
      |ss| > 0 && ss <= Plan(m.lufs, m.madi) && (Ended(r) <==> ss == Plan(m.lufs, m.madi)) &&
      (r.status == "Cancelled." <==> IsPrompt(ss[|ss| - 1])) &&
      (Ended(r) || r.status == "Cancelled." || r.status == "Processing...")
  {
    assert Added(m1, w) == w.trace[|m.trace|..];
  }
}
