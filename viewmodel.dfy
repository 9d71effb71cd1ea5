/**
 * The converter's view model as the object it is: its status line, busy
 * flag, log and the two option switches are fields that its methods update
 * in place. The outside world (clipboard, dialogs, external tools) is the
 * field `world`, whose answers the methods consume in order; the ghost
 * field `trace` records every prompt shown and every tool started.
 *
 * Each method is proved to leave the object in the state the matching
 * function of the Pipeline module describes; the properties of a run are
 * proved about those functions in the Behaviour module.
 */
module ViewModel {
  import opened Wrappers
  import opened Text
  import opened Paths
  import opened Patterns
  import opened Tempo
  import opened Madi
  import opened Encoding
  import opened Pipeline

  class MainViewModel {
    var statusMessage: string
    var isBusy: bool
    var consoleOutput: seq<LogEntry>
    var applyLufsNormalization: bool
    var calculateMadiValues: bool
    var world: Environment
    ghost var trace: seq<Event>

    /** The object's state as the Pipeline functions see it. */
    ghost function State(): Machine
      reads this
    {
      Machine(statusMessage, isBusy, consoleOutput, applyLufsNormalization, calculateMadiValues, world, trace)
    }

    /** A fresh view model: "Ready", not busy, an empty log, both options on. */
    constructor (world: Environment)
      ensures State() == Machine("Ready", false, [], true, true, world, [])
    {
      statusMessage := "Ready";
      isBusy := false;
      consoleOutput := [];
      applyLufsNormalization := true;
      calculateMadiValues := true;
      this.world := world;
      trace := [];
    }

    /** `Log`: the entry is appended to the console output. */
    method Log(message: string, color: Brush)
      modifies this
      ensures State() == Logged(old(State()), message, color)
    {
      consoleOutput := consoleOutput + [LogEntry(message, color)];
    }

    /** Starting a process: the next reply of the world, or a failure to start when there is none. */
    method Launch(inv: Invocation) returns (reply: ToolReply)
      modifies this
      ensures (State(), reply) == Start(old(State()), inv)
    {
      if |world.replies| > 0 {
        reply := world.replies[0];
        world := world.(replies := world.replies[1..]);
      } else {
        reply := NotStarted("");
      }
      trace := trace + [Started(inv)];
    }

    /** `RunFfmpeg`. */
    method RunFfmpeg(inv: Invocation) returns (result: FfmpegResult)
      modifies this
      ensures (State(), result) == Pipeline.RunFfmpeg(old(State()), inv)
    {
      var reply := Launch(inv);
      match reply
      case Exited(code, text) =>
        result := FfmpegResult(code == 0, text);
      case NotStarted(reason) =>
        result := FfmpegResult(false, reason);
    }

    /** `GetAudioDuration`. */
    method GetAudioDuration(inputFile: string) returns (duration: real)
      modifies this
      ensures (State(), duration) == AudioDuration(old(State()), inputFile)
    {
      var reply := Launch(DurationProbe(inputFile));
      duration := -1.0;
      if reply.Exited? {
        var parsed := ParseNumber(reply.text);
        if parsed.Some? {
          duration := parsed.value;
        }
      }
    }

    /** `GetBpmFromAudio`: the kept estimates are collected, sorted in place and reduced to their median. */
    method GetBpmFromAudio(inputFile: string) returns (bpm: real)
      modifies this
      ensures (State(), bpm) == BpmFromAudio(old(State()), inputFile)
    {
      var reply := Launch(TempoProbe(inputFile));
      bpm := 0.0;
      if reply.Exited? {
        bpm := ReduceTempo(reply.text);
      }
    }

    /** `PromptForValue`: true with the number read from a confirmed dialog; false with 0 on a cancel or an answer that is not a number. */
    method PromptForValue(question: string, defaultValue: string) returns (ok: bool, result: real)
      modifies this
      ensures (State(), if ok then Some(result) else None) == Prompt(old(State()), question, defaultValue)
      ensures !ok ==> result == 0.0
    {
      var answer := Cancel;
      if |world.answers| > 0 {
        answer := world.answers[0];
        world := world.(answers := world.answers[1..]);
      }
      trace := trace + [Asked(question, defaultValue)];
      var text := AnswerText(answer, defaultValue);
      var parsed := if text.Some? then ParseNumber(text.value) else None;
      if parsed.Some? {
        ok, result := true, parsed.value;
      } else {
        ok, result := false, 0.0;
      }
    }

    /** `HandleConversionResult`. */
    method HandleConversionResult(result: FfmpegResult)
      modifies this
      ensures State() == HandleResult(old(State()), result)
    {
      if result.success {
        Log("\nConversion successful.", LimeGreen);
        statusMessage := "Done.";
      } else {
        Log("\nError: Conversion failed.", Red);
        Log(result.output, Gray);
        statusMessage := "Error.";
      }
    }

    /** `ConvertToStandardWav`, which `ConvertFlacToWav`, `ConvertOggToWav` and `ConvertMp3ToWav` call. */
    method ConvertToStandardWav(inputFile: string)
      modifies this
      ensures State() == StandardWav(old(State()), inputFile)
    {
      var outputFile := Combine(DirectoryName(inputFile), Stem(inputFile) + ".wav");
      var result := RunFfmpeg(ToWav(inputFile, outputFile));
      HandleConversionResult(result);
    }

    /** `ParseAndLogEbur128`: true with the integrated loudness when it reads as a number, false with 0 otherwise. */
    method ParseAndLogEbur128(analysisOutput: string) returns (ok: bool, measuredLufs: real)
      modifies this
      ensures (State(), if ok then Some(measuredLufs) else None) == Pipeline.ParseAndLogEbur128(old(State()), analysisOutput)
      ensures !ok ==> measuredLufs == 0.0
    {
      Log("EBU R128 Measurement", LightCoral);
      var iString := IntegratedLoudnessText(analysisOutput);
      Log("\tI: \t\t" + iString, LightGreen);
      var parsed := ParseNumber(iString);
      if parsed.Some? {
        ok, measuredLufs := true, parsed.value;
      } else {
        ok, measuredLufs := false, 0.0;
      }
    }

    /**
     * `ConvertWavToSpecialOgg`: the offset prompt, pre-filled from the
     * clipboard; with bar counters on, the tempo detection and the tempo and
     * time prompts; a cancel of any prompt ends the run as "Cancelled.".
     */
    method ConvertWavToSpecialOgg(inputFile: string)
      modifies this
      ensures State() == SpecialOgg(old(State()), inputFile)
    {
      hide ParseNumber;
      hide ClipboardDefault;
      hide TempoAndTime;
      hide Finish;
      ghost var s0 := State();
      var defaultOffset := ClipboardDefault(world.clipboard);
      var offsetGiven, manualOffsetSeconds := PromptForValue(OffsetQuestion, defaultOffset);
      if !offsetGiven {
        statusMessage := "Cancelled.";
        return;
      }
      var bpm, time := 0.0, 0.0;
      if calculateMadiValues {
        var given;
        given, bpm, time := AskTempoAndTime(inputFile);
        if !given {
          statusMessage := "Cancelled.";
          return;
        }
      }
      ProcessSpecial(inputFile, manualOffsetSeconds, bpm, time);
    }

    /** The BPM and time part of `ConvertWavToSpecialOgg`: the detection, then the tempo prompt pre-filled with the detected tempo or 120, then the time prompt. */
    method AskTempoAndTime(inputFile: string) returns (given: bool, bpm: real, time: real)
      modifies this
      ensures (State(), if given then Some((bpm, time)) else None) == TempoAndTime(old(State()), inputFile)
    {
      hide ParseNumber;
      hide DetectedTempo;
      hide FormatBpm;
      statusMessage := "Detecting BPM...";
      var detectedBpm := GetBpmFromAudio(inputFile);
      bpm := if detectedBpm > 0.0 then detectedBpm else FallbackTempo;
      time := 0.0;
      given, bpm := PromptForValue(TempoQuestion, FormatBpm(bpm));
      if !given {
        return;
      }
      given, time := PromptForValue(TimeQuestion, "0.0");
    }

    /** The third part of `ConvertWavToSpecialOgg`: status "Processing...", the filters, the bar counters and the encode. */
    method ProcessSpecial(inputFile: string, manualOffsetSeconds: real, bpm: real, time: real)
      modifies this
      ensures State() == Finish(old(State()), inputFile, manualOffsetSeconds, bpm, time)
    {
      statusMessage := "Processing...";
      ghost var measured;
      var audioFilters;
      audioFilters, measured := NormalizationFilter(inputFile);
      if manualOffsetSeconds > 0.0 {
        audioFilters := [DelayFilter(manualOffsetSeconds)] + audioFilters;
      }
      assert audioFilters == Filters(measured, manualOffsetSeconds);
      EncodeSpecial(inputFile, manualOffsetSeconds, audioFilters, bpm, time);
    }

    /** The LUFS part of `ConvertWavToSpecialOgg`: the gain filter when normalisation is on and the measured loudness was read. */
    method NormalizationFilter(inputFile: string) returns (audioFilters: seq<string>, ghost measured: Option<real>)
      modifies this
      ensures (State(), measured) == Loudness(old(State()), inputFile)
      ensures audioFilters == if measured.Some? then [VolumeFilter(measured.value)] else []
    {
      audioFilters, measured := [], None;
      if applyLufsNormalization {
        var analysisResult := RunFfmpeg(LoudnessProbe(inputFile));
        if analysisResult.success && |analysisResult.output| > 0 {
          var parsed, measuredLufs := ParseAndLogEbur128(analysisResult.output);
          if parsed {
            audioFilters := audioFilters + [VolumeFilter(measuredLufs)];
            Log("\tLUFS: \t\t-8", LightGreen);
            measured := Some(measuredLufs);
          }
        }
      }
    }

    /** The MADI part of `ConvertWavToSpecialOgg` and the final encode: the duration guard, the logged counters, the output name and the result. */
    method EncodeSpecial(inputFile: string, manualOffsetSeconds: real, audioFilters: seq<string>, bpm: real, time: real)
      modifies this
      ensures State() == Conclude(old(State()), inputFile, manualOffsetSeconds, audioFilters, bpm, time)
    {
      ghost var s0 := State();
      var outputFile;
      if calculateMadiValues {
        var songLengthSeconds := GetAudioDuration(inputFile);
        if songLengthSeconds <= 0.0 {
          Log("Error: Could not read duration.", Red);
          return;
        }
        ghost var s1 := State();
        var startmadi := StartMadi(bpm, time, manualOffsetSeconds);
        var totalmadi := TotalMadi(bpm, songLengthSeconds);
        Log("\tBPM: \t\t" + FormatBpm(bpm), LightGreen);
        Log("Time Signature", LightCoral);
        Log("\tStartMadi: \t" + IntToString(startmadi), LightGreen);
        Log("\tTotalMadi: \t" + IntToString(totalmadi) + "\n", LightGreen);
        assert State() == MadiLog(s1, bpm, startmadi, totalmadi);
        outputFile := Combine(DirectoryName(inputFile), MadiFileName(Stem(inputFile), bpm, startmadi, totalmadi));
      } else {
        outputFile := Combine(DirectoryName(inputFile), EditedFileName(Stem(inputFile)));
      }
      ghost var s2 := State();
      var finalResult := RunFfmpeg(FinalEncode(inputFile, manualOffsetSeconds, audioFilters, outputFile));
      HandleConversionResult(finalResult);
      assert State() == Encode(s2, inputFile, manualOffsetSeconds, audioFilters, outputFile);
    }

    /** `ProcessFile`: the dispatch on the lower-cased extension. */
    method ProcessFile(inputFile: string)
      modifies this
      ensures State() == Pipeline.ProcessFile(old(State()), inputFile)
    {
      hide SpecialOgg;
      hide StandardWav;
      var extension := ToLower(Extension(inputFile));
      if extension !in Extensions {
        Log("Error: Unsupported file type '" + extension + "'.", Red);
        statusMessage := "Invalid File";
        return;
      }
      ghost var s0 := State();
      isBusy := true;
      consoleOutput := [];
      statusMessage := "Processing...";
      if extension == ".wav" {
        ConvertWavToSpecialOgg(inputFile);
        WavDispatch(s0, inputFile);
      } else {
        ConvertToStandardWav(inputFile);
        StandardDispatch(s0, inputFile);
      }
      isBusy := false;
    }
  }

  lemma WavDispatch(m: Machine, input: string)
    requires DispatchKey(input) == ".wav"
    ensures Pipeline.ProcessFile(m, input) == SpecialOgg(m.(busy := true, log := [], status := "Processing..."), input).(busy := false)
  {
  }

  lemma StandardDispatch(m: Machine, input: string)
    requires DispatchKey(input) in Extensions && DispatchKey(input) != ".wav"
    ensures Pipeline.ProcessFile(m, input) == StandardWav(m.(busy := true, log := [], status := "Processing..."), input).(busy := false)
  {
  }
}
