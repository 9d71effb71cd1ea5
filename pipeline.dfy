/**
 * The observable behaviour of one run of the converter, as functions of the
 * view model's state before the run. The state holds the status line, the
 * busy flag, the log, the two option switches, the answers the outside world
 * will give (the clipboard, the replies of the external tools in the order
 * they are started, the user's answers in the order the prompts appear) and
 * the trace of prompts shown and tools started so far.
 */
module Pipeline {
  import opened Wrappers
  import opened Text
  import opened Paths
  import opened Patterns
  import opened Tempo
  import opened Madi
  import opened Encoding

  /** The brushes the log uses. */
  datatype Brush = White | Red | LightCoral | LightGreen | LimeGreen | Gray

  datatype LogEntry = LogEntry(text: string, color: Brush)

  /** What a started tool gives back: its exit code and the stream the converter reads, or the message of the exception that kept it from starting. */
  datatype ToolReply = Exited(code: int, text: string) | NotStarted(reason: string)

  /** The user's answer to a prompt: Cancel, OK with the suggested text left in the box, or OK with a text of their own. */
  datatype Answer = Cancel | Accept | Enter(text: string)

  /** The outside world as the converter meets it during one run. */
  datatype Environment = Environment(clipboard: Option<string>, replies: seq<ToolReply>, answers: seq<Answer>)

  /** A prompt shown with its suggestion, or an external tool started. */
  datatype Event = Asked(question: string, suggestion: string) | Started(invocation: Invocation)

  datatype FfmpegResult = FfmpegResult(success: bool, output: string)

  /** The view model's state as far as a run reads or changes it. */
  datatype Machine = Machine(
    status: string,
    busy: bool,
    log: seq<LogEntry>,
    lufs: bool,
    madi: bool,
    env: Environment,
    trace: seq<Event>)

  const OffsetQuestion: string := "Enter Manual Offset (e.g. 1.234)"
  const TempoQuestion: string := "Enter BPM"
  const TimeQuestion: string := "Enter Time (First Space)"
  const FallbackTempo: real := 120.0

  const Extensions: seq<string> := [".flac", ".wav", ".ogg", ".mp3"]

  /** `Log`: one entry appended. */
  function Logged(m: Machine, text: string, color: Brush): Machine
  {
    m.(log := m.log + [LogEntry(text, color)])
  }

  /** A tool is started: it is recorded and its reply taken; when the world has no reply left the tool fails to start. */
  function Start(m: Machine, inv: Invocation): (Machine, ToolReply)
  {
    var reply := if |m.env.replies| > 0 then m.env.replies[0] else NotStarted("");
    var rest := if |m.env.replies| > 0 then m.env.replies[1..] else [];
    (m.(env := m.env.(replies := rest), trace := m.trace + [Started(inv)]), reply)
  }

  /** `RunFfmpeg`: success is a zero exit code; the output is the error stream, or the exception's message. */
  function RunFfmpeg(m: Machine, inv: Invocation): (Machine, FfmpegResult)
  {
    var (m', reply) := Start(m, inv);
    (m', match reply
         case Exited(code, text) => FfmpegResult(code == 0, text)
         case NotStarted(reason) => FfmpegResult(false, reason))
  }

  /** `GetAudioDuration`: the number ffprobe prints, or -1 when it prints none or does not start; its exit code is not looked at. */
  function AudioDuration(m: Machine, input: string): (Machine, real)
  {
    var (m', reply) := Start(m, DurationProbe(input));
    (m', match reply
         case Exited(_, text) => ParseNumber(text).GetOr(-1.0)
         case NotStarted(_) => -1.0)
  }

  /** `GetBpmFromAudio`: the tempo detected in the bpm filter's output, or 0 when the tool does not start; its exit code is not looked at. */
  function BpmFromAudio(m: Machine, input: string): (Machine, real)
  {
    var (m', reply) := Start(m, TempoProbe(input));
    (m', match reply
         case Exited(_, text) => DetectedTempo(text)
         case NotStarted(_) => 0.0)
  }

  /** The text a prompt's answer amounts to: none on Cancel, the suggestion on a plain OK, the typed text otherwise. */
  function AnswerText(a: Answer, suggestion: string): Option<string>
  {
    match a
    case Cancel => None
    case Accept => Some(suggestion)
    case Enter(text) => Some(text)
  }

  /** `PromptForValue`: the number the answer reads as; Cancel, or an answer that is not a number, gives none. With no answer left the user cancels. */
  function Prompt(m: Machine, question: string, suggestion: string): (Machine, Option<real>)
  {
    var answer := if |m.env.answers| > 0 then m.env.answers[0] else Cancel;
    var rest := if |m.env.answers| > 0 then m.env.answers[1..] else [];
    var m' := m.(env := m.env.(answers := rest), trace := m.trace + [Asked(question, suggestion)]);
    (m', match AnswerText(answer, suggestion)
         case None => None
         case Some(text) => ParseNumber(text))
  }

  /** `HandleConversionResult`. */
  function HandleResult(m: Machine, r: FfmpegResult): Machine
  {
    if r.success then Logged(m, "\nConversion successful.", LimeGreen).(status := "Done.")
    else Logged(Logged(m, "\nError: Conversion failed.", Red), r.output, Gray).(status := "Error.")
  }

  /** The output of `ConvertToStandardWav`: the input's stem with `.wav`, in the input's directory. */
  function WavOutput(input: string): string
  {
    Combine(DirectoryName(input), Stem(input) + ".wav")
  }

  /** `ConvertToStandardWav`. */
  function StandardWav(m: Machine, input: string): Machine
  {
    var (m', r) := RunFfmpeg(m, ToWav(input, WavOutput(input)));
    HandleResult(m', r)
  }

  /** `ParseAndLogEbur128`: the integrated loudness, logged under a header as the captured text or `N/A`, and read as a number. */
  function ParseAndLogEbur128(m: Machine, output: string): (Machine, Option<real>)
  {
    var value := IntegratedLoudnessText(output);
    var m' := Logged(Logged(m, "EBU R128 Measurement", LightCoral), "\tI: \t\t" + value, LightGreen);
    (m', ParseNumber(value))
  }

  /** The loudness step: the measured loudness when normalisation is on, the analysis succeeded with some output and the value reads as a number. */
  function Loudness(m: Machine, input: string): (Machine, Option<real>)
  {
    if !m.lufs then (m, None)
    else
      var (m1, r) := RunFfmpeg(m, LoudnessProbe(input));
      if !r.success || |r.output| == 0 then (m1, None)
      else
        var (m2, measured) := ParseAndLogEbur128(m1, r.output);
        if measured.None? then (m2, None)
        else (Logged(m2, "\tLUFS: \t\t-8", LightGreen), measured)
  }

  /** The suggestion for the tempo prompt: the detected tempo, or 120 when none was detected. */
  function TempoGuess(detected: real): real
  {
    if detected > 0.0 then detected else FallbackTempo
  }

  /** The tempo step: detect, then ask for the tempo and the time of the first space; a cancel of the first skips the second. */
  function TempoAndTime(m: Machine, input: string): (Machine, Option<(real, real)>)
  {
    var (m1, detected) := BpmFromAudio(m.(status := "Detecting BPM..."), input);
    var (m2, bpm) := Prompt(m1, TempoQuestion, FormatBpm(TempoGuess(detected)));
    if bpm.None? then (m2, None)
    else
      var (m3, time) := Prompt(m2, TimeQuestion, "0.0");
      if time.None? then (m3, None) else (m3, Some((bpm.value, time.value)))
  }

  /** The logged bar counters. */
  function MadiLog(m: Machine, bpm: real, start: int, total: int): Machine
  {
    var m1 := Logged(m, "\tBPM: \t\t" + FormatBpm(bpm), LightGreen);
    var m2 := Logged(m1, "Time Signature", LightCoral);
    var m3 := Logged(m2, "\tStartMadi: \t" + IntToString(start), LightGreen);
    Logged(m3, "\tTotalMadi: \t" + IntToString(total) + "\n", LightGreen)
  }

  /** The final encode to `output` and its result. */
  function Encode(m: Machine, input: string, offset: real, filters: seq<string>, output: string): Machine
  {
    var (m', r) := RunFfmpeg(m, FinalEncode(input, offset, filters, output));
    HandleResult(m', r)
  }

  /** The output without bar counters: `edited_<stem>.ogg` in the input's directory. */
  function EditedOutput(input: string): string
  {
    Combine(DirectoryName(input), EditedFileName(Stem(input)))
  }

  /** The output with bar counters, in the input's directory. */
  function MadiOutput(input: string, bpm: real, start: int, total: int): string
  {
    Combine(DirectoryName(input), MadiFileName(Stem(input), bpm, start, total))
  }

  /** Everything after the prompts: loudness, filters, then the bar counters and the encode. */
  function Finish(m: Machine, input: string, offset: real, bpm: real, time: real): Machine
  {
    var (m1, measured) := Loudness(m.(status := "Processing..."), input);
    Conclude(m1, input, offset, Filters(measured, offset), bpm, time)
  }

  /** Without bar counters the encode follows at once; with them the duration is read first, and a duration that is not positive ends the run with an error line. */
  function Conclude(m: Machine, input: string, offset: real, filters: seq<string>, bpm: real, time: real): Machine
  {
    if !m.madi then Encode(m, input, offset, filters, EditedOutput(input))
    else
      var (m1, length) := AudioDuration(m, input);
      if length <= 0.0 then Logged(m1, "Error: Could not read duration.", Red)
      else
        var start := StartMadi(bpm, time, offset);
        var total := TotalMadi(bpm, length);
        Encode(MadiLog(m1, bpm, start, total), input, offset, filters, MadiOutput(input, bpm, start, total))
  }

  /** `ConvertWavToSpecialOgg`. */
  function SpecialOgg(m: Machine, input: string): Machine
  {
    var (m1, offset) := Prompt(m, OffsetQuestion, ClipboardDefault(m.env.clipboard));
    if offset.None? then m1.(status := "Cancelled.")
    else if !m1.madi then Finish(m1, input, offset.value, 0.0, 0.0)
    else
      var (m2, bt) := TempoAndTime(m1, input);
      if bt.None? then m2.(status := "Cancelled.")
      else Finish(m2, input, offset.value, bt.value.0, bt.value.1)
  }

  /** The lower-cased extension `ProcessFile` dispatches on. */
  function DispatchKey(input: string): string
  {
    ToLower(Extension(input))
  }

  /** `ProcessFile`. */
  function ProcessFile(m: Machine, input: string): Machine
  {
    var ext := DispatchKey(input);
    if ext !in Extensions then
      Logged(m, "Error: Unsupported file type '" + ext + "'.", Red).(status := "Invalid File")
    else
      var m1 := m.(busy := true, log := [], status := "Processing...");
      var m2 := if ext == ".wav" then SpecialOgg(m1, input) else StandardWav(m1, input);
      m2.(busy := false)
  }
}
