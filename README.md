# Audio-Silencer: a verified model of the conversion view model

Audio-Silencer is a small WPF tool. It takes one audio file. A FLAC, OGG
or MP3 file is converted to a 16-bit WAV file beside it. A WAV file goes
through the "silencer" encode, which makes a 96 kbps Ogg file. On the way
the encode:

- asks for a manual offset, pre-filled from a number found in the clipboard;
- optionally detects the tempo with ffmpeg's `bpm` filter and asks for the
  tempo and the time of the first space;
- optionally measures the EBU R128 loudness and adds a gain filter towards
  -8 LUFS;
- turns a positive offset into a delay filter and a negative one into a seek;
- optionally computes two bar counters ("MADI" values) and writes them,
  with the tempo, into the output name.

All of this lives in `MainViewModel`. This project models that class and
proves what a run does.

The model has three layers:

- **Values and pure logic**:
  - `Numerics`: ceiling, truncation, round-half-away-from-zero, rounding to
    d decimals.
  - `Text`: digit strings; the `double.TryParse` reading; the `F2`, `F3`,
    `0` and `0.###` formats; `string.Join` and `Split`.
  - `Paths`: `Path.GetExtension`, `GetFileName`, `GetFileNameWithoutExtension`,
    `GetDirectoryName`, `Combine`, `ToLowerInvariant`.
  - `Patterns`: the three regular expressions, as deterministic scanners.
  - `Tempo`: the filter, sort and median of the tempo detection.
  - `Madi`: the bar counters.
  - `Encoding`: filters, command lines and output names.
- **The run as functions**: `Pipeline` describes every operation as a
  function from the view model's state to the new state. The state holds:
  - the status line, the busy flag, the log and the two switches;
  - the answers the outside world will give;
  - a trace of the prompts shown and the tools started.

  `Behaviour` proves what a run promises about these functions: dispatch,
  order of steps, cancellation, the duration guard and result handling.
- **The object itself**: `ViewModel.MainViewModel` is a class. Its fields
  are updated in place by methods that mirror the source's methods. Each
  method is proved to leave the object in the state its `Pipeline` function
  describes. The tempo reduction copies the kept values into an array and
  sorts it in place (`Tempo.SortInPlace`).

The external programs (ffmpeg, ffprobe), the dialogs and the clipboard are
not run. They are an `Environment` value: the clipboard text, the replies of
the tools in the order they are started, and the user's answers in the order
the prompts appear. A tool started when no reply is left fails to start. A
prompt shown when no answer is left is cancelled.

## Model

| member | source | states |
|---|---|---|
| Numerics.Ceil | MainViewModel.cs:235-236 | `Math.Ceiling`: the result `n` satisfies n - 1 < x <= n |
| Numerics.CeilUnique | MainViewModel.cs:235-236 | that integer is the only one with those bounds |
| Numerics.Truncate | MainViewModel.cs:215 | the `(int)` cast truncates toward zero: r <= x < r + 1 for x >= 0, r - 1 < x <= r for x < 0 |
| Numerics.RoundHalfAway | MainViewModel.cs:206 | rounding to the nearest integer with midpoints away from zero, for both signs |
| Numerics.RoundToError | MainViewModel.cs:264 | rounding to d decimals (as `F2`, `F3` and `0.###` do) moves a value by at most half a unit of the last place |
| Numerics.RoundToExact | MainViewModel.cs:420-421 | a value with at most d decimals is unchanged by rounding to d decimals |
| Text.NatToString | MainViewModel.cs:247-248 | an integer's text is a non-empty digit string with no leading zero |
| Text.IntToString | MainViewModel.cs:247-248 | a counter's text is digits with a minus sign exactly when it is negative |
| Text.ParseIntToString | MainViewModel.cs:247-248 | the text of every integer reads back (`double.TryParse`) as that integer |
| Text.FormatFixed | MainViewModel.cs:206 | an `F`-format text is made of digits, minus signs and points, starts with a digit or a minus sign and ends in a digit |
| Text.FormatFixedDecimals | MainViewModel.cs:206 | `F<d>` writes an optional minus sign, at least one digit, then a point and exactly d digits (no point when d is 0) |
| Text.ParseFormatFixed | MainViewModel.cs:206 | an `F`-format text of x with d decimals reads back as x rounded to d decimals |
| Text.FormatBpm | MainViewModel.cs:418-423 | the tempo text holds only digits, signs and points |
| Text.FormatBpmDecimals | MainViewModel.cs:418-423 | the tempo text is an optional minus sign, at least one digit, and then either nothing or a point and one to three digits of which the last is not 0 |
| Text.WholeBpmExample | MainViewModel.cs:420-421 | 128 is written `128` |
| Text.HalfBpmExample | MainViewModel.cs:422 | 120.5 is written `120.5`, without trailing zeros |
| Text.RoundedBpmExample | MainViewModel.cs:422 | 99.12345 is written `99.123` |
| Text.FormatWholeBpm | MainViewModel.cs:420-421 | a whole tempo is written without a point and reads back as itself |
| Text.ParseFormatBpm | MainViewModel.cs:418-423 | every tempo text reads back as the tempo rounded to three decimals |
| Text.NotAvailableIsNotANumber | MainViewModel.cs:330-336 | the placeholder `N/A` does not read as a number |
| Text.SplitJoin | MainViewModel.cs:270 | parts joined by a separator none of them contains split back into the same parts |
| Paths.FileName | MainViewModel.cs:190 | a file name never contains a separator |
| Paths.Stem | MainViewModel.cs:129 | the stem never contains a separator |
| Paths.DirectoryName | MainViewModel.cs:128 | the directory the model computes is a prefix of the path (separators are not normalised; see Left out) |
| Paths.ToLowerIdempotent | MainViewModel.cs:90 | lower-casing twice equals lower-casing once, so the dispatch ignores letter case |
| Paths.CombineKeepsName | MainViewModel.cs:257 | a plain name combined onto a directory is the file name of the result, which starts with the directory |
| Paths.WavOutputName | MainViewModel.cs:128-129 | the WAV output sits in the input's directory, is named stem + `.wav`, and has extension `.wav` |
| Patterns.FirstOffsetMatch | MainViewModel.cs:155 | `Regex.Match` finds the leftmost offset match: it matches there and nowhere before, or nowhere at all |
| Patterns.CommaToPoint | MainViewModel.cs:156 | `Replace(",", ".")` changes exactly the commas, position by position |
| Patterns.OffsetMatchShape | MainViewModel.cs:155-156 | a clipboard offset is an optional minus, digits, a point and exactly three digits |
| Patterns.ClipboardDefaultParses | MainViewModel.cs:147-159 | the pre-filled offset always reads as a number; it is `0.0` when there is no clipboard text or no match |
| Patterns.FirstLoudnessStart | MainViewModel.cs:329-330 | the loudness search returns the leftmost position where the pattern matches, or none when it matches nowhere |
| Patterns.LoudnessCaptureShape | MainViewModel.cs:333 | group 1 of a loudness match is an optional minus followed by at least one digit or point |
| Patterns.LoudnessNeedsLabel | MainViewModel.cs:327-336 | a value is found only after the `Integrated loudness:` label; without a match the logged `N/A` reads as no number |
| Patterns.BpmMatchAt | MainViewModel.cs:395 | a tempo match at i has `BPM:` at i, then only white space up to group 1, which is a non-empty run of digits and points that extends as far as such characters go |
| Patterns.BpmCaptures | MainViewModel.cs:395-396 | every tempo capture is a non-empty run of digits and points |
| Patterns.BpmCapturesAreGroups | MainViewModel.cs:395-396 | every capture is group 1 of a tempo match that starts at or after the scan's start |
| Patterns.BpmCapturesEmpty | MainViewModel.cs:395-396 | there are no captures exactly when the pattern matches at no position |
| Patterns.BpmCapturesLeftmost | MainViewModel.cs:395-396 | the captures are group 1 of the leftmost match, then the captures of the scan resumed at that match's end, so the matches come in order and do not overlap |
| Patterns.UnsignedCaptureValue | MainViewModel.cs:395-398 | a tempo capture never reads as a negative number |
| Tempo.Candidates | MainViewModel.cs:396-402 | every kept estimate lies strictly between 40 and 300, and no more are kept than captured |
| Tempo.CandidatesMembership | MainViewModel.cs:396-402 | a value is kept exactly when it is in the range and some capture reads as it |
| Tempo.KeepIfPlausible | MainViewModel.cs:398-400 | one capture appends its value when it parses and lies in the range, and nothing otherwise |
| Tempo.CollectCandidates | MainViewModel.cs:395-402 | the `foreach` over the matches keeps exactly the candidates, in capture order |
| Tempo.Insert | MainViewModel.cs:406 | inserting into a sorted list keeps it sorted and adds exactly that value |
| Tempo.SortedOf | MainViewModel.cs:406 | `Sort` yields an ascending permutation of the list |
| Tempo.SortedUnique | MainViewModel.cs:406 | two ascending permutations of the same values are equal, so the sorted list is determined |
| Tempo.SortInPlace | MainViewModel.cs:406 | the in-place sort leaves the array ascending and a permutation of its old contents |
| Tempo.Median | MainViewModel.cs:407-410 | the median of a sorted list (middle element, or mean of the middle two) lies between its first and last |
| Tempo.MedianOfKept | MainViewModel.cs:404-411 | copying into an array, sorting in place and taking the middle gives the median of the sorted kept values |
| Tempo.ReduceTempo | MainViewModel.cs:393-415 | the detection reports the median of the kept estimates, or 0 when none is kept |
| Tempo.SortedExtremes | MainViewModel.cs:406 | the first and last sorted values are the minimum and maximum of the kept values |
| Tempo.MedianBetweenExtremes | MainViewModel.cs:404-411 | the median lies between two kept values |
| Tempo.DetectedTempoRange | MainViewModel.cs:384-416 | the detected tempo is 0 exactly when nothing was kept, and otherwise strictly between 40 and 300 |
| Madi.BarSeconds | MainViewModel.cs:233 | a four-beat bar lasts 240 / bpm seconds |
| Madi.TotalMadiCovers | MainViewModel.cs:233-236 | at a positive tempo and length, `totalmadi` >= 1 and is the least number of whole bars covering the song |
| Madi.StartMadiBar | MainViewModel.cs:232-235 | `startmadi` bars end before the first space (time plus offset) and one bar more reaches it |
| Madi.StartMadiCanBeNegative | MainViewModel.cs:228-235 | nothing clamps `startmadi`: it is negative when time + offset <= 0, and -1 at exactly 0 |
| Madi.StartMadiMonotone | MainViewModel.cs:232-235 | a later first space never gives a smaller `startmadi` |
| Madi.WorkedExample | MainViewModel.cs:232-236 | 120 bpm, time 0, offset 1.234 s and a 200 s song give 0 and 100 |
| Madi.AsWrittenOvershoots | MainViewModel.cs:232 | with the rounded `1m / 60m`, 120 bpm and a first space at 2 s give 1 where the exact formula gives 0 |
| Madi.AsWrittenOneAbove | MainViewModel.cs:232 | whenever bpm times (time + offset) is a positive multiple of 240 (within `decimal` range), the code's counter is one above the exact one |
| Encoding.FiltersShape | MainViewModel.cs:193-217 | the gain filter is in the list exactly when a loudness was measured, and it is last; the delay filter is first exactly when the offset is positive; nothing else is in the list |
| Encoding.VolumeGain | MainViewModel.cs:204-206 | the gain filter is `volume=` + gain + `dB`, and the gain reads back as -8 minus the measured loudness, rounded to two decimals |
| Encoding.VolumeExample | MainViewModel.cs:204-206 | a loudness of -14 LUFS gives exactly `volume=6.00dB` |
| Encoding.FixedUnits | MainViewModel.cs:206 | a value that is exactly a whole number u of `10^-d` units is written as the fixed text of u (the rounding changes nothing) |
| Encoding.DelayMilliseconds | MainViewModel.cs:213-216 | both delays read back as the offset in milliseconds, truncated: at most the exact value and less than one below it |
| Encoding.DelayExample | MainViewModel.cs:213-216 | an offset of 1.2345 s gives exactly `adelay=1234\|1234` |
| Encoding.SeekMagnitude | MainViewModel.cs:261-265 | only a negative offset seeks; the value after `-ss ` has no sign and reads as the magnitude rounded to three decimals |
| Encoding.SeekExample | MainViewModel.cs:261-265 | an offset of -1.5 s gives exactly `-ss 1.500` |
| Encoding.SeekOrDelay | MainViewModel.cs:212-265 | an offset that seeks never also yields a delay filter |
| Encoding.FilterArgSplits | MainViewModel.cs:267-271 | the filter option is empty exactly when there are no filters; otherwise the quoted, comma-joined list splits back into the filters |
| Encoding.FiltersCommaFree | MainViewModel.cs:206-216 | no filter contains a comma |
| Encoding.MadiFileNameFields | MainViewModel.cs:246-250 | the name with bar counters ends in three space-separated fields that split apart and read as the rounded tempo and the two counters |
| Encoding.OutputNamesDiffer | MainViewModel.cs:250-254 | both output names keep the stem and end in `.ogg`, and they never coincide |
| Encoding.ArgumentsEndWithTarget | MainViewModel.cs:276 | the final encode's command line (and the WAV conversion's, line 130) ends with the quoted output; the duration probe's (line 368) ends with the quoted input |
| Behaviour.PromptEffect | MainViewModel.cs:355-357 | a prompt records itself and changes neither status, log, switches nor busy flag |
| Behaviour.RunEffect | MainViewModel.cs:297-317 | starting ffmpeg records the start and changes nothing else that is visible |
| Behaviour.HandleResultOutcome | MainViewModel.cs:282-295 | status "Done." exactly on success and "Error." otherwise; a failure logs the error line, then the tool's output |
| Behaviour.EncodeEffect | MainViewModel.cs:276-279 | the final encode records one start, only appends to the log, and ends in "Done." or "Error." |
| Behaviour.LoudnessOutcome | MainViewModel.cs:196-210 | the analysis starts exactly when normalisation is on; a loudness results exactly when it exits with 0, prints something, and the integrated value reads as a number |
| Behaviour.TempoAndTimeEffect | MainViewModel.cs:170-183 | status "Detecting BPM...", the tempo probe, the tempo prompt with its suggestion, then the time prompt exactly when the tempo prompt gave a number; a tempo and a time result exactly when both prompts gave a number, and they are those two numbers |
| Behaviour.TempoAndTimeAnswers | MainViewModel.cs:178-181 | in terms of the user's next two answers: a tempo and a time result exactly when both answers give a number (a plain OK gives the suggestion), and they are those numbers |
| Behaviour.DurationEffect | MainViewModel.cs:366-382 | the duration probe records one ffprobe start and changes nothing else |
| Behaviour.FinishEffect | MainViewModel.cs:187-279 | after the prompts: the loudness analysis when on, the duration probe when bar counters are on, then the encode unless the duration is not positive |
| Behaviour.ConcludeEffect | MainViewModel.cs:219-279 | the duration probe when bar counters are on, then the encode, which is skipped only on a duration that is not positive |
| Behaviour.ConcludeNoDuration | MainViewModel.cs:221-226 | a duration that is not positive ends the run with the error line, no encode, and the status unchanged |
| Behaviour.ConcludeMadi | MainViewModel.cs:219-276 | with a positive duration: the probe, then the tempo, the header and both counters appended to the log, then the encode to `S_<stem> <bpm> <startmadi> <totalmadi>.ogg` with those same values |
| Behaviour.ConcludeEdited | MainViewModel.cs:252-257 | without bar counters the encode to `edited_<stem>.ogg` in the input's directory follows at once |
| Behaviour.OffsetCancelled | MainViewModel.cs:161-167 | a cancelled offset prompt ends the run as "Cancelled."; the offset prompt is its only step |
| Behaviour.EditedRun | MainViewModel.cs:141-280 | without bar counters and with the offset given, the run goes through the whole plan and ends in "Done." or "Error." |
| Behaviour.TempoCancelled | MainViewModel.cs:178-185 | when the tempo step yields nothing (by TempoAndTimeEffect: a cancel or an unreadable answer at either prompt) the run ends as "Cancelled." with nothing logged; its steps are the offset prompt, the tempo probe and the prompts up to the cancelled one |
| Behaviour.TempoPromptCancelled | MainViewModel.cs:178-183 | a cancel or an unreadable answer at the tempo prompt ends the run as "Cancelled." with the steps offset prompt, tempo probe, tempo prompt: the time prompt is not shown |
| Behaviour.TimePromptCancelled | MainViewModel.cs:178-183 | with a tempo given, a cancel or an unreadable answer at the time prompt ends the run as "Cancelled." right after the time prompt, with nothing logged |
| Behaviour.MadiRun | MainViewModel.cs:141-280 | with bar counters, an offset, and a tempo step that yields its two numbers, the run is not cancelled: after the three prompts it goes on with the loudness analysis (when on), the duration probe and the encode, stopping early only at an unreadable duration |
| Behaviour.AnsweredMadiRun | MainViewModel.cs:141-280 | the same outcome stated from the prompts: a number at the offset, tempo and time prompts keeps the run from being cancelled |
| Behaviour.SpecialOggOutcome | MainViewModel.cs:141-280 | every WAV run follows the step plan for its switches and stops early only on a cancel, which is then the last step, or on an unreadable duration |
| Behaviour.PromptValue | MainViewModel.cs:355-364 | a prompt yields a number exactly when it is confirmed and its text reads as one, and then that number |
| Behaviour.UnparseableIsCancel | MainViewModel.cs:358-363 | a typed answer that is not a number does exactly what a cancel does |
| Behaviour.AcceptedOffsetParses | MainViewModel.cs:147-161 | confirming the pre-filled offset never cancels the run |
| Behaviour.OffsetCancelEndsRun | MainViewModel.cs:161-167 | after a cancelled offset prompt nothing is started or logged, and the status is "Cancelled." |
| Behaviour.TempoGuessInRange | MainViewModel.cs:174-175 | the suggested tempo lies strictly between 40 and 300: the detected tempo, or 120 when the detection gave 0 |
| Behaviour.TempoChoice | MainViewModel.cs:174-181 | a typed tempo overrides the detection; a confirmed suggestion gives the detected tempo (or 120) rounded to three decimals |
| Behaviour.UnsupportedInput | MainViewModel.cs:90-98 | any other extension, in any letter case, logs one red line and sets "Invalid File"; nothing is started and the busy flag is untouched |
| Behaviour.StandardWavEffect | MainViewModel.cs:126-134 | a conversion to WAV makes one start, then "Done." exactly on a zero exit code and "Error." otherwise |
| Behaviour.StandardInput | MainViewModel.cs:100-124 | a FLAC, OGG or MP3 input clears the log, converts beside itself and ends not busy |
| Behaviour.WavInput | MainViewModel.cs:100-124 | a WAV input follows the plan as far as the run got, is cancelled exactly when its last step is a prompt, and ends not busy |
| ViewModel.MainViewModel.constructor | MainViewModel.cs:56-64 | a new view model is "Ready", not busy, with an empty log and both options on |
| ViewModel.MainViewModel.Log | MainViewModel.cs:66-73 | one entry is appended to the log |
| ViewModel.MainViewModel.Launch | MainViewModel.cs:303 | a start takes the next reply of the world, or fails to start when none is left, and records itself |
| ViewModel.MainViewModel.RunFfmpeg | MainViewModel.cs:297-317 | success is a zero exit code and the output is the error stream, or the exception's message |
| ViewModel.MainViewModel.GetAudioDuration | MainViewModel.cs:366-382 | the number ffprobe prints, or -1 |
| ViewModel.MainViewModel.GetBpmFromAudio | MainViewModel.cs:384-416 | the median of the kept estimates, or 0 |
| ViewModel.MainViewModel.PromptForValue | MainViewModel.cs:355-364 | true with the parsed answer, or false with 0 |
| ViewModel.MainViewModel.HandleConversionResult | MainViewModel.cs:282-295 | the state `HandleResult` describes |
| ViewModel.MainViewModel.ConvertToStandardWav | MainViewModel.cs:126-138 | one conversion to stem + `.wav` beside the input, then the result handled |
| ViewModel.MainViewModel.ParseAndLogEbur128 | MainViewModel.cs:319-341 | logs the header and the value text, and yields the value when it reads as a number, otherwise false with 0 |
| ViewModel.MainViewModel.ConvertWavToSpecialOgg | MainViewModel.cs:141-185 | the state `SpecialOgg` describes, whose outcomes `Behaviour.SpecialOggOutcome` lists |
| ViewModel.MainViewModel.AskTempoAndTime | MainViewModel.cs:170-183 | the state and answers `TempoAndTime` describes |
| ViewModel.MainViewModel.ProcessSpecial | MainViewModel.cs:187-217 | the state `Finish` describes, whose steps `Behaviour.FinishEffect` lists |
| ViewModel.MainViewModel.NormalizationFilter | MainViewModel.cs:195-210 | the gain filter is present exactly when `Loudness` yields a value |
| ViewModel.MainViewModel.EncodeSpecial | MainViewModel.cs:219-279 | the duration guard, the logged counters, the output name and the encode, as `Conclude` describes |
| ViewModel.MainViewModel.ProcessFile | MainViewModel.cs:88-124 | the state `Pipeline.ProcessFile` describes |
| ViewModel.WavDispatch | MainViewModel.cs:106-120 | a `.wav` key dispatches to the special encode |
| ViewModel.StandardDispatch | MainViewModel.cs:106-120 | the other three keys dispatch to the WAV conversion |

## Left out

- Floating point: every `double` is an exact real. `decimal` is also an exact real. Its 28-digit rounding and overflow are not modelled. The rounded constant `1m / 60m` is modelled only by the as-written member of the finding below, not by the run.
- Pipeline.Conclude, ViewModel.MainViewModel.EncodeSpecial: the run computes `startmadi` with an exact sixtieth (`Madi.StartMadi`), the corrected formula of the finding below. Whenever bpm × (time + offset) is a positive multiple of 240 (up to 10^28), the program logs and writes into the file name a `startmadi` one higher than the model's (`Madi.AsWrittenOneAbove`).
- The `(decimal)` conversions of a `double` round to 15 significant digits. The model uses the exact value.
- Text.ParseNumber: covers only what the converter parses, meaning an optional sign, digits and at most one point, with white space around. Other forms that `NumberStyles.Any` accepts are read as no number: exponents, thousands separators, currency symbols, parentheses, `Infinity` and `NaN`.
- Text.FormatBpm: the code treats a value whose remainder mod 1 is at most 100 × `Double.Epsilon` as whole. Over the reals only whole values are.
- Text.FormatFixed: on .NET Core 3.0 and later, a negative value that rounds to zero keeps its sign, so a gain in (-0.005, 0) is written `-0.00`; the model writes `0.00`. The same holds for `0.###` on a tempo in (-0.0005, 0).
- Numerics.Truncate: the 32-bit range of the `(int)` cast and its overflow are not modelled.
- Patterns: `\d` and `\s` are the ASCII digits and the usual white-space characters. Unicode digits and separators are not modelled.
- Paths: UNC and device paths are not modelled, nor are invalid path characters.
- Paths.DirectoryName: `Path.GetDirectoryName` also turns `/` into `\` and collapses doubled separators. The model keeps the path's own separators, so for `C:/music/a.flac` it gives the WAV target `C:/music\a.wav` where the program gives `C:\music\a.wav`.
- Paths.ToLower: only the ASCII letters are lower-cased; `ToLowerInvariant` maps every Unicode letter. This shows only in the extension logged for an unsupported file.
- Threads and the dispatcher: `Task.Run`, `Dispatcher.Invoke`, `async void` and property-change notifications are left out. The model runs sequentially.
- Exceptions: an exception inside the background task is not modelled. An exception from a process start is a `NotStarted` reply. The empty `catch` blocks of the clipboard read and the two probes become their default values.
- The dialogs and the clipboard are values in `Environment`. An answer is a cancel, a confirmation of the suggestion, or a typed text. How `InputDialog` edits its text on focus is part of the answer the world gives and is not modelled.
- `StartConversion`'s file dialog, `LicenseStatus`, `ShowAbout` and `OpenGitHub` are not modelled. They do not affect a conversion.
- Brushes are named constants. Rendering is left out.
- The three wrappers `ConvertFlacToWav`, `ConvertOggToWav` and `ConvertMp3ToWav` are folded into `ConvertToStandardWav`, which is all they call.
- The command lines are built by `Encoding.Invocation.Arguments`. The trace records the invocation, and the argument strings follow from it.

## Findings

| source | as written | input that shows it | evidently intended | confidence | as-written member | corrected member |
|---|---|---|---|---|---|---|
| MainViewModel.cs:232 | `startmadi` multiplies by `1m / 60m`. In `decimal` this is 0.0166666666666666666666666667, slightly above one sixtieth, so a whole number of bars comes out a hair too large. `Math.Ceiling` then adds one. | 120 bpm, time 2 s, offset 0: the code gives 1, the exact formula gives 0. The same happens whenever bpm × (time + offset) is a positive multiple of 240. | the ceiling of bpm × (time + offset) / 240 - 1, with an exact sixtieth | not executed | Madi.AsWrittenOvershoots | Madi.StartMadiBar |
