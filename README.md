# ffmpeg command builder of the Yoda video service

The service takes a user's audio file and makes a short video clip from it.
It cuts three pieces out of the audio. It interleaves the pieces with stock
silences into one track. It then lays that track over a fixed video. Each
step runs `ffmpeg` as a child process.

The core is the `VideoProcessing` class and its subclass `YodaVideoProcessing`
in `video_processing.py`. This model covers:

- the argument strings each operation builds;
- how `_async_shell_command` turns those strings into the child's argument
  vector, by splitting every argument on single spaces;
- when a step fails, which is when the child printed anything but whitespace;
- the paths of the files written;
- the order of the five commands of the pipeline, where the first failure
  ends the run.

Modules:

- `Results`: `Option`, `Result` and `Outcome`. `FfmpegError` is the only
  error.
- `PyStr`: the `str` operations used.
  - `split(sep)` keeps empty pieces. It is proved to invert `join` in both
    directions.
  - `strip()` removes the characters for which `str.isspace()` holds.
- `Timecodes`: the `f'00:00:{x:0>4.1f}'` text for a time given in whole
  tenths of a second. A parser serves as its inverse.
- `Commands`: the pure argument lists and their tokenisation.
  - the `zip` interleaving of silences and cuts;
  - the `concat:` list;
  - the mux filter graph;
  - `_get_full_path`.
- `Processing`: the class `VideoProcessing`.
  - Its constructor-set fields are `const`. The field `_create_cache` updates
    is a `var`.
  - Executing a child process is modelled by appending its argument vector to
    the ghost trace `issued`. The child's stdout is a parameter.
  - `os.getcwd()` is a parameter, and so are the `uuid4().hex` names.
- `Yoda`: the class constants, the constructor and `pipeline`. `pipeline`
  is split into `CutMusic` (the three cuts) and `Pipeline` (the cuts, then
  concat, then mux). Its trace is proved equal to a prefix of
  `RecipeCommands`: the commands up to and including the first one whose
  stdout is not blank, or all five.

Two facts about the code shape the model:

- `pipeline` never calls `_create_cache`, so all outputs are written
  directly under `files/cache`, not in a per-run subdirectory.
  `CreateCache` is modelled but never called by `Pipeline`.
- Nothing compares the number of silences with the number of cuts; `zip`
  silently drops the fourth silence that `pipeline` passes.

## Model

| member | source | states |
|---|---|---|
| PyStr.Split | video_processing.py:39 | `str.split(sep)`, never empty (at least one piece); `SplitPiecesFree`, `JoinSplit` and `SplitJoin` give its meaning |
| PyStr.Join | video_processing.py:79 | `sep.join(parts)`, no contract of its own; `JoinSplit`, `SplitJoin` and `JoinAvoids` give its meaning |
| PyStr.Strip | video_processing.py:43 | `str.strip()`, no contract of its own; `StripLeft`, `StripRight` and `StripEmptyIff` give its meaning |
| Timecodes.Timecode | video_processing.py:53-54 | the `00:00:{x:0>4.1f}` text, no contract of its own; `TimecodeRoundTrip`, `TimecodeShortForm`, `TimecodeNoRollover` and `TimecodeHasNoSpace` give its meaning |
| Commands.Tokenise | video_processing.py:37-39 | the split arguments handed to exec, no contract of its own; `TokeniseAppend`, `TokeniseSpaceless` and `TokeniseSpaceFree` give its meaning |
| Commands.Command | video_processing.py:40 | the argument vector, the unsplit program followed by the split arguments, no contract of its own; the `...Tokens` lemmas give it for each command |
| Commands.CutHead | video_processing.py:52-56 | the five leading arguments of either cut branch, no contract of its own; `TokeniseCutHead` gives their tokens |
| Commands.CutArgs | video_processing.py:49-69 | the arguments of `_cut_audio` as written, in both branches, no contract of its own; `CutCommandPlain`, `CutCommandFiltered` and `CutFilterSwallowsOutput` give its tokens |
| Commands.CutArgsFixed | video_processing.py:57-58 | the cut arguments with the filter and the output path as separate arguments, no contract of its own; `CutFixedKeepsOutput` gives its tokens |
| Commands.Interleave | video_processing.py:76-78 | the flattened `zip`, no contract of its own; `InterleaveAt`, `InterleaveMembers` and `ZipInterleave` give its meaning |
| Commands.ConcatInput | video_processing.py:79-81 | the `concat:` input, no contract of its own; `ConcatInputRoundTrip` gives its meaning |
| Commands.ConcatArgs | video_processing.py:80-82 | the arguments of `_concat_audio`, no contract of its own; `ConcatCommandTokens` gives its tokens |
| Commands.MuxArgs | video_processing.py:88-98 | the arguments of `_generate_video`, no contract of its own; `MuxCommandTokens` gives its tokens |
| Commands.OutputPath | video_processing.py:32-33 | the path `_get_full_path` builds, no contract of its own; `OutputPathBasename` gives its meaning |
| Yoda.RecipePaths | video_processing.py:123-127 | the five output paths of a run, five of them; `RecipePathsAvoid` gives their form |
| Yoda.RecipeCommands | video_processing.py:123-127 | the five argument vectors of a complete run, five of them; `Pipeline`, `RecipeCutsWiring`, `RecipeConcatWiring` and `RecipeMuxWiring` give their meaning |
| PyStr.SplitPiecesFree | video_processing.py:39 | no piece produced by `split(sep)` contains `sep` |
| PyStr.SplitSuffix | video_processing.py:57-58 | appending separator-free text to a string extends its last piece and leaves the other pieces alone |
| PyStr.SplitTrailingSeparator | video_processing.py:33 | a separator at the end adds one empty last piece |
| PyStr.JoinSplit | video_processing.py:39 | joining the pieces of `split(sep)` with `sep` rebuilds the string, so splitting loses nothing |
| PyStr.SplitJoin | video_processing.py:79 | splitting a `sep.join` of separator-free pieces gives the pieces back |
| PyStr.JoinAvoids | video_processing.py:79 | a character that is not the separator and occurs in no piece does not occur in the joined string |
| PyStr.StripLeft | video_processing.py:43 | `lstrip()` removes exactly the leading whitespace: a suffix, everything dropped is whitespace, and what remains does not start with whitespace |
| PyStr.StripRight | video_processing.py:43 | `rstrip()` removes exactly the trailing whitespace: a prefix, everything dropped is whitespace, and what remains does not end with whitespace |
| PyStr.IsBlankEvery | video_processing.py:43 | "blank" holds exactly when every character is whitespace |
| PyStr.StripEmptyIff | video_processing.py:43-44 | `stdout.strip()` is empty (falsy) if and only if stdout is blank |
| Timecodes.Decimal | video_processing.py:53-54 | the integer part is printed as at least one digit, as two or more exactly from 10 on, and from 10 on without a leading zero |
| Timecodes.ParseDecimalOfDecimal | video_processing.py:53-54 | reading back the printed integer part gives the integer |
| Timecodes.TimecodeRoundTrip | video_processing.py:53-54 | every timecode reads back as the tenths it was made from |
| Timecodes.TimecodeShortForm | video_processing.py:53-54 | below 100 s the timecode is exactly ten characters, `00:00:SS.s`, with the seconds zero-padded to two digits |
| Timecodes.TimecodeNoRollover | video_processing.py:53-54 | from 100 s on the seconds field grows beyond two digits, and nothing carries into the minutes |
| Timecodes.TimecodeHasNoSpace | video_processing.py:53-54 | a timecode never contains a space, so it stays one token |
| Commands.TokeniseAppend | video_processing.py:37-39 | splitting arguments distributes over concatenation of argument lists |
| Commands.TokeniseSpaceless | video_processing.py:37-39 | arguments without spaces pass through the splitting unchanged |
| Commands.TokeniseSpaceFree | video_processing.py:37-39 | no token contains a space, and every argument is its tokens joined with spaces |
| Commands.SplitFlagValue | video_processing.py:53-57 | an `f'-flag {value}'` argument becomes the flag followed by the value's pieces |
| Commands.CutCommandPlain | video_processing.py:60-69 | without a filter the cut command is `ffmpeg -y -ss T -t T -i <input pieces> -acodec copy <output pieces>`, and a space-free output path is the last token |
| Commands.CutCommandFiltered | video_processing.py:49-59 | with a filter the filter's last piece and the output path are one token |
| Commands.CutFilterSwallowsOutput | video_processing.py:57-58 | as written, a filter leaves no output-path token: the last token is filter + path |
| Commands.CutFixedKeepsOutput | video_processing.py:49-69 | with the output path as its own argument, the path is always the last token, the filter's pieces follow `-af`, and without a filter the arguments equal the source's |
| Commands.InterleaveAt | video_processing.py:76-78 | the zipped list holds 2·min(n, m) paths, the k-th silence at 2k and the k-th audio at 2k+1 |
| Commands.InterleaveMembers | video_processing.py:76-78 | a path is in the zipped list if and only if it is one of the first min(n, m) silences or audios |
| Commands.InterleaveDropsFourthSilence | video_processing.py:76-78 | four silences and three audios give s0 a0 s1 a1 s2 a2, and the fourth silence is dropped |
| Commands.ConcatInputRoundTrip | video_processing.py:79-81 | without a vertical bar in any path, the text after `concat:` splits on a vertical bar back into the list |
| Commands.ConcatCommandTokens | video_processing.py:80-82 | with space-free paths the concat command is exactly seven tokens, with `-acodec copy` as two |
| Commands.MuxFilterGraphHasNoSpace | video_processing.py:94 | the filter graph is a single token |
| Commands.MuxCommandTokens | video_processing.py:88-98 | with space-free paths the mux command is exactly fifteen tokens: the video and then the audio after `-i`, the filter graph, the two maps and the output |
| Commands.HexNamePlain | video_processing.py:48 | a name of 32 hex digits plus a plain extension has no space, no vertical bar and no '/' |
| Commands.OutputPathBasename | video_processing.py:32-33 | the full path ends with the file name and, for a name without '/', the name is the last path component |
| Processing.VideoProcessing.constructor | video_processing.py:19-23 | the four fields are set, and `cache_path` starts as `cache` |
| Processing.VideoProcessing.CreateCache | video_processing.py:26-29 | `cache_path` becomes `cache + '/' + name`, and nothing is issued |
| Processing.VideoProcessing.FullPath | video_processing.py:32-33 | the path starts with `cwd + '/'` and ends with the file name, which is its last component when it has no '/' |
| Processing.VideoProcessing.SplitArguments | video_processing.py:37-39 | the loop computes exactly the in-order concatenation of every argument's `split(' ')` |
| Processing.VideoProcessing.ShellCommand | video_processing.py:35-44 | exactly one command is issued, the program followed by the split arguments; it fails with `FfmpegError` if and only if stdout is not blank |
| Processing.VideoProcessing.CutAudio | video_processing.py:46-71 | issues the cut command the source builds, succeeds if and only if stdout is blank, and returns the new `.mp3` path; without a filter that path is the last token, with a space-free filter the last token is the filter followed directly by the path |
| Processing.VideoProcessing.ZipInterleave | video_processing.py:76-78 | the loop computes exactly the flattened `zip` of silences and audios |
| Processing.VideoProcessing.ConcatAudio | video_processing.py:73-83 | issues one concat command over the zipped list, succeeds if and only if stdout is blank, and returns the new `.mp3` path |
| Processing.VideoProcessing.GenerateVideo | video_processing.py:85-99 | issues one mux command of the object's video with the given audio, succeeds if and only if stdout is blank, and returns the new `.mp4` path |
| Processing.EndsWithExtension | video_processing.py:48 | a path ending in name + extension ends in the extension |
| Yoda.NewYodaVideoProcessing | video_processing.py:113-119 | a fresh object on `files/video/yoda.mp4` with cache and cache path `files/cache` and an empty trace |
| Yoda.Issued | video_processing.py:121-127 | the number of commands a run issues: every earlier stdout is blank, and a run stops early only right after a non-blank stdout |
| Yoda.CutMusic | video_processing.py:123-125 | the three cuts are issued in order up to the first failure, all succeed if and only if the three stdouts are blank, and the result is the three cut paths |
| Yoda.Pipeline | video_processing.py:121-127 | the trace grows by exactly the first `Issued(stdouts)` recipe commands, the run succeeds if and only if all five stdouts are blank, and it returns the video path |
| Yoda.RecipeTimecodes | video_processing.py:123-125 | the cut times print as `00:00:00.0`, `00:00:04.5`, `00:00:09.0` and `00:00:02.0` |
| Yoda.RecipePathsAvoid | video_processing.py:48 | with uuid names and a space-free (or vertical-bar-free) working directory and cache, no recipe output path contains a space (or a vertical bar) |
| Yoda.RecipeCutsWiring | video_processing.py:123-125 | each cut writes the path its command ends with, at 0 s for 4.5 s, at 4.5 s for 4.5 s and at 9 s for 2 s |
| Yoda.RecipeConcatList | video_processing.py:126 | the concat list is the first silence, the first cut, the second silence, the second cut, the first silence again and the third cut |
| Yoda.RecipeConcatWiring | video_processing.py:126 | the concat command reads the three cut outputs in order, each after its silence, the list splits back on a vertical bar into those six paths, and it writes the concat path |
| Yoda.SilencesPlain | video_processing.py:116 | the silence paths contain neither a space nor a vertical bar |
| Yoda.RecipeMuxWiring | video_processing.py:127 | the mux command reads the video, then the concat output as its second input, and writes the video path |

## Left out

- Running `ffmpeg` is not modelled. `asyncio.create_subprocess_exec` and `communicate` become an entry on the ghost trace `issued` and a `stdout` parameter. What ffmpeg does with the files is not modelled.
- stderr and the exit status are not modelled. The source ignores both, so a command that fails without printing to stdout counts as a success, and the model does the same.
- `stdout.decode()` is not modelled, and neither is its failure on bytes that are not UTF-8. stdout is given as already-decoded text.
- `os.getcwd()` is a parameter `cwd`. `uuid.uuid4().hex` is a parameter per output file: `name` in the operations, `names` in `Pipeline`. `IsHexName` states their form wherever a lemma needs it.
- `os.mkdir` in `_create_cache` and `os.remove` in `__aexit__` are not modelled. Only the `cache_path` update is.
- `__aenter__` and `__aexit__` are not modelled. They are the async context-manager wrapper around `pipeline`.
- The base class `pipeline`, which only raises `NotImplementedError`, is not modelled.
- The `logging_function` decorator is not modelled. It only logs.
- `main`, src/main.py and main.py are not part of this model.
- CutAudio: `offset` and `run_time` are whole tenths of a second (`nat`). Negative or finer-grained float values are not modelled, and neither is the rounding that `.1f` applies to them.
- Concurrency is not modelled. The awaits of `pipeline` are sequential, so the model runs the steps in order.
- The meaning of the ffmpeg filter graph and of its options is not modelled. The graph is kept as the exact text.
- Yoda.RecipeCutsWiring: stated only for a working directory and cache path without spaces. A path with a space is split into several tokens, as the output pieces `Split(out, ' ')` at the end of `Commands.CutCommandPlain` and `Commands.TokeniseCut` show. The same holds for Yoda.RecipeConcatWiring, which also requires no vertical bar, and for Yoda.RecipeMuxWiring.

## Findings

| source | as written | input that shows it | evidently intended | confidence | as-written member | corrected member |
|---|---|---|---|---|---|---|
| video_processing.py:57-58 | a missing comma joins `f'-af {args}'` and `f'{audio_filename}'` into one argument, so the output path becomes part of the filter and ffmpeg is given no output file | `args = "volume=2"`: the last token is `volume=2` followed directly by the `.mp3` path | `-af {args}` as one argument and the output path as the next | high, from the code's shape; not executed | Commands.CutFilterSwallowsOutput | Commands.CutFixedKeepsOutput |
