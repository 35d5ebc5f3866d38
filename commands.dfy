/**
 * The pure half of the command builder in video_processing.py: the string
 * arguments each operation hands to `_async_shell_command`, the way those
 * arguments become the argument vector of the child process, the
 * interleaving of the concat list and the paths of the files produced.
 */
module Commands {
  import opened Results
  import opened PyStr
  import opened Timecodes

  /** The executable every operation runs. */
  const Program := "ffmpeg"

  /** The audio graph of the mux step, passed to ffmpeg as one token: three
      filter chains separated by ';'. */
  const MuxFilterGraph := VideoAudioChain + ";" + NarrationChain + ";" + MergeChain

  /** The video's own sound track, resampled and padded with silence. */
  const VideoAudioChain := "[0:a]aformat=fltp:44100:stereo,apad[0a]"

  /** The generated audio, resampled and attenuated to 70%. */
  const NarrationChain := "[1]aformat=fltp:44100:stereo,volume=0.7[1a]"

  /** Both tracks merged into the output label `[a]`. */
  const MergeChain := "[0a][1a]amerge[a]"

  /** The in-order concatenation of `arg.split(' ')` over all arguments. */
  function Tokenise(args: seq<string>): seq<string>
  {
    if |args| == 0 then [] else Split(args[0], ' ') + Tokenise(args[1..])
  }

  /** The vector given to exec: the program name, never split, then the tokens. */
  function Command(program: string, args: seq<string>): seq<string>
  {
    [program] + Tokenise(args)
  }

  /** A flag and its value written as one argument, separated by a space (`f'-ss {x}'`). */
  function Pair(flag: string, value: string): string
  {
    flag + " " + value
  }

  /** Python truthiness of the optional filter: None and "" both mean "no filter". */
  predicate HasFilter(filter: Option<string>)
  {
    filter.Some? && filter.value != ""
  }

  /** The arguments of `_cut_audio`. With a filter, the implicit concatenation
      of two adjacent f-strings glues the filter and the output path into one argument. */
  function CutArgs(input: string, offset: nat, runTime: nat, filter: Option<string>, out: string): seq<string>
  {
    var head := CutHead(input, Timecode(offset), Timecode(runTime));
    if HasFilter(filter) then head + [Pair("-af", filter.value + out)] else head + [out]
  }

  /** The five arguments every cut command starts with: overwrite, seek, duration, input, codec. */
  function CutHead(input: string, ss: string, t: string): seq<string>
  {
    ["-y", Pair("-ss", ss), Pair("-t", t), Pair("-i", input), Pair("-acodec", "copy")]
  }

  /** `zip(silences, audios)` flattened: silence, audio, silence, audio, ...,
      stopping at the end of the shorter list. */
  function Interleave(silences: seq<string>, audios: seq<string>): seq<string>
  {
    if |silences| == 0 || |audios| == 0 then []
    else [silences[0], audios[0]] + Interleave(silences[1..], audios[1..])
  }

  /** The input of ffmpeg's concat protocol: `concat:` and the paths joined with `|`. */
  function ConcatInput(parts: seq<string>): string
  {
    "concat:" + Join(parts, '|')
  }

  /** The arguments of `_concat_audio` for an already interleaved list. */
  function ConcatArgs(parts: seq<string>, out: string): seq<string>
  {
    ["-y", "-i", ConcatInput(parts), Pair("-acodec", "copy"), out]
  }

  /** The arguments of `_generate_video`. */
  function MuxArgs(video: string, audio: string, out: string): seq<string>
  {
    ["-y", Pair("-i", video), Pair("-i", audio), Pair("-c:v", "copy"), "-filter_complex", MuxFilterGraph,
     Pair("-map", "0:v"), "-map", "[a]", out]
  }

  /** `_get_full_path`: the working directory, the cache path and the file name joined with '/'. */
  function OutputPath(cwd: string, cachePath: string, filename: string): string
  {
    cwd + "/" + cachePath + "/" + filename
  }

  /** `uuid.uuid4().hex`: 32 lower-case hexadecimal digits. */
  predicate IsHexName(name: string)
  {
    |name| == 32 && forall i :: 0 <= i < |name| ==> '0' <= name[i] <= '9' || 'a' <= name[i] <= 'f'
  }

  function Min(a: nat, b: nat): nat
  {
    if a < b then a else b
  }

  // ---------------------------------------------------------------- tokenising

  lemma {:induction false} TokeniseAppend(a: seq<string>, b: seq<string>)
    ensures Tokenise(a + b) == Tokenise(a) + Tokenise(b)
    decreases |a|
  {
    if |a| > 0 {
      assert (a + b)[0] == a[0];
      assert (a + b)[1..] == a[1..] + b;
      TokeniseAppend(a[1..], b);
    } else {
      assert a + b == b;
    }
  }

  /** An argument without a space contributes exactly itself, in its place. */
  lemma TokeniseKeepsSpaceless(a: seq<string>, x: string, b: seq<string>)
    requires ' ' !in x
    ensures Tokenise(a + [x] + b) == Tokenise(a) + [x] + Tokenise(b)
  {
    TokeniseAppend(a + [x], b);
    TokeniseAppend(a, [x]);
    SplitNoSeparator(x, ' ');
    assert Tokenise([x]) == Split(x, ' ') + Tokenise([]);
  }

  /** Arguments without spaces pass through unchanged. */
  lemma {:induction false} TokeniseSpaceless(args: seq<string>)
    requires forall i :: 0 <= i < |args| ==> ' ' !in args[i]
    ensures Tokenise(args) == args
    decreases |args|
  {
    if |args| > 0 {
      SplitNoSeparator(args[0], ' ');
      TokeniseSpaceless(args[1..]);
      assert [args[0]] + args[1..] == args;
    }
  }

  /** Every token is free of spaces, and re-joining each argument's tokens with
      spaces gives the argument back: splitting loses nothing. */
  lemma {:induction false} TokeniseSpaceFree(args: seq<string>)
    ensures forall i :: 0 <= i < |Tokenise(args)| ==> ' ' !in Tokenise(args)[i]
    ensures forall i :: 0 <= i < |args| ==> Join(Split(args[i], ' '), ' ') == args[i]
    decreases |args|
  {
    if |args| > 0 {
      TokeniseSpaceFree(args[1..]);
      var t := Tokenise(args);
      var p := Split(args[0], ' ');
      SplitPiecesFree(args[0], ' ');
      forall i | 0 <= i < |t| ensures ' ' !in t[i] {
        if i >= |p| {
          assert t[i] == Tokenise(args[1..])[i - |p|];
        }
      }
      forall i | 0 <= i < |args| ensures Join(Split(args[i], ' '), ' ') == args[i] {
        JoinSplit(args[i], ' ');
      }
    }
  }

  // ---------------------------------------------------------------- cut

  /** A flag and a value without spaces become two tokens. */
  lemma SplitPair(flag: string, value: string)
    requires ' ' !in flag && ' ' !in value
    ensures Split(Pair(flag, value), ' ') == [flag, value]
  {
    SplitFlagValue(flag, value);
    SplitNoSeparator(value, ' ');
  }

  /** A flag without spaces followed by an arbitrary value: the flag, then the value's pieces. */
  lemma SplitFlagValue(flag: string, value: string)
    requires ' ' !in flag
    ensures Split(Pair(flag, value), ' ') == [flag] + Split(value, ' ')
  {
    SplitAtSeparator(flag, value, ' ');
  }

  lemma TokeniseCons(x: string, rest: seq<string>)
    ensures Tokenise([x] + rest) == Split(x, ' ') + Tokenise(rest)
  {
    assert ([x] + rest)[1..] == rest;
  }

  lemma TokeniseSingle(x: string)
    ensures Tokenise([x]) == Split(x, ' ')
  {
    TokeniseCons(x, []);
    assert [x] + [] == [x];
  }

  /** Regrouping a concatenation; a hint for the `calc` steps below. */
  lemma Assoc<T>(a: seq<T>, b: seq<T>, c: seq<T>)
    ensures (a + b) + c == a + (b + c)
  {
  }

  lemma TokeniseFive(a0: string, a1: string, a2: string, a3: string, a4: string)
    ensures Tokenise([a0, a1, a2, a3, a4])
         == Split(a0, ' ') + (Split(a1, ' ') + (Split(a2, ' ') + (Split(a3, ' ') + Split(a4, ' '))))
  {
    var r4: seq<string> := [a4];
    var r3 := [a3] + r4;
    var r2 := [a2] + r3;
    var r1 := [a1] + r2;
    var r0 := [a0] + r1;
    TokeniseSingle(a4);
    TokeniseCons(a3, r4);
    TokeniseCons(a2, r3);
    TokeniseCons(a1, r2);
    TokeniseCons(a0, r1);
    assert r0 == [a0, a1, a2, a3, a4];
  }

  /** The five leading arguments of a cut command, with the flags and timecodes left symbolic. */
  lemma TokeniseCutHead(y: string, ssf: string, ss: string, tf: string, t: string, i: string,
                        input: string, ac: string, copy: string)
    requires ' ' !in y && ' ' !in ssf && ' ' !in ss && ' ' !in tf && ' ' !in t && ' ' !in i
    requires ' ' !in ac && ' ' !in copy
    ensures Tokenise([y, Pair(ssf, ss), Pair(tf, t), Pair(i, input), Pair(ac, copy)])
         == [y, ssf, ss, tf, t, i] + (Split(input, ' ') + [ac, copy])
  {
    TokeniseFive(y, Pair(ssf, ss), Pair(tf, t), Pair(i, input), Pair(ac, copy));
    SplitNoSeparator(y, ' ');
    SplitPair(ssf, ss);
    SplitPair(tf, t);
    SplitFlagValue(i, input);
    SplitPair(ac, copy);
    var rest := Split(input, ' ') + [ac, copy];
    calc {
      [y] + ([ssf, ss] + ([tf, t] + (([i] + Split(input, ' ')) + [ac, copy])));
      { Assoc([i], Split(input, ' '), [ac, copy]); }
      [y] + ([ssf, ss] + ([tf, t] + ([i] + rest)));
      [y, ssf, ss, tf, t, i] + rest;
    }
  }

  /** A cut command: the program, the leading arguments' tokens, then the last argument's tokens. */
  lemma TokeniseCut(p: string, y: string, ssf: string, ss: string, tf: string, t: string, i: string,
                    input: string, ac: string, copy: string, x: string)
    requires ' ' !in y && ' ' !in ssf && ' ' !in ss && ' ' !in tf && ' ' !in t && ' ' !in i
    requires ' ' !in ac && ' ' !in copy
    ensures Command(p, [y, Pair(ssf, ss), Pair(tf, t), Pair(i, input), Pair(ac, copy), x])
         == [p, y, ssf, ss, tf, t, i] + (Split(input, ' ') + ([ac, copy] + Split(x, ' ')))
  {
    var head := [y, Pair(ssf, ss), Pair(tf, t), Pair(i, input), Pair(ac, copy)];
    var front := [y, ssf, ss, tf, t, i];
    var sIn := Split(input, ' ');
    var sx := Split(x, ' ');
    assert [y, Pair(ssf, ss), Pair(tf, t), Pair(i, input), Pair(ac, copy), x] == head + [x];
    TokeniseAppend(head, [x]);
    TokeniseSingle(x);
    TokeniseCutHead(y, ssf, ss, tf, t, i, input, ac, copy);
    calc {
      Command(p, head + [x]);
      [p] + ((front + (sIn + [ac, copy])) + sx);
      { Assoc(front, sIn + [ac, copy], sx); Assoc(sIn, [ac, copy], sx); }
      [p] + (front + (sIn + ([ac, copy] + sx)));
      { Assoc([p], front, sIn + ([ac, copy] + sx)); }
      [p, y, ssf, ss, tf, t, i] + (sIn + ([ac, copy] + sx));
    }
  }

  /** Without a filter the output path's pieces end the command; a path with
      spaces is cut into several tokens, one without is the last token. */
  lemma CutCommandPlain(input: string, offset: nat, runTime: nat, filter: Option<string>, out: string)
    requires !HasFilter(filter)
    ensures Command(Program, CutArgs(input, offset, runTime, filter, out))
         == ["ffmpeg", "-y", "-ss", Timecode(offset), "-t", Timecode(runTime), "-i"]
            + (Split(input, ' ') + (["-acodec", "copy"] + Split(out, ' ')))
    ensures ' ' !in out ==> Last(Command(Program, CutArgs(input, offset, runTime, filter, out))) == out
  {
    TimecodeHasNoSpace(offset);
    TimecodeHasNoSpace(runTime);
    if ' ' !in out {
      SplitNoSeparator(out, ' ');
    }
    var ss, t := Timecode(offset), Timecode(runTime);
    assert CutArgs(input, offset, runTime, filter, out)
        == ["-y", Pair("-ss", ss), Pair("-t", t), Pair("-i", input), Pair("-acodec", "copy"), out];
    TokeniseCut(Program, "-y", "-ss", ss, "-t", t, "-i", input, "-acodec", "copy", out);
  }

  /** With a filter, `-af` is followed by the filter's space-separated pieces and
      the last piece runs straight into the output path inside one token. */
  lemma CutCommandFiltered(input: string, offset: nat, runTime: nat, filter: Option<string>, out: string)
    requires HasFilter(filter)
    requires ' ' !in out
    ensures var f := Split(filter.value, ' ');
      Command(Program, CutArgs(input, offset, runTime, filter, out))
        == ["ffmpeg", "-y", "-ss", Timecode(offset), "-t", Timecode(runTime), "-i"]
           + (Split(input, ' ') + (["-acodec", "copy"] + (["-af"] + (f[..|f| - 1] + [Last(f) + out]))))
  {
    var f := Split(filter.value, ' ');
    var glued := Pair("-af", filter.value + out);
    TimecodeHasNoSpace(offset);
    TimecodeHasNoSpace(runTime);
    SplitAtSeparator("-af", filter.value + out, ' ');
    SplitSuffix(filter.value, out, ' ');
    assert Split(glued, ' ') == ["-af"] + (f[..|f| - 1] + [Last(f) + out]);
    var ss, t := Timecode(offset), Timecode(runTime);
    assert CutArgs(input, offset, runTime, filter, out)
        == ["-y", Pair("-ss", ss), Pair("-t", t), Pair("-i", input), Pair("-acodec", "copy"), glued];
    TokeniseCut(Program, "-y", "-ss", ss, "-t", t, "-i", input, "-acodec", "copy", glued);
  }

  /** As written, a filter swallows the output path: the command's last token
      is the filter text with the path appended, so ffmpeg is given no output file. */
  lemma CutFilterSwallowsOutput(input: string, offset: nat, runTime: nat, filter: Option<string>, out: string)
    requires HasFilter(filter)
    requires ' ' !in out && ' ' !in filter.value
    ensures Last(Command(Program, CutArgs(input, offset, runTime, filter, out))) == filter.value + out
    ensures Last(Command(Program, CutArgs(input, offset, runTime, filter, out))) != out
  {
    CutCommandFiltered(input, offset, runTime, filter, out);
    SplitNoSeparator(filter.value, ' ');
  }

  /** The cut arguments as evidently intended: `-af` and the filter as one
      argument, the output path as the next. */
  function CutArgsFixed(input: string, offset: nat, runTime: nat, filter: Option<string>, out: string): seq<string>
  {
    var head := CutHead(input, Timecode(offset), Timecode(runTime));
    if HasFilter(filter) then head + [Pair("-af", filter.value), out] else head + [out]
  }

  /** Two trailing arguments, a flag with its value and then a space-free one. */
  lemma TokeniseFlagThenLast(p: string, head: seq<string>, flag: string, value: string, out: string)
    requires ' ' !in flag && ' ' !in out
    ensures Command(p, head + [Pair(flag, value), out]) == Command(p, head) + ([flag] + Split(value, ' ')) + [out]
  {
    var fv := Pair(flag, value);
    assert head + [fv, out] == (head + [fv]) + [out];
    TokeniseAppend(head + [fv], [out]);
    TokeniseAppend(head, [fv]);
    TokeniseSingle(fv);
    TokeniseSingle(out);
    SplitFlagValue(flag, value);
    SplitNoSeparator(out, ' ');
  }

  /** A space-free last argument is the last token. */
  lemma TokeniseLast(p: string, head: seq<string>, out: string)
    requires ' ' !in out
    ensures Command(p, head + [out]) == Command(p, head) + [out]
  {
    TokeniseAppend(head, [out]);
    TokeniseSingle(out);
    SplitNoSeparator(out, ' ');
  }

  /** With the fix, the filter's pieces follow `-af` and the output path is the
      last token, whatever the filter. Without a filter nothing changes. */
  lemma CutFixedKeepsOutput(input: string, offset: nat, runTime: nat, filter: Option<string>, out: string)
    requires ' ' !in out
    ensures Last(Command(Program, CutArgsFixed(input, offset, runTime, filter, out))) == out
    ensures HasFilter(filter) ==>
      Command(Program, CutArgsFixed(input, offset, runTime, filter, out))
        == Command(Program, CutHead(input, Timecode(offset), Timecode(runTime)))
           + (["-af"] + Split(filter.value, ' ')) + [out]
    ensures !HasFilter(filter) ==> CutArgsFixed(input, offset, runTime, filter, out) == CutArgs(input, offset, runTime, filter, out)
  {
    var head := CutHead(input, Timecode(offset), Timecode(runTime));
    if HasFilter(filter) {
      TokeniseFlagThenLast(Program, head, "-af", filter.value, out);
    } else {
      TokeniseLast(Program, head, out);
    }
  }

  // ---------------------------------------------------------------- concat

  /** The interleaving holds 2 * min(|silences|, |audios|) paths: silences[k] at 2k, audios[k] at 2k + 1. */
  lemma {:induction false} InterleaveAt(silences: seq<string>, audios: seq<string>)
    ensures |Interleave(silences, audios)| == 2 * Min(|silences|, |audios|)
    ensures forall k :: 0 <= k < Min(|silences|, |audios|) ==>
      Interleave(silences, audios)[2 * k] == silences[k] && Interleave(silences, audios)[2 * k + 1] == audios[k]
    decreases |silences|
  {
    if |silences| > 0 && |audios| > 0 {
      InterleaveAt(silences[1..], audios[1..]);
      var r := Interleave(silences, audios);
      var rest := Interleave(silences[1..], audios[1..]);
      forall k | 0 <= k < Min(|silences|, |audios|)
        ensures r[2 * k] == silences[k] && r[2 * k + 1] == audios[k]
      {
        if k > 0 {
          assert r[2 * k] == rest[2 * (k - 1)];
          assert r[2 * k + 1] == rest[2 * (k - 1) + 1];
        }
      }
    }
  }

  /** A path occurs in the interleaving exactly when it is one of the first
      min(|silences|, |audios|) silences or audios. */
  lemma InterleaveMembers(silences: seq<string>, audios: seq<string>, x: string)
    ensures x in Interleave(silences, audios) <==>
      exists k :: 0 <= k < Min(|silences|, |audios|) && (x == silences[k] || x == audios[k])
  {
    var r := Interleave(silences, audios);
    var n := Min(|silences|, |audios|);
    InterleaveAt(silences, audios);
    if x in r {
      var j :| 0 <= j < |r| && r[j] == x;
      var k := j / 2;
      assert j == 2 * k || j == 2 * k + 1;
      assert x == silences[k] || x == audios[k];
    }
    if exists k :: 0 <= k < n && (x == silences[k] || x == audios[k]) {
      var k :| 0 <= k < n && (x == silences[k] || x == audios[k]);
      assert r[2 * k] == silences[k] && r[2 * k + 1] == audios[k];
    }
  }

  /** With four silences and three audios the last silence is dropped by `zip`:
      the list is s0 a0 s1 a1 s2 a2, and s3 only occurs if it equals another path. */
  lemma InterleaveDropsFourthSilence(silences: seq<string>, audios: seq<string>)
    requires |silences| == 4 && |audios| == 3
    ensures Interleave(silences, audios)
         == [silences[0], audios[0], silences[1], audios[1], silences[2], audios[2]]
    ensures silences[3] in Interleave(silences, audios) <==> silences[3] in silences[..3] + audios
  {
    var r := Interleave(silences, audios);
    InterleaveAt(silences, audios);
    assert r == [silences[0], audios[0], silences[1], audios[1], silences[2], audios[2]];
  }

  /** Without '|' in any path, splitting the concat input after `concat:` on '|'
      gives back the interleaved list. */
  lemma ConcatInputRoundTrip(parts: seq<string>)
    requires |parts| >= 1
    requires forall i :: 0 <= i < |parts| ==> '|' !in parts[i]
    ensures ConcatInput(parts)[|"concat:"|..] == Join(parts, '|')
    ensures Split(ConcatInput(parts)[|"concat:"|..], '|') == parts
  {
    assert ConcatInput(parts)[|"concat:"|..] == Join(parts, '|');
    SplitJoin(parts, '|');
  }

  /** The concat command's arguments, with everything left symbolic. */
  lemma TokeniseConcat(y: string, i: string, input: string, ac: string, copy: string, out: string)
    requires ' ' !in y && ' ' !in i && ' ' !in input && ' ' !in ac && ' ' !in copy && ' ' !in out
    ensures Tokenise([y, i, input, Pair(ac, copy), out]) == [y, i, input, ac, copy, out]
  {
    TokeniseFive(y, i, input, Pair(ac, copy), out);
    SplitNoSeparator(y, ' ');
    SplitNoSeparator(i, ' ');
    SplitNoSeparator(input, ' ');
    SplitPair(ac, copy);
    SplitNoSeparator(out, ' ');
  }

  /** With space-free paths, the concat command is exactly seven tokens; `-acodec copy` is two of them. */
  lemma ConcatCommandTokens(parts: seq<string>, out: string)
    requires forall i :: 0 <= i < |parts| ==> ' ' !in parts[i]
    requires ' ' !in out
    ensures Command(Program, ConcatArgs(parts, out))
         == ["ffmpeg", "-y", "-i", ConcatInput(parts), "-acodec", "copy", out]
  {
    JoinAvoids(parts, '|', ' ');
    TokeniseConcat("-y", "-i", ConcatInput(parts), "-acodec", "copy", out);
  }

  // ---------------------------------------------------------------- mux

  /** The first five arguments of the mux command, with everything left symbolic. */
  lemma TokeniseMuxInputs(y: string, i: string, video: string, audio: string, cv: string, copy: string, fc: string)
    requires ' ' !in y && ' ' !in i && ' ' !in video && ' ' !in audio && ' ' !in cv && ' ' !in copy && ' ' !in fc
    ensures Tokenise([y, Pair(i, video), Pair(i, audio), Pair(cv, copy), fc])
         == [y, i, video, i, audio, cv, copy, fc]
  {
    TokeniseFive(y, Pair(i, video), Pair(i, audio), Pair(cv, copy), fc);
    SplitNoSeparator(y, ' ');
    SplitPair(i, video);
    SplitPair(i, audio);
    SplitPair(cv, copy);
    SplitNoSeparator(fc, ' ');
  }

  /** The last five arguments of the mux command, with everything left symbolic. */
  lemma TokeniseMuxOutputs(graph: string, mp: string, v0: string, a: string, out: string)
    requires ' ' !in graph && ' ' !in mp && ' ' !in v0 && ' ' !in a && ' ' !in out
    ensures Tokenise([graph, Pair(mp, v0), mp, a, out]) == [graph, mp, v0, mp, a, out]
  {
    TokeniseFive(graph, Pair(mp, v0), mp, a, out);
    SplitNoSeparator(graph, ' ');
    SplitPair(mp, v0);
    SplitNoSeparator(mp, ' ');
    SplitNoSeparator(a, ' ');
    SplitNoSeparator(out, ' ');
  }

  /** The mux command's arguments, with everything left symbolic. */
  lemma TokeniseMux(y: string, i: string, video: string, audio: string, cv: string, copy: string,
                    fc: string, graph: string, mp: string, v0: string, a: string, out: string)
    requires ' ' !in y && ' ' !in i && ' ' !in video && ' ' !in audio && ' ' !in cv && ' ' !in copy
    requires ' ' !in fc && ' ' !in graph && ' ' !in mp && ' ' !in v0 && ' ' !in a && ' ' !in out
    ensures Tokenise([y, Pair(i, video), Pair(i, audio), Pair(cv, copy), fc, graph, Pair(mp, v0), mp, a, out])
         == [y, i, video, i, audio, cv, copy, fc, graph, mp, v0, mp, a, out]
  {
    var first := [y, Pair(i, video), Pair(i, audio), Pair(cv, copy), fc];
    var second := [graph, Pair(mp, v0), mp, a, out];
    assert [y, Pair(i, video), Pair(i, audio), Pair(cv, copy), fc, graph, Pair(mp, v0), mp, a, out]
        == first + second;
    TokeniseAppend(first, second);
    TokeniseMuxInputs(y, i, video, audio, cv, copy, fc);
    TokeniseMuxOutputs(graph, mp, v0, a, out);
  }

  lemma VideoAudioChainHasNoSpace()
    ensures ' ' !in VideoAudioChain
  {
  }

  lemma NarrationChainHasNoSpace()
    ensures ' ' !in NarrationChain
  {
  }

  /** The filter graph is a single token. */
  lemma MuxFilterGraphHasNoSpace()
    ensures ' ' !in MuxFilterGraph
  {
    VideoAudioChainHasNoSpace();
    NarrationChainHasNoSpace();
  }

  /** With space-free paths the mux command has fifteen tokens; the audio track is the second `-i`. */
  lemma MuxCommandTokens(video: string, audio: string, out: string)
    requires ' ' !in video && ' ' !in audio && ' ' !in out
    ensures Command(Program, MuxArgs(video, audio, out))
         == ["ffmpeg", "-y", "-i", video, "-i", audio, "-c:v", "copy", "-filter_complex", MuxFilterGraph,
             "-map", "0:v", "-map", "[a]", out]
  {
    MuxFilterGraphHasNoSpace();
    TokeniseMux("-y", "-i", video, audio, "-c:v", "copy", "-filter_complex", MuxFilterGraph, "-map", "0:v", "[a]", out);
  }

  // ---------------------------------------------------------------- paths

  /** A generated file name has no space, no '|' and no '/', so it survives the
      argument splitting, the concat list and the path split intact. */
  lemma HexNamePlain(name: string, ext: string)
    requires IsHexName(name)
    requires ' ' !in ext && '|' !in ext && '/' !in ext
    ensures ' ' !in name + ext && '|' !in name + ext && '/' !in name + ext
  {
    assert forall i :: 0 <= i < |name| ==> name[i] != ' ' && name[i] != '|' && name[i] != '/';
  }

  /** A full path ends with the file name, and when the file name has no '/'
      it is exactly the last component of the path. */
  lemma OutputPathBasename(cwd: string, cachePath: string, filename: string)
    ensures EndsWith(OutputPath(cwd, cachePath, filename), filename)
    ensures '/' !in filename ==> Last(Split(OutputPath(cwd, cachePath, filename), '/')) == filename
  {
    var dir := cwd + "/" + cachePath;
    assert OutputPath(cwd, cachePath, filename) == (dir + ['/']) + filename;
    if '/' !in filename {
      SplitTrailingSeparator(dir, '/');
      SplitSuffix(dir + ['/'], filename, '/');
    }
  }
}
