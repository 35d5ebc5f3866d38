/**
 * The `VideoProcessing` object of video_processing.py: its fields, the cache
 * update, the path helper and the three ffmpeg operations. Running a child
 * process is replaced by two things: the argument vector is appended to the
 * ghost trace `issued`, and the text the child would print on stdout is a
 * parameter. The working directory and the generated uuid names are
 * parameters too.
 */
module Processing {
  import opened Results
  import opened PyStr
  import opened Commands

  class VideoProcessing {
    /** The user's audio file that the cuts read from (`_filename`). */
    const filename: string
    const videoFilePath: string
    const cache: string
    /** Where outputs are written: `cache` until `CreateCache` moves it into a subdirectory. */
    var cachePath: string
    /** Every argument vector handed to exec so far, oldest first. */
    ghost var issued: seq<seq<string>>

    constructor (audioFilename: string, videoFilePath: string, cache: string)
      ensures filename == audioFilename && this.videoFilePath == videoFilePath && this.cache == cache
      ensures cachePath == cache
      ensures issued == []
    {
      filename := audioFilename;
      this.videoFilePath := videoFilePath;
      this.cache := cache;
      cachePath := cache;
      issued := [];
    }

    /** `_create_cache` with the uuid passed in: outputs move to a fresh subdirectory of the cache. */
    method CreateCache(name: string)
      modifies this`cachePath
      ensures cachePath == cache + "/" + name
      ensures issued == old(issued)
    {
      cachePath := cache + "/" + name;
    }

    /** `_get_full_path` with `os.getcwd()` passed in as `cwd`. */
    function FullPath(cwd: string, file: string): (path: string)
      reads this`cachePath
      ensures EndsWith(path, file)
      ensures '/' !in file ==> Last(Split(path, '/')) == file
      ensures |path| > |cwd| && path[..|cwd| + 1] == cwd + "/"
    {
      OutputPathBasename(cwd, cachePath, file);
      OutputPath(cwd, cachePath, file)
    }

    /** The loop of `_async_shell_command`: each argument's `split(' ')` appended in turn. */
    static method SplitArguments(args: seq<string>) returns (newArgs: seq<string>)
      ensures newArgs == Tokenise(args)
    {
      newArgs := [];
      for i := 0 to |args|
        invariant newArgs == Tokenise(args[..i])
      {
        assert args[..i + 1] == args[..i] + [args[i]];
        TokeniseAppend(args[..i], [args[i]]);
        TokeniseSingle(args[i]);
        newArgs := newArgs + Split(args[i], ' ');
      }
      assert args[..|args|] == args;
    }

    /** `_async_shell_command`: the program and the split arguments are issued;
        the command fails exactly when the child printed anything but whitespace. */
    method ShellCommand(program: string, args: seq<string>, stdout: string) returns (r: Outcome<Error>)
      modifies this`issued
      ensures issued == old(issued) + [Command(program, args)]
      ensures r.Pass? <==> IsBlank(stdout)
      ensures r.Fail? ==> r.error == FfmpegError
    {
      var newArgs := SplitArguments(args);
      issued := issued + [[program] + newArgs];
      StripEmptyIff(stdout);
      if Strip(stdout) != "" {
        return Fail(FfmpegError);
      }
      return Pass;
    }

    /** `_cut_audio`: one cut of the user's audio into a new `.mp3` under the cache path.
        With a filter, the filter and the output path reach ffmpeg as one token. */
    method CutAudio(cwd: string, name: string, offset: nat, runTime: nat, filter: Option<string>, stdout: string)
      returns (r: Result<string, Error>)
      modifies this`issued
      ensures issued == old(issued) + [Command(Program, CutArgs(filename, offset, runTime, filter, FullPath(cwd, name + ".mp3")))]
      ensures r.Success? <==> IsBlank(stdout)
      ensures r.Success? ==> r.value == FullPath(cwd, name + ".mp3") && EndsWith(r.value, ".mp3")
      ensures r.Success? && !HasFilter(filter) && ' ' !in r.value ==> Last(Last(issued)) == r.value
      ensures r.Success? && HasFilter(filter) && ' ' !in filter.value && ' ' !in r.value
              ==> Last(Last(issued)) == filter.value + r.value
    {
      var out := FullPath(cwd, name + ".mp3");
      var args := CutArgs(filename, offset, runTime, filter, out);
      var outcome := ShellCommand(Program, args, stdout);
      if outcome.Fail? {
        return Failure(outcome.error);
      }
      EndsWithExtension(out, name, ".mp3");
      if !HasFilter(filter) && ' ' !in out {
        CutCommandPlain(filename, offset, runTime, filter, out);
      } else if HasFilter(filter) && ' ' !in filter.value && ' ' !in out {
        CutFilterSwallowsOutput(filename, offset, runTime, filter, out);
      }
      return Success(out);
    }

    /** The loop of `_concat_audio`: `zip` the two lists and flatten the pairs. */
    static method ZipInterleave(silences: seq<string>, audios: seq<string>) returns (pipeline: seq<string>)
      ensures pipeline == Interleave(silences, audios)
    {
      var n := Min(|silences|, |audios|);
      pipeline := [];
      for i := 0 to n
        invariant |pipeline| == 2 * i
        invariant forall k :: 0 <= k < i ==> pipeline[2 * k] == silences[k] && pipeline[2 * k + 1] == audios[k]
      {
        pipeline := pipeline + [silences[i], audios[i]];
      }
      var expected := Interleave(silences, audios);
      InterleaveAt(silences, audios);
      forall j | 0 <= j < |pipeline|
        ensures pipeline[j] == expected[j]
      {
        var k := j / 2;
        assert 0 <= k < n;
        assert pipeline[2 * k] == silences[k] && pipeline[2 * k + 1] == audios[k];
        assert expected[2 * k] == silences[k] && expected[2 * k + 1] == audios[k];
        assert j == 2 * k || j == 2 * k + 1;
      }
    }

    /** `_concat_audio`: the silences and cuts interleaved into one `.mp3` with the concat protocol. */
    method ConcatAudio(cwd: string, name: string, audios: seq<string>, silences: seq<string>, stdout: string)
      returns (r: Result<string, Error>)
      modifies this`issued
      ensures issued == old(issued) + [Command(Program, ConcatArgs(Interleave(silences, audios), FullPath(cwd, name + ".mp3")))]
      ensures r.Success? <==> IsBlank(stdout)
      ensures r.Success? ==> r.value == FullPath(cwd, name + ".mp3") && EndsWith(r.value, ".mp3")
    {
      var out := FullPath(cwd, name + ".mp3");
      var pipeline := ZipInterleave(silences, audios);
      var outcome := ShellCommand(Program, ConcatArgs(pipeline, out), stdout);
      if outcome.Fail? {
        return Failure(outcome.error);
      }
      EndsWithExtension(out, name, ".mp3");
      return Success(out);
    }

    /** `_generate_video`: the video with the new audio mixed in, written to a new `.mp4`. */
    method GenerateVideo(cwd: string, name: string, audio: string, stdout: string)
      returns (r: Result<string, Error>)
      modifies this`issued
      ensures issued == old(issued) + [Command(Program, MuxArgs(videoFilePath, audio, FullPath(cwd, name + ".mp4")))]
      ensures r.Success? <==> IsBlank(stdout)
      ensures r.Success? ==> r.value == FullPath(cwd, name + ".mp4") && EndsWith(r.value, ".mp4")
    {
      var out := FullPath(cwd, name + ".mp4");
      var outcome := ShellCommand(Program, MuxArgs(videoFilePath, audio, out), stdout);
      if outcome.Fail? {
        return Failure(outcome.error);
      }
      EndsWithExtension(out, name, ".mp4");
      return Success(out);
    }
  }

  /** A path ending with `name + ext` ends with `ext`. */
  lemma EndsWithExtension(path: string, name: string, ext: string)
    requires EndsWith(path, name + ext)
    ensures EndsWith(path, ext)
  {
    assert path[|path| - |ext|..] == (name + ext)[|name|..];
  }
}
