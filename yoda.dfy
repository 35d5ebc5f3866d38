/**
 * `YodaVideoProcessing`: a `VideoProcessing` with a fixed video, cache and
 * set of silences, and the recipe that turns the user's audio into the
 * clip: three cuts, one concat, one mux, each step using the previous
 * step's output and the first failure ending the run.
 */
module Yoda {
  import opened Results
  import opened PyStr
  import opened Timecodes
  import opened Commands
  import opened Processing

  const YodaVideoFilePath := "files/video/yoda.mp4"
  const YodaCache := "files/cache"

  /** Where the three cuts start and how long they last, in tenths of a second:
      0 s for 4.5 s, 4.5 s for 4.5 s, 9 s for 2 s. */
  const CutStarts: seq<nat> := [0, 45, 90]
  const CutLengths: seq<nat> := [45, 45, 20]
  const SilenceFilenames := ["files/audio/silence/silence6.mp3", "files/audio/silence/silence4_5.mp3", "files/audio/silence/silence3.mp3"]

  /** The silences handed to the concat step: the first, the second, the first again, the third. */
  function RecipeSilences(): seq<string>
  {
    [SilenceFilenames[0], SilenceFilenames[1], SilenceFilenames[0], SilenceFilenames[2]]
  }

  /** `YodaVideoProcessing(audio_filename)`. */
  method NewYodaVideoProcessing(audioFilename: string) returns (vp: VideoProcessing)
    ensures fresh(vp)
    ensures vp.filename == audioFilename && vp.videoFilePath == YodaVideoFilePath
    ensures vp.cache == YodaCache && vp.cachePath == YodaCache
    ensures vp.issued == []
  {
    vp := new VideoProcessing(audioFilename, YodaVideoFilePath, YodaCache);
  }

  /** The five files the recipe writes, from the five generated names: three cuts, the concat, the video. */
  function RecipePaths(cwd: string, cachePath: string, names: seq<string>): (paths: seq<string>)
    requires |names| == 5
    ensures |paths| == 5
  {
    [OutputPath(cwd, cachePath, names[0] + ".mp3"), OutputPath(cwd, cachePath, names[1] + ".mp3"),
     OutputPath(cwd, cachePath, names[2] + ".mp3"), OutputPath(cwd, cachePath, names[3] + ".mp3"),
     OutputPath(cwd, cachePath, names[4] + ".mp4")]
  }

  /** The five argument vectors of a complete run, in order. Cuts are in tenths
      of a second: 0 for 4.5 s, 4.5 s for 4.5 s, 9 s for 2 s, none with a filter. */
  function RecipeCommands(audio: string, video: string, cwd: string, cachePath: string, names: seq<string>): (cmds: seq<seq<string>>)
    requires |names| == 5
    ensures |cmds| == 5
  {
    var p := RecipePaths(cwd, cachePath, names);
    [Command(Program, CutArgs(audio, CutStarts[0], CutLengths[0], None, p[0])),
     Command(Program, CutArgs(audio, CutStarts[1], CutLengths[1], None, p[1])),
     Command(Program, CutArgs(audio, CutStarts[2], CutLengths[2], None, p[2])),
     Command(Program, ConcatArgs(Interleave(RecipeSilences(), p[..3]), p[3])),
     Command(Program, MuxArgs(video, p[3], p[4]))]
  }

  /** How many commands a run issues: up to and including the first whose
      stdout is not blank, or all of them. */
  function Issued(stdouts: seq<string>): (n: nat)
    ensures n <= |stdouts|
    ensures forall i :: 0 <= i < n - 1 ==> IsBlank(stdouts[i])
    ensures n < |stdouts| ==> 0 < n && !IsBlank(stdouts[n - 1])
    ensures n == |stdouts| && 0 < n ==> (IsBlank(stdouts[n - 1]) <==> forall i :: 0 <= i < |stdouts| ==> IsBlank(stdouts[i]))
  {
    if |stdouts| == 0 then 0
    else if !IsBlank(stdouts[0]) then 1
    else 1 + Issued(stdouts[1..])
  }

  /** The first three steps of `YodaVideoProcessing.pipeline`: the three cuts,
      in order, the first failure ending the run. */
  method CutMusic(vp: VideoProcessing, cwd: string, names: seq<string>, stdouts: seq<string>)
    returns (r: Result<seq<string>, Error>)
    requires |names| == 5 && |stdouts| == 5
    modifies vp`issued
    ensures vp.issued
         == old(vp.issued) + RecipeCommands(vp.filename, vp.videoFilePath, cwd, vp.cachePath, names)[..Min(Issued(stdouts), 3)]
    ensures r.Success? <==> IsBlank(stdouts[0]) && IsBlank(stdouts[1]) && IsBlank(stdouts[2])
    ensures r.Success? ==> r.value == RecipePaths(cwd, vp.cachePath, names)[..3]
  {
    ghost var t0 := vp.issued;
    ghost var cp := vp.cachePath;
    ghost var cmds := RecipeCommands(vp.filename, vp.videoFilePath, cwd, cp, names);
    RecipeCommandsAt(vp.filename, vp.videoFilePath, cwd, cp, names);
    IssuedPrefix(stdouts);
    ghost var before := vp.issued;
    var music1 := vp.CutAudio(cwd, names[0], CutStarts[0], CutLengths[0], None, stdouts[0]);
    Step(t0, cmds, 0, before, vp.issued, Command(Program, CutArgs(vp.filename, CutStarts[0], CutLengths[0], None, OutputPath(cwd, cp, names[0] + ".mp3"))));
    if music1.Failure? {
      return Failure(music1.error);
    }
    before := vp.issued;
    var music2 := vp.CutAudio(cwd, names[1], CutStarts[1], CutLengths[1], None, stdouts[1]);
    Step(t0, cmds, 1, before, vp.issued, Command(Program, CutArgs(vp.filename, CutStarts[1], CutLengths[1], None, OutputPath(cwd, cp, names[1] + ".mp3"))));
    if music2.Failure? {
      return Failure(music2.error);
    }
    before := vp.issued;
    var music3 := vp.CutAudio(cwd, names[2], CutStarts[2], CutLengths[2], None, stdouts[2]);
    Step(t0, cmds, 2, before, vp.issued, Command(Program, CutArgs(vp.filename, CutStarts[2], CutLengths[2], None, OutputPath(cwd, cp, names[2] + ".mp3"))));
    if music3.Failure? {
      return Failure(music3.error);
    }
    return Success([music1.value, music2.value, music3.value]);
  }

  /** `YodaVideoProcessing.pipeline`, with the working directory, the five
      generated names and the five stdouts passed in. */
  method Pipeline(vp: VideoProcessing, cwd: string, names: seq<string>, stdouts: seq<string>)
    returns (r: Result<string, Error>)
    requires |names| == 5 && |stdouts| == 5
    modifies vp`issued
    ensures vp.issued
         == old(vp.issued) + RecipeCommands(vp.filename, vp.videoFilePath, cwd, vp.cachePath, names)[..Issued(stdouts)]
    ensures r.Success? <==> forall i :: 0 <= i < 5 ==> IsBlank(stdouts[i])
    ensures r.Success? ==> r.value == RecipePaths(cwd, vp.cachePath, names)[4]
  {
    ghost var t0 := vp.issued;
    ghost var cp := vp.cachePath;
    ghost var cmds := RecipeCommands(vp.filename, vp.videoFilePath, cwd, cp, names);
    RecipeCommandsAt(vp.filename, vp.videoFilePath, cwd, cp, names);
    IssuedPrefix(stdouts);
    AllBlank(stdouts);
    var music := CutMusic(vp, cwd, names, stdouts);
    if music.Failure? {
      return Failure(music.error);
    }
    ghost var before := vp.issued;
    var musicConcat := vp.ConcatAudio(cwd, names[3], music.value, RecipeSilences(), stdouts[3]);
    Step(t0, cmds, 3, before, vp.issued, Command(Program, ConcatArgs(Interleave(RecipeSilences(), music.value), OutputPath(cwd, cp, names[3] + ".mp3"))));
    if musicConcat.Failure? {
      return Failure(musicConcat.error);
    }
    before := vp.issued;
    r := vp.GenerateVideo(cwd, names[4], musicConcat.value, stdouts[4]);
    Step(t0, cmds, 4, before, vp.issued, Command(Program, MuxArgs(vp.videoFilePath, musicConcat.value, OutputPath(cwd, cp, names[4] + ".mp4"))));
  }

  /** One more command on the trace is one more element of the recipe's prefix. */
  lemma Step(t0: seq<seq<string>>, cmds: seq<seq<string>>, k: nat, before: seq<seq<string>>, after: seq<seq<string>>, cmd: seq<string>)
    requires k < |cmds|
    requires before == t0 + cmds[..k]
    requires after == before + [cmd]
    requires cmd == cmds[k]
    ensures after == t0 + cmds[..k + 1]
  {
    assert cmds[..k + 1] == cmds[..k] + [cmds[k]];
  }

  /** The recipe's commands one by one, in the form the operations state them. */
  lemma RecipeCommandsAt(audio: string, video: string, cwd: string, cachePath: string, names: seq<string>)
    requires |names| == 5
    ensures var cmds := RecipeCommands(audio, video, cwd, cachePath, names);
      var p := [OutputPath(cwd, cachePath, names[0] + ".mp3"), OutputPath(cwd, cachePath, names[1] + ".mp3"),
                OutputPath(cwd, cachePath, names[2] + ".mp3"), OutputPath(cwd, cachePath, names[3] + ".mp3")];
      && cmds[0] == Command(Program, CutArgs(audio, CutStarts[0], CutLengths[0], None, p[0]))
      && cmds[1] == Command(Program, CutArgs(audio, CutStarts[1], CutLengths[1], None, p[1]))
      && cmds[2] == Command(Program, CutArgs(audio, CutStarts[2], CutLengths[2], None, p[2]))
      && cmds[3] == Command(Program, ConcatArgs(Interleave(RecipeSilences(), RecipePaths(cwd, cachePath, names)[..3]), p[3]))
      && cmds[4] == Command(Program, MuxArgs(video, p[3], OutputPath(cwd, cachePath, names[4] + ".mp4")))
      && RecipePaths(cwd, cachePath, names)[4] == OutputPath(cwd, cachePath, names[4] + ".mp4")
  {
  }

  /** All five stdouts blank, spelled out. */
  lemma AllBlank(stdouts: seq<string>)
    requires |stdouts| == 5
    ensures (forall i :: 0 <= i < 5 ==> IsBlank(stdouts[i]))
        <==> IsBlank(stdouts[0]) && IsBlank(stdouts[1]) && IsBlank(stdouts[2]) && IsBlank(stdouts[3]) && IsBlank(stdouts[4])
  {
  }

  /** `Issued` spelled out for five commands. */
  lemma IssuedPrefix(stdouts: seq<string>)
    requires |stdouts| == 5
    ensures Issued(stdouts) == (if !IsBlank(stdouts[0]) then 1
                                else if !IsBlank(stdouts[1]) then 2
                                else if !IsBlank(stdouts[2]) then 3
                                else if !IsBlank(stdouts[3]) then 4
                                else 5)
  {
    assert stdouts[1..][1..][1..][1..][1..] == [];
  }

  // ---------------------------------------------------------------- wiring

  /** The seek and duration texts of the three cuts. */
  lemma RecipeTimecodes()
    ensures Timecode(0) == "00:00:00.0" && Timecode(45) == "00:00:04.5"
    ensures Timecode(90) == "00:00:09.0" && Timecode(20) == "00:00:02.0"
  {
    TimecodeShortForm(0);
    TimecodeShortForm(45);
    TimecodeShortForm(90);
    TimecodeShortForm(20);
  }

  /** With generated names and a working directory and cache path free of
      `c`, no output path of the recipe contains `c`. */
  lemma RecipePathsAvoid(cwd: string, cachePath: string, names: seq<string>, c: char)
    requires |names| == 5 && forall i :: 0 <= i < 5 ==> IsHexName(names[i])
    requires c == ' ' || c == '|'
    requires c !in cwd && c !in cachePath
    ensures forall i :: 0 <= i < 5 ==> c !in RecipePaths(cwd, cachePath, names)[i]
  {
    var p := RecipePaths(cwd, cachePath, names);
    forall i | 0 <= i < 5
      ensures c !in p[i]
    {
      var ext := if i < 4 then ".mp3" else ".mp4";
      HexNamePlain(names[i], ext);
      assert p[i] == OutputPath(cwd, cachePath, names[i] + ext);
    }
  }

  /** Each cut writes the path its command ends with, and seeks and cuts at
      0 s for 4.5 s, 4.5 s for 4.5 s and 9 s for 2 s. */
  lemma RecipeCutsWiring(audio: string, video: string, cwd: string, cachePath: string, names: seq<string>)
    requires |names| == 5 && forall i :: 0 <= i < 5 ==> IsHexName(names[i])
    requires ' ' !in cwd && ' ' !in cachePath
    ensures var cmds := RecipeCommands(audio, video, cwd, cachePath, names);
      var p := RecipePaths(cwd, cachePath, names);
      Last(cmds[0]) == p[0] && Last(cmds[1]) == p[1] && Last(cmds[2]) == p[2]
    ensures var cmds := RecipeCommands(audio, video, cwd, cachePath, names);
      |cmds[0]| >= 6 && |cmds[1]| >= 6 && |cmds[2]| >= 6
    ensures var cmds := RecipeCommands(audio, video, cwd, cachePath, names);
      cmds[0][..6] == ["ffmpeg", "-y", "-ss", "00:00:00.0", "-t", "00:00:04.5"]
      && cmds[1][..6] == ["ffmpeg", "-y", "-ss", "00:00:04.5", "-t", "00:00:04.5"]
      && cmds[2][..6] == ["ffmpeg", "-y", "-ss", "00:00:09.0", "-t", "00:00:02.0"]
  {
    var cmds := RecipeCommands(audio, video, cwd, cachePath, names);
    var p := RecipePaths(cwd, cachePath, names);
    RecipePathsAvoid(cwd, cachePath, names, ' ');
    RecipeTimecodes();
    CutCommandPlain(audio, CutStarts[0], CutLengths[0], None, p[0]);
    CutCommandPlain(audio, CutStarts[1], CutLengths[1], None, p[1]);
    CutCommandPlain(audio, CutStarts[2], CutLengths[2], None, p[2]);
  }

  /** The concat reads the three cut outputs in order, each after its silence;
      the third silence file is never read. */
  lemma RecipeConcatWiring(audio: string, video: string, cwd: string, cachePath: string, names: seq<string>)
    requires |names| == 5 && forall i :: 0 <= i < 5 ==> IsHexName(names[i])
    requires ' ' !in cwd && ' ' !in cachePath && '|' !in cwd && '|' !in cachePath
    ensures var cmds := RecipeCommands(audio, video, cwd, cachePath, names);
      var p := RecipePaths(cwd, cachePath, names);
      var s := SilenceFilenames;
      var parts := [s[0], p[0], s[1], p[1], s[0], p[2]];
      cmds[3] == ["ffmpeg", "-y", "-i", ConcatInput(parts), "-acodec", "copy", p[3]]
      && Split(ConcatInput(parts)[|"concat:"|..], '|') == parts
  {
    var p := RecipePaths(cwd, cachePath, names);
    var s := SilenceFilenames;
    var parts := [s[0], p[0], s[1], p[1], s[0], p[2]];
    RecipePathsAvoid(cwd, cachePath, names, ' ');
    RecipePathsAvoid(cwd, cachePath, names, '|');
    SilencesPlain();
    RecipeConcatList(p[..3]);
    assert forall i :: 0 <= i < |parts| ==> ' ' !in parts[i];
    ConcatCommandTokens(parts, p[3]);
    ConcatInputRoundTrip(parts);
  }

  /** `zip` pairs the first three silences with the three cuts; the fourth silence is dropped. */
  lemma RecipeConcatList(cuts: seq<string>)
    requires |cuts| == 3
    ensures var s := SilenceFilenames;
      Interleave(RecipeSilences(), cuts) == [s[0], cuts[0], s[1], cuts[1], s[0], cuts[2]]
  {
    InterleaveDropsFourthSilence(RecipeSilences(), cuts);
  }

  /** The silence files are single tokens and single concat entries. */
  lemma SilencesPlain()
    ensures forall i :: 0 <= i < 3 ==> ' ' !in SilenceFilenames[i] && '|' !in SilenceFilenames[i]
  {
    assert ' ' !in "files/audio/silence/silence6.mp3" && '|' !in "files/audio/silence/silence6.mp3";
    assert ' ' !in "files/audio/silence/silence4_5.mp3" && '|' !in "files/audio/silence/silence4_5.mp3";
    assert ' ' !in "files/audio/silence/silence3.mp3" && '|' !in "files/audio/silence/silence3.mp3";
  }

  /** The mux reads the video and, as its second input, the concat output, and writes the `.mp4`. */
  lemma RecipeMuxWiring(audio: string, video: string, cwd: string, cachePath: string, names: seq<string>)
    requires |names| == 5 && forall i :: 0 <= i < 5 ==> IsHexName(names[i])
    requires ' ' !in cwd && ' ' !in cachePath && ' ' !in video
    ensures var cmds := RecipeCommands(audio, video, cwd, cachePath, names);
      var p := RecipePaths(cwd, cachePath, names);
      cmds[4] == ["ffmpeg", "-y", "-i", video, "-i", p[3], "-c:v", "copy", "-filter_complex", MuxFilterGraph,
                  "-map", "0:v", "-map", "[a]", p[4]]
  {
    var p := RecipePaths(cwd, cachePath, names);
    RecipePathsAvoid(cwd, cachePath, names, ' ');
    MuxCommandTokens(video, p[3], p[4]);
  }
}
