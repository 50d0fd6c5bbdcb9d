/** The sequential renderer, `lottieToVideo`, of which the repository holds
    two copies with the same logic (one under `src/`, one at the root): it
    renders source frames `0 .. totalFrames - 1` one after another, with no
    resampling, and writes each raw RGBA buffer to the encoder's input. */
module LottieToVideo {
  import opened Wrappers
  import opened SeqUtil
  import opened JsSemantics
  import opened FfmpegBinary
  import LottieToVideoParallel
  import RenderLottie

  /** The options of `lottieToVideo` that shape the encoder call; `None` is
      `undefined`. */
  datatype SequentialOptions = SequentialOptions(
    outPath: string, width: Option<int>, height: Option<int>, fps: Option<int>,
    codec: Option<string>, crf: Option<int>, preset: Option<string>)

  /** What the player reports once the animation is loaded. */
  datatype Player = Player(width: int, height: int, totalFrames: nat, duration: real)

  /** The source rate as this renderer derives it: frames over seconds, the
      duration kept at one microsecond at least, rounded to an integer. */
  function SourceFps(p: Player): (r: int)
    ensures var d := if p.duration > 0.000001 then p.duration else 0.000001;
      r as real - 0.5 <= p.totalFrames as real / d < r as real + 0.5
    ensures r >= 0
  {
    Round(p.totalFrames as real / (if p.duration > 0.000001 then p.duration else 0.000001))
  }

  /** The output rate: the option when given, the source rate otherwise. */
  function OutputFps(o: SequentialOptions, p: Player): (fps: int)
    ensures o.fps.Some? ==> fps == o.fps.value
    ensures o.fps.None? ==> fps == SourceFps(p)
  {
    o.fps.GetOr(SourceFps(p))
  }

  /** Whether the VP9 branch of the argument builder is taken. */
  predicate IsVp9(codec: string)
  {
    codec == "libvpx-vp9"
  }

  /** The encoder arguments, built as the source does: the raw-input prefix,
      then the arguments of the chosen codec (VP9 for exactly
      `libvpx-vp9`, H.264 for any other value), then the output path. The
      numbers written into the list read back as the rate and the quality. */
  method BuildArgs(W: int, H: int, FPS: int, codec: string, crf: int, preset: string, outPath: string)
    returns (args: seq<string>)
    ensures |args| == if IsVp9(codec) then 19 else 23
    ensures args[..12] == ["-y", "-f", "rawvideo", "-pix_fmt", "rgba", "-s",
                           IntToString(W) + "x" + IntToString(H), "-r", IntToString(FPS),
                           "-i", "pipe:0", "-an"]
    ensures IsVp9(codec) ==>
              args[12..18] == ["-c:v", "libvpx-vp9", "-b:v", "0", "-crf", IntToString(crf)]
    ensures !IsVp9(codec) ==>
              args[12..22] == ["-c:v", "libx264", "-crf", IntToString(crf), "-preset", preset,
                               "-pix_fmt", "yuv420p", "-movflags", "+faststart"]
    ensures args[13] == if IsVp9(codec) then "libvpx-vp9" else "libx264"
    ensures !IsVp9(codec) ==> args[17] == preset
    ensures args[|args| - 1] == outPath
    ensures ParseInt(args[8]) == FPS
    ensures ParseInt(args[if IsVp9(codec) then 17 else 15]) == crf
  {
    args := ["-y", "-f", "rawvideo", "-pix_fmt", "rgba", "-s",
             IntToString(W) + "x" + IntToString(H), "-r", IntToString(FPS), "-i", "pipe:0", "-an"];
    if codec == "libvpx-vp9" {
      args := args + ["-c:v", "libvpx-vp9", "-b:v", "0", "-crf", IntToString(crf)];
    } else {
      args := args + ["-c:v", "libx264", "-crf", IntToString(crf), "-preset", preset,
                      "-pix_fmt", "yuv420p", "-movflags", "+faststart"];
    }
    args := args + [outPath];
    IntRoundTrip(FPS);
    IntRoundTrip(crf);
  }

  /** `resolveFfmpegPath` as written: the environment override, then the
      bundled binary; after those it calls `spawnSync`, which neither file
      imports, so that call throws a `ReferenceError` and the fallbacks
      behind it are never reached. */
  function ResolveFfmpegPathAsWritten(env: Option<string>, ffmpegStatic: Option<string>): (r: Result<string, string>)
    ensures r.Success? <==> TruthyPath(env).Some? || TruthyPath(ffmpegStatic).Some?
    ensures r.Success? ==> r.value == FirstAvailable([TruthyPath(env), TruthyPath(ffmpegStatic)], "")
  {
    FirstAvailableIsFirstOfTwo(TruthyPath(env), TruthyPath(ffmpegStatic));
    if env.Some? && env.value != "" then Success(env.value)
    else if ffmpegStatic.Some? && ffmpegStatic.value != "" then Success(ffmpegStatic.value)
    else Failure("ReferenceError: spawnSync is not defined")
  }

  lemma FirstAvailableIsFirstOfTwo(a: Option<string>, b: Option<string>)
    ensures FirstAvailable([a, b], "") == if a.Some? then a.value else if b.Some? then b.value else ""
  {
    assert [a, b][1..] == [b];
    assert [b][1..] == [];
    assert FirstAvailable([a, b], "") == if a.Some? then a.value else FirstAvailable([b], "");
    assert FirstAvailable([b], "") == if b.Some? then b.value else FirstAvailable([], "");
  }

  /** Without the override and the bundled binary the lookup is never
      consulted: the render fails even on a machine whose `which ffmpeg`
      would have found one. */
  lemma AsWrittenIgnoresSystemLookup(lookup: string -> SpawnResult, win32: bool)
    requires SystemCandidate(lookup(LookupCommand(win32))).Some?
    ensures ResolveFfmpegPathAsWritten(None, None).Failure?
    ensures ResolveFfmpegPath(None, lookup, None, win32) == SystemCandidate(lookup(LookupCommand(win32))).value
  {
    FirstAvailableOfThree(None, None, SystemCandidate(lookup(LookupCommand(win32))), DefaultBinary(win32));
  }

  /** `resolveFfmpegPath` as evidently intended, with `spawnSync` in scope:
      the environment override, then the bundled binary, then the first
      line of a successful system lookup, then the platform's default name.
      This order differs from the one of the other two renderers, which
      consult the system lookup before the bundled binary. */
  function ResolveFfmpegPath(env: Option<string>, lookup: string -> SpawnResult,
                             ffmpegStatic: Option<string>, win32: bool): (path: string)
    ensures path == FirstAvailable(
              [TruthyPath(env), TruthyPath(ffmpegStatic), SystemCandidate(lookup(LookupCommand(win32)))],
              DefaultBinary(win32))
  {
    FirstAvailableOfThree(TruthyPath(env), TruthyPath(ffmpegStatic),
                          SystemCandidate(lookup(LookupCommand(win32))), DefaultBinary(win32));
    if env.Some? && env.value != "" then env.value
    else if ffmpegStatic.Some? && ffmpegStatic.value != "" then ffmpegStatic.value
    else
      var out := lookup(if win32 then "where" else "which");
      var sys := if out.status == Some(0) then FirstNonEmpty(Lines(out.stdout)) else None;
      if sys.Some? then sys.value
      else if win32 then "ffmpeg.exe" else "ffmpeg"
  }

  /** Wherever the code as written finds a binary, the intended resolution
      finds the same one. */
  lemma CorrectedExtendsAsWritten(env: Option<string>, lookup: string -> SpawnResult,
                                  ffmpegStatic: Option<string>, win32: bool)
    requires ResolveFfmpegPathAsWritten(env, ffmpegStatic).Success?
    ensures ResolveFfmpegPath(env, lookup, ffmpegStatic, win32) == ResolveFfmpegPathAsWritten(env, ffmpegStatic).value
  {
  }

  /** Where both renderers that disagree on the order can find a binary in
      the environment, they pick the same one; with no override and both a
      bundled and a system binary, this renderer picks the bundled one and
      the others the system one. */
  lemma OrdersDifferOnlyBelowOverride(env: Option<string>, lookup: string -> SpawnResult,
                                      ffmpegStatic: Option<string>, win32: bool)
    ensures TruthyPath(env).Some? ==>
              ResolveFfmpegPath(env, lookup, ffmpegStatic, win32) ==
              RenderLottie.ResolveFfmpegPath(env, lookup, ffmpegStatic, win32)
    ensures TruthyPath(env).None? && TruthyPath(ffmpegStatic).Some? &&
            SystemCandidate(lookup(LookupCommand(win32))).Some? ==>
              ResolveFfmpegPath(env, lookup, ffmpegStatic, win32) == ffmpegStatic.value &&
              RenderLottie.ResolveFfmpegPath(env, lookup, ffmpegStatic, win32) ==
              SystemCandidate(lookup(LookupCommand(win32))).value
  {
    FirstAvailableOfThree(TruthyPath(env), SystemCandidate(lookup(LookupCommand(win32))),
                          TruthyPath(ffmpegStatic), DefaultBinary(win32));
  }

  /** The frame loop: frame `f` is rendered and its buffer written, for `f`
      from 0 up to the frame count. Every frame is written exactly once, in
      ascending order. */
  method WriteAllFrames<B>(totalFrames: nat, render: int -> B) returns (sink: seq<B>)
    ensures |sink| == totalFrames
    ensures forall f :: 0 <= f < totalFrames ==> sink[f] == render(f)
  {
    sink := [];
    var f := 0;
    while f < totalFrames
      invariant 0 <= f <= totalFrames
      invariant |sink| == f
      invariant forall g :: 0 <= g < f ==> sink[g] == render(g)
    {
      sink := sink + [render(f)];
      f := f + 1;
    }
  }

  /** The sequential output is the resampling renderer's reference output
      at ratio 1: every source frame once, in order. */
  lemma {:induction false} SequentialIsUnitRatioTimeline<B>(n: nat, render: int -> B)
    ensures LottieToVideoParallel.Timeline(LottieToVideoParallel.Plan(n, Finite(1.0)), render) ==
            seq(n, f => render(f))
  {
    LottieToVideoParallel.WholeRatioRepeatsEvenly(n, 1.0, 1);
    OnesTimeline(LottieToVideoParallel.Plan(n, Finite(1.0)), render);
  }

  lemma {:induction false} OnesTimeline<B>(rep: seq<nat>, render: int -> B)
    requires forall k :: 0 <= k < |rep| ==> rep[k] == 1
    ensures LottieToVideoParallel.Timeline(rep, render) == seq(|rep|, f => render(f))
  {
    if |rep| > 0 {
      var init := rep[..|rep| - 1];
      OnesTimeline(init, render);
      assert Repeat(render(|rep| - 1), 1) == [render(|rep| - 1)];
      assert seq(|rep|, f => render(f)) == seq(|init|, f => render(f)) + [render(|rep| - 1)];
    }
  }

  /** What one render hands to the encoder. */
  datatype SequentialRun<B> = SequentialRun(binary: string, args: seq<string>, frames: seq<B>)

  /** One render: size, rate and codec options with their defaults (H.264,
      quality 18, preset `medium`), the binary resolved in this renderer's
      order, and every source frame written once. */
  method RenderSequential<B>(o: SequentialOptions, p: Player, env: Option<string>, lookup: string -> SpawnResult,
                             ffmpegStatic: Option<string>, win32: bool, render: int -> B)
    returns (run: SequentialRun<B>)
    ensures run.binary == ResolveFfmpegPath(env, lookup, ffmpegStatic, win32)
    ensures |run.args| == if IsVp9(o.codec.GetOr("libx264")) then 19 else 23
    ensures run.args[..12] == ["-y", "-f", "rawvideo", "-pix_fmt", "rgba", "-s",
                               IntToString(o.width.GetOr(p.width)) + "x" + IntToString(o.height.GetOr(p.height)),
                               "-r", IntToString(OutputFps(o, p)), "-i", "pipe:0", "-an"]
    ensures IsVp9(o.codec.GetOr("libx264")) ==>
              run.args[12..18] == ["-c:v", "libvpx-vp9", "-b:v", "0", "-crf", IntToString(o.crf.GetOr(18))]
    ensures !IsVp9(o.codec.GetOr("libx264")) ==>
              run.args[12..22] == ["-c:v", "libx264", "-crf", IntToString(o.crf.GetOr(18)),
                                   "-preset", o.preset.GetOr("medium"),
                                   "-pix_fmt", "yuv420p", "-movflags", "+faststart"]
    ensures run.args[13] == if IsVp9(o.codec.GetOr("libx264")) then "libvpx-vp9" else "libx264"
    ensures ParseInt(run.args[if IsVp9(o.codec.GetOr("libx264")) then 17 else 15]) == o.crf.GetOr(18)
    ensures !IsVp9(o.codec.GetOr("libx264")) ==> run.args[17] == o.preset.GetOr("medium")
    ensures run.args[|run.args| - 1] == o.outPath
    ensures run.frames == LottieToVideoParallel.Timeline(LottieToVideoParallel.Plan(p.totalFrames, Finite(1.0)), render)
  {
    var W := o.width.GetOr(p.width);
    var H := o.height.GetOr(p.height);
    var codec := o.codec.GetOr("libx264");
    var args := BuildArgs(W, H, OutputFps(o, p), codec, o.crf.GetOr(18), o.preset.GetOr("medium"), o.outPath);
    var binary := ResolveFfmpegPath(env, lookup, ffmpegStatic, win32);
    var frames := WriteAllFrames(p.totalFrames, render);
    SequentialIsUnitRatioTimeline(p.totalFrames, render);
    assert frames == seq(p.totalFrames, f => render(f));
    run := SequentialRun(binary, args, frames);
  }
}
