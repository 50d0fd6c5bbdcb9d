/** The service renderer: metadata derivation, the fixed worker pool over
    contiguous chunks of `0..nSrc-1`, the reorder buffer that queues the
    frames for the encoder strictly by index, the encoder arguments and the
    binary lookup. Every source frame is encoded once; there is no
    resampling in this renderer. */
module RenderLottie {
  import opened Wrappers
  import opened SeqUtil
  import opened JsSemantics
  import opened FfmpegBinary
  import LottieWorker

  // ---------------------------------------------------------------------------
  // Metadata

  /** The numeric fields of the parsed animation that the renderer reads;
      `None` is a missing or `null` field. */
  datatype LottieMeta = LottieMeta(
    w: Option<int>, h: Option<int>,
    ip: Option<JsNumber>, op: Option<JsNumber>,
    fr: Option<real>, fps: Option<real>, totalFrames: Option<real>)

  /** A size from the metadata: a missing or negative one becomes 0. */
  function Dimension(v: Option<int>): (d: nat)
    ensures v.Some? && v.value >= 0 ==> d == v.value
    ensures !(v.Some? && v.value >= 0) ==> d == 0
  {
    if v.Some? && v.value > 0 then v.value else 0
  }

  /** The in-point: `ip` when it is a finite number, otherwise 0. */
  function StartFrame(meta: LottieMeta): (r: real)
    ensures meta.ip.Some? && meta.ip.value.Finite? ==> r == meta.ip.value.value
    ensures !(meta.ip.Some? && meta.ip.value.Finite?) ==> r == 0.0
  {
    if meta.ip.Some? && IsFinite(meta.ip.value) then meta.ip.value.value else 0.0
  }

  /** The out-point: `op` when it is a finite number, otherwise
      `totalFrames`, otherwise 0. */
  function EndFrame(meta: LottieMeta): (r: real)
    ensures meta.op.Some? && meta.op.value.Finite? ==> r == meta.op.value.value
    ensures !(meta.op.Some? && meta.op.value.Finite?) && meta.totalFrames.Some? ==> r == meta.totalFrames.value
    ensures !(meta.op.Some? && meta.op.value.Finite?) && meta.totalFrames.None? ==> r == 0.0
  {
    if meta.op.Some? && IsFinite(meta.op.value) then meta.op.value.value
    else meta.totalFrames.GetOr(0.0)
  }

  /** The source frame count, never negative: the number of whole frames
      needed to cover the interval from the in-point to the out-point. */
  function FrameCount(meta: LottieMeta): (n: nat)
    ensures n == 0 <==> EndFrame(meta) <= StartFrame(meta)
    ensures n > 0 ==> (n - 1) as real < EndFrame(meta) - StartFrame(meta) <= n as real
  {
    var c := Ceil(EndFrame(meta) - StartFrame(meta));
    if c < 0 then 0 else c
  }

  /** The source rate: the metadata's frame rate field, then its fps field, then 30. */
  function SourceFps(meta: LottieMeta): (r: real)
    ensures meta.fr.Some? ==> r == meta.fr.value
    ensures meta.fr.None? && meta.fps.Some? ==> r == meta.fps.value
    ensures meta.fr.None? && meta.fps.None? ==> r == 30.0
  {
    if meta.fr.Some? then meta.fr.value else meta.fps.GetOr(30.0)
  }

  /** `clampInt` on an integer-valued `v`: truncated to 32 bits, then held
      between `lo` and `hi`, with `lo` winning when the bounds cross. */
  function ClampInt(v: int, lo: int, hi: int): (r: int)
    ensures lo <= hi ==> lo <= r <= hi
    ensures lo <= ToInt32(v) <= hi ==> r == ToInt32(v)
    ensures ToInt32(v) < lo ==> r == lo
    ensures lo <= hi < ToInt32(v) ==> r == hi
  {
    var t := ToInt32(v);
    var m := if hi < t then hi else t;
    if m < lo then lo else m
  }

  /** The output frame rate: the source rate rounded, kept within 1..240. */
  function OutputFps(meta: LottieMeta): (fps: int)
    ensures 1 <= fps <= 240
    ensures 1 <= Round(SourceFps(meta)) <= 240 ==> fps == Round(SourceFps(meta))
  {
    ClampInt(Round(SourceFps(meta)), 1, 240)
  }

  // ---------------------------------------------------------------------------
  // Worker pool

  /** `workerCount`: the requested count, or else one fewer than the cores
      (taken as one at least) and at most eight; never more than the frames
      to render (one when there are none) and never fewer than one. */
  function WorkerCount(workersIn: Option<int>, cpus: nat, nSrc: nat): (c: int)
    ensures 1 <= c
    ensures nSrc > 0 ==> c <= nSrc
    ensures nSrc == 0 ==> c == 1
    ensures workersIn.Some? && 1 <= workersIn.value <= nSrc ==> c == workersIn.value
    ensures workersIn.None? ==> c <= 8 && (cpus <= 2 ==> c == 1)
    ensures workersIn.Some? ==>
      var cap := if nSrc > 0 then nSrc else 1;
      c == (if workersIn.value < 1 then 1 else if workersIn.value < cap then workersIn.value else cap)
    ensures workersIn.None? ==>
      var cap := if nSrc > 0 then nSrc else 1;
      var d := if cpus <= 2 then 1 else if cpus - 1 < 8 then cpus - 1 else 8;
      c == (if d < cap then d else cap)
  {
    var cpuCount := if cpus < 1 then 1 else cpus;
    var byCpu := if cpuCount - 1 < 8 then cpuCount - 1 else 8;
    var wanted := workersIn.GetOr(byCpu);
    var bound := if nSrc == 0 then 1 else nSrc;
    var m := if wanted < bound then wanted else bound;
    if m < 1 then 1 else m
  }

  /** The chunk size: `n / k` rounded up. */
  function ChunkSize(n: nat, k: int): (per: nat)
    requires k >= 1
    ensures k * (per - 1) < n <= k * per
  {
    (n + k - 1) / k
  }

  /** `chunkArray(arr, k)`: consecutive slices of `ceil(|arr| / k)` elements,
      only the last one possibly shorter, empty slices dropped. */
  method ChunkArray<T>(arr: seq<T>, k: int) returns (out: seq<seq<T>>)
    ensures arr == [] || k <= 0 ==> out == []
    ensures k >= 1 ==> Flatten(out) == arr
    ensures k >= 1 ==> |out| <= k
    ensures k >= 1 ==> forall c :: 0 <= c < |out| ==> 0 < |out[c]| <= ChunkSize(|arr|, k)
    ensures k >= 1 ==> forall c :: 0 <= c < |out| - 1 ==> |out[c]| == ChunkSize(|arr|, k)
  {
    if |arr| == 0 {
      return [];
    }
    var n := |arr|;
    // For k <= 0 JavaScript's `per` is not a positive number; the loop below
    // then does not run, so its value does not matter.
    var per := if k >= 1 then ChunkSize(n, k) else 0;
    out := [];
    var j := 0;
    while j < k
      invariant 0 <= j <= (if k < 0 then 0 else k)
      invariant |out| <= j
      invariant k >= 1 ==> per >= 1
      invariant k >= 1 ==> Flatten(out) == arr[..if j * per < n then j * per else n]
      invariant k >= 1 ==> forall c :: 0 <= c < |out| ==> 0 < |out[c]| <= per
      invariant k >= 1 ==> forall c :: 0 <= c < |out| - 1 ==> |out[c]| == per
      invariant k >= 1 && j * per < n ==> |out| == j && forall c :: 0 <= c < |out| ==> |out[c]| == per
    {
      var s := j * per;
      var e := if n < s + per then n else s + per;
      assert (j + 1) * per == s + per;
      if s < e {
        FlattenSnoc(out, arr[s..e]);
        assert arr[..s] + arr[s..e] == arr[..e];
        out := out + [arr[s..e]];
      }
      j := j + 1;
    }
    if k >= 1 {
      assert k * per >= n;
      assert arr[..n] == arr;
    }
  }

  // ---------------------------------------------------------------------------
  // Reorder buffer

  /** The reorder buffer of one render. Frame messages arrive in any order
      across workers; each is stored under its index and then every buffer
      whose index is the next one expected is queued on the write chain. */
  class DenseSequencer<B> {
    const nSrc: nat
    const lastIndex: int
    var store: map<int, B>
    var nextToWrite: int
    /** The buffers handed to the write chain, in chain order. */
    var queued: seq<B>
    /** Every frame received so far, by index. */
    ghost var received: map<int, B>

    ghost predicate Valid()
      reads this
    {
      && lastIndex == nSrc - 1
      && 0 <= nextToWrite <= nSrc
      && (forall j :: j in received ==> 0 <= j < nSrc)
      && (forall j :: 0 <= j < nextToWrite ==> j in received)
      && nextToWrite !in received
      && (forall j :: j in store <==> j in received && j > nextToWrite)
      && (forall j :: j in store ==> store[j] == received[j])
      && |queued| == nextToWrite
      && (forall j :: 0 <= j < nextToWrite ==> queued[j] == received[j])
    }

    constructor (n: nat)
      ensures Valid()
      ensures nSrc == n && store == map[] && nextToWrite == 0 && queued == [] && received == map[]
    {
      nSrc := n;
      lastIndex := n - 1;
      store := map[];
      nextToWrite := 0;
      queued := [];
      received := map[];
    }

    /** The `frame` message handler for index `i`. */
    method OnFrame(i: int, buf: B)
      requires Valid()
      requires 0 <= i < nSrc && i !in received
      modifies this
      ensures Valid()
      ensures received == old(received)[i := buf]
      ensures old(nextToWrite) <= nextToWrite && old(queued) <= queued
      ensures nextToWrite !in store && forall j :: j in store ==> j > nextToWrite
    {
      store := store[i := buf];
      received := received[i := buf];
      while nextToWrite in store
        invariant 0 <= nextToWrite <= nSrc
        invariant received == old(received)[i := buf]
        invariant forall j :: j in received ==> 0 <= j < nSrc
        invariant forall j :: 0 <= j < nextToWrite ==> j in received
        invariant forall j :: j in store <==> j in received && j >= nextToWrite
        invariant forall j :: j in store ==> store[j] == received[j]
        invariant |queued| == nextToWrite
        invariant forall j :: 0 <= j < nextToWrite ==> queued[j] == received[j]
        invariant old(nextToWrite) <= nextToWrite && old(queued) <= queued
        decreases nSrc - nextToWrite
      {
        var b := store[nextToWrite];
        store := store - {nextToWrite};
        queued := queued + [b];
        nextToWrite := if nextToWrite == lastIndex then lastIndex + 1 else nextToWrite + 1;
      }
    }
  }

  /** Once every index has arrived, everything is queued and the store is empty. */
  lemma Drained<B>(s: DenseSequencer<B>)
    requires s.Valid()
    requires forall j :: 0 <= j < s.nSrc ==> j in s.received
    ensures s.nextToWrite == s.nSrc
    ensures s.store == map[]
    ensures |s.queued| == s.nSrc && forall j :: 0 <= j < s.nSrc ==> s.queued[j] == s.received[j]
  {
    assert s.nextToWrite == s.nSrc;
    assert forall j :: j !in s.store;
    assert s.store.Keys == {};
  }

  /** Feeding the frames of `0..nSrc-1` to the reorder buffer in any order
      queues them in index order, each exactly once. */
  method RunDense<B>(nSrc: nat, arrivals: seq<int>, render: int -> B) returns (queued: seq<B>)
    requires multiset(arrivals) == multiset(Range(nSrc))
    ensures queued == seq(nSrc, j => render(j))
  {
    PermutationOfDistinct(arrivals, Range(nSrc));
    var s := new DenseSequencer<B>(nSrc);
    var t := 0;
    while t < |arrivals|
      invariant 0 <= t <= |arrivals|
      invariant s.Valid() && s.nSrc == nSrc
      invariant s.received.Keys == set u | 0 <= u < t :: arrivals[u]
      invariant forall j :: j in s.received ==> s.received[j] == render(j)
    {
      var i := arrivals[t];
      assert i in Range(nSrc);
      assert i !in s.received;
      s.OnFrame(i, render(i));
      t := t + 1;
    }
    forall j | 0 <= j < nSrc ensures j in s.received {
      assert Range(nSrc)[j] == j;
      assert j in arrivals;
      var u :| 0 <= u < |arrivals| && arrivals[u] == j;
    }
    Drained(s);
    queued := s.queued;
  }

  /** The whole render of one animation: frame count from the metadata,
      the worker count, the chunks, the workers' messages in any order the
      schedule allows, and the reorder buffer. The encoder receives the
      frames `0..nSrc-1` in order. */
  method RenderFrames<B>(meta: LottieMeta, workersIn: Option<int>, cpus: nat,
                         schedule: seq<int>, render: int -> B)
    returns (queued: seq<B>, chunks: seq<seq<int>>)
    ensures 1 <= |chunks| <= WorkerCount(workersIn, cpus, FrameCount(meta)) || (chunks == [] && FrameCount(meta) == 0)
    ensures Flatten(chunks) == Range(FrameCount(meta))
    ensures queued == seq(FrameCount(meta), j => render(j))
  {
    var nSrc := FrameCount(meta);
    var workerCount := WorkerCount(workersIn, cpus, nSrc);
    chunks := ChunkArray(Range(nSrc), workerCount);
    var arrivals := LottieWorker.Merge(chunks, schedule);
    if nSrc > 0 {
      assert |Flatten(chunks)| > 0;
      assert chunks != [];
    }
    queued := RunDense(nSrc, arrivals, render);
  }

  // ---------------------------------------------------------------------------
  // Encoder arguments and binary

  datatype EncoderSettings = EncoderSettings(
    W: int, H: int, FPS: int, preset: string, crf: int, threads: int,
    extra: seq<string>, outPath: string)

  /** `buildFfmpegArgs`: raw RGBA frames of W x H at FPS from standard input,
      no audio, H.264 with the given preset and quality, a keyframe every 12
      seconds of frames, an explicit thread count, then the extra arguments
      and the output path. */
  function BuildFfmpegArgs(o: EncoderSettings): (args: seq<string>)
    ensures |args| == 27 + |o.extra|
    ensures args[..11] == ["-y", "-f", "rawvideo", "-pixel_format", "rgba",
                           "-video_size", IntToString(o.W) + "x" + IntToString(o.H),
                           "-framerate", IntToString(o.FPS), "-i", "pipe:0"]
    ensures args[11..20] == ["-an", "-c:v", "libx264", "-preset", o.preset,
                             "-crf", IntToString(o.crf), "-pix_fmt", "yuv420p"]
    ensures args[20..26] == ["-movflags", "+faststart", "-g", IntToString(12 * o.FPS),
                             "-threads", IntToString(o.threads)]
    ensures args[26..|args| - 1] == o.extra
    ensures args[|args| - 1] == o.outPath
  {
    var size, rate, quality := IntToString(o.W) + "x" + IntToString(o.H), IntToString(o.FPS), IntToString(o.crf);
    var gop, threads := IntToString(12 * o.FPS), IntToString(o.threads);
    var input := ["-y", "-f", "rawvideo", "-pixel_format", "rgba",
                  "-video_size", size, "-framerate", rate, "-i", "pipe:0"];
    var codec := ["-an", "-c:v", "libx264", "-preset", o.preset,
                  "-crf", quality, "-pix_fmt", "yuv420p"];
    var container := ["-movflags", "+faststart", "-g", gop, "-threads", threads];
    var args := input + codec + container + o.extra + [o.outPath];
    assert args[..11] == input;
    assert args[11..20] == codec;
    assert args[20..26] == container;
    assert args[26..|args| - 1] == o.extra;
    args
  }

  /** The numbers in the argument list read back as the settings they came
      from: frame rate, quality, keyframe interval (twelve times the frame
      rate) and thread count. */
  lemma {:induction false} FfmpegNumbersReadBack(o: EncoderSettings)
    ensures ParseInt(BuildFfmpegArgs(o)[8]) == o.FPS
    ensures ParseInt(BuildFfmpegArgs(o)[17]) == o.crf
    ensures ParseInt(BuildFfmpegArgs(o)[23]) == 12 * o.FPS
    ensures ParseInt(BuildFfmpegArgs(o)[25]) == o.threads
  {
    IntRoundTrip(o.FPS);
    IntRoundTrip(o.crf);
    IntRoundTrip(12 * o.FPS);
    IntRoundTrip(o.threads);
  }

  /** The caller-facing options of `renderLottie`; `None` is `undefined`. */
  datatype RenderParams = RenderParams(
    outPath: string, crf: Option<int>, preset: Option<string>,
    threads: Option<int>, extraFfmpegArgs: Option<seq<string>>)

  /** The encoder settings of one render: an empty output path is refused,
      missing options take their defaults (quality 18, preset `veryfast`,
      one encoder thread, no extra arguments), size and rate come from the
      metadata. */
  function EncoderSettingsFor(meta: LottieMeta, p: RenderParams): (r: Result<EncoderSettings, string>)
    ensures r.Failure? <==> p.outPath == ""
    ensures r.Success? ==> r.value.outPath == p.outPath && r.value.FPS == OutputFps(meta)
    ensures r.Success? ==> r.value.W == Dimension(meta.w) && r.value.H == Dimension(meta.h)
    ensures r.Success? ==> r.value.crf == (if p.crf.Some? then p.crf.value else 18)
    ensures r.Success? ==> r.value.preset == (if p.preset.Some? then p.preset.value else "veryfast")
    ensures r.Success? ==> r.value.threads == (if p.threads.Some? then p.threads.value else 1)
    ensures r.Success? ==> r.value.extra == (if p.extraFfmpegArgs.Some? then p.extraFfmpegArgs.value else [])
  {
    if p.outPath == "" then Failure("outPath is required")
    else Success(EncoderSettings(
      Dimension(meta.w), Dimension(meta.h), OutputFps(meta),
      p.preset.GetOr("veryfast"), p.crf.GetOr(18), p.threads.GetOr(1),
      p.extraFfmpegArgs.GetOr([]), p.outPath))
  }

  /** `resolveFfmpegPath`: the environment override, then the system lookup,
      then the bundled binary, then the platform's default name. */
  function ResolveFfmpegPath(env: Option<string>, lookup: string -> SpawnResult,
                             ffmpegStatic: Option<string>, win32: bool): (path: string)
    ensures path == FirstAvailable(
              [TruthyPath(env), SystemCandidate(lookup(LookupCommand(win32))), TruthyPath(ffmpegStatic)],
              DefaultBinary(win32))
  {
    FirstAvailableOfThree(TruthyPath(env), SystemCandidate(lookup(LookupCommand(win32))),
                          TruthyPath(ffmpegStatic), DefaultBinary(win32));
    if env.Some? && env.value != "" then env.value
    else
      var out := lookup(if win32 then "where" else "which");
      var sys := if out.status == Some(0) then FirstNonEmpty(Lines(out.stdout)) else None;
      if sys.Some? then sys.value
      else if ffmpegStatic.Some? && ffmpegStatic.value != "" then ffmpegStatic.value
      else if win32 then "ffmpeg.exe" else "ffmpeg"
  }
}
