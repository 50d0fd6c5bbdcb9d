/** Where the encoder binary comes from. Each renderer tries a fixed list of
    candidates in order and takes the first one that is available. */
module FfmpegBinary {
  import opened Wrappers
  import opened JsSemantics

  /** The outcome of running the platform's lookup command on `ffmpeg`:
      the exit status (`null` when the process could not run) and its output. */
  datatype SpawnResult = SpawnResult(status: Option<int>, stdout: string)

  /** The lookup command of the platform. */
  function LookupCommand(win32: bool): string
  {
    if win32 then "where" else "which"
  }

  /** The name tried when nothing else is available. */
  function DefaultBinary(win32: bool): string
  {
    if win32 then "ffmpeg.exe" else "ffmpeg"
  }

  /** A path that is used only when it is truthy: both
      `process.env.FFMPEG_PATH` and the path exported by `ffmpeg-static` are
      checked this way, so an unset or empty one is skipped. */
  function TruthyPath(v: Option<string>): (c: Option<string>)
    ensures c.Some? <==> v.Some? && v.value != ""
    ensures c.Some? ==> c.value == v.value
  {
    if v.Some? && v.value != "" then v else None
  }

  /** The first non-empty line printed by a lookup that exited with status 0. */
  function SystemCandidate(lookup: SpawnResult): (c: Option<string>)
    ensures c.Some? ==> lookup.status == Some(0) && c.value != "" && '\n' !in c.value
    ensures c.Some? ==> c.value in Lines(lookup.stdout)
    ensures lookup.status != Some(0) ==> c.None?
  {
    if lookup.status == Some(0) then FirstNonEmpty(Lines(lookup.stdout)) else None
  }

  /** The reference definition of a resolution order: the first candidate
      present, otherwise the fallback. */
  function FirstAvailable(candidates: seq<Option<string>>, fallback: string): (r: string)
    ensures r == fallback || exists j :: 0 <= j < |candidates| && candidates[j] == Some(r)
    ensures (forall j :: 0 <= j < |candidates| ==> candidates[j].None?) ==> r == fallback
  {
    if |candidates| == 0 then fallback
    else if candidates[0].Some? then candidates[0].value
    else FirstAvailable(candidates[1..], fallback)
  }

  lemma {:induction false} FirstAvailableIsFirst(candidates: seq<Option<string>>, fallback: string, k: nat)
    requires k < |candidates| && candidates[k].Some?
    requires forall j :: 0 <= j < k ==> candidates[j].None?
    ensures FirstAvailable(candidates, fallback) == candidates[k].value
  {
    if k > 0 {
      FirstAvailableIsFirst(candidates[1..], fallback, k - 1);
    }
  }

  lemma FirstAvailableOfThree(a: Option<string>, b: Option<string>, c: Option<string>, fallback: string)
    ensures FirstAvailable([a, b, c], fallback) ==
            if a.Some? then a.value else if b.Some? then b.value else if c.Some? then c.value else fallback
  {
    assert [a, b, c][1..] == [b, c];
    assert [b, c][1..] == [c];
    assert [c][1..] == [];
    assert FirstAvailable([a, b, c], fallback) == if a.Some? then a.value else FirstAvailable([b, c], fallback);
    assert FirstAvailable([b, c], fallback) == if b.Some? then b.value else FirstAvailable([c], fallback);
    assert FirstAvailable([c], fallback) == if c.Some? then c.value else FirstAvailable([], fallback);
  }
}
