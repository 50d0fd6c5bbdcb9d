/** A render worker: it loads the animation, renders the source frames it was
    assigned in the given order, posts one tagged `frame` message per frame
    and finally one `done` message. Also: the order in which the parent sees
    the frame messages of several workers. */
module LottieWorker {
  import opened Wrappers
  import opened SeqUtil

  /** The player's `buffer`: a view of `byteLength` bytes that starts at
      `byteOffset` in an underlying array buffer. */
  datatype PixelView = PixelView(backing: seq<bv8>, byteOffset: nat, byteLength: nat)

  datatype Message = FrameMsg(i: int, ab: seq<bv8>) | DoneMsg

  /** What the worker does, in order: the awaited player events, redraws,
      posted messages and the final teardown. */
  datatype Step =
    | AwaitReady
    | AwaitLoad
    | Resize
    | RenderFrame(i: int)
    | Post(msg: Message)
    | Destroy

  /** `ArrayBuffer.prototype.slice(start, end)` for non-negative bounds: both
      clamped to the length, empty when `end <= start`. */
  function SliceBuffer(b: seq<bv8>, start: nat, end: nat): (r: seq<bv8>)
    ensures end <= |b| && start <= end ==> r == b[start..end]
    ensures |r| <= |b|
  {
    var first := if start < |b| then start else |b|;
    var final := if end < |b| then end else |b|;
    if final <= first then [] else b[first..final]
  }

  /** The bytes copied out of the player for one frame. */
  function Payload(v: PixelView): (p: seq<bv8>)
    ensures v.byteOffset + v.byteLength <= |v.backing| ==>
              p == v.backing[v.byteOffset..v.byteOffset + v.byteLength] && |p| == v.byteLength
  {
    SliceBuffer(v.backing, v.byteOffset, v.byteLength + v.byteOffset)
  }

  /** The messages among the steps, in posting order. */
  function Posted(steps: seq<Step>): seq<Message>
  {
    if |steps| == 0 then []
    else Posted(steps[..|steps| - 1]) +
         (if steps[|steps| - 1].Post? then [steps[|steps| - 1].msg] else [])
  }

  lemma {:induction false} PostedAppend(a: seq<Step>, b: seq<Step>)
    ensures Posted(a + b) == Posted(a) + Posted(b)
  {
    if |b| > 0 {
      assert (a + b)[..|a + b| - 1] == a + b[..|b| - 1];
      PostedAppend(a, b[..|b| - 1]);
    } else {
      assert a + b == a;
    }
  }

  lemma {:induction false} PostedNone(steps: seq<Step>)
    requires forall k :: 0 <= k < |steps| ==> !steps[k].Post?
    ensures Posted(steps) == []
  {
    if |steps| > 0 {
      PostedNone(steps[..|steps| - 1]);
    }
  }

  /** The frame message posted for source index `i`. */
  function FrameMessage(i: int, draw: int -> PixelView): Message
  {
    FrameMsg(i, Payload(draw(i)))
  }

  /** The worker body. `draw(i)` is the player's buffer after it has been set
      to frame `i` and has signalled the redraw. */
  method RunWorker(indices: seq<int>, draw: int -> PixelView) returns (steps: seq<Step>)
    ensures |steps| == 2 * |indices| + 5
    ensures steps[..3] == [AwaitReady, AwaitLoad, Resize]
    ensures forall j :: 0 <= j < |indices| ==>
              steps[3 + 2 * j] == RenderFrame(indices[j]) &&
              steps[4 + 2 * j] == Post(FrameMessage(indices[j], draw))
    ensures steps[|steps| - 2] == Destroy && steps[|steps| - 1] == Post(DoneMsg)
    ensures Posted(steps) == seq(|indices|, j requires 0 <= j < |indices| => FrameMessage(indices[j], draw)) + [DoneMsg]
  {
    steps := [AwaitReady, AwaitLoad, Resize];
    ghost var posted: seq<Message> := [];
    PostedNone(steps);
    for j := 0 to |indices|
      invariant |steps| == 2 * j + 3
      invariant steps[..3] == [AwaitReady, AwaitLoad, Resize]
      invariant forall m :: 0 <= m < j ==>
                  steps[3 + 2 * m] == RenderFrame(indices[m]) &&
                  steps[4 + 2 * m] == Post(FrameMessage(indices[m], draw))
      invariant Posted(steps) == seq(j, m requires 0 <= m < j => FrameMessage(indices[m], draw))
    {
      var i := indices[j];
      var ab := Payload(draw(i));
      PostedAppend(steps, [RenderFrame(i), Post(FrameMsg(i, ab))]);
      assert Posted([RenderFrame(i), Post(FrameMsg(i, ab))]) == [FrameMsg(i, ab)] by {
        assert [RenderFrame(i), Post(FrameMsg(i, ab))][..1] == [RenderFrame(i)];
        PostedNone([RenderFrame(i)]);
      }
      steps := steps + [RenderFrame(i), Post(FrameMsg(i, ab))];
    }
    PostedAppend(steps, [Destroy, Post(DoneMsg)]);
    assert Posted([Destroy, Post(DoneMsg)]) == [DoneMsg] by {
      assert [Destroy, Post(DoneMsg)][..1] == [Destroy];
      PostedNone([Destroy]);
    }
    steps := steps + [Destroy, Post(DoneMsg)];
  }

  /** The order in which the parent receives the messages of several workers.
      `schedule` names the worker whose next message arrives next (a name of
      a finished worker or out of range is skipped); once it runs out, the rest
      arrives worker by worker. Whatever the schedule, the parent receives
      every message of every worker exactly once, and nothing else. */
  function Merge<T>(streams: seq<seq<T>>, schedule: seq<int>): (r: seq<T>)
    ensures multiset(r) == multiset(Flatten(streams))
    decreases |schedule|
  {
    if |schedule| == 0 then Flatten(streams)
    else
      var w := schedule[0];
      if 0 <= w < |streams| && |streams[w]| > 0 then
        TakeHeadMultiset(streams, w);
        [streams[w][0]] + Merge(streams[w := streams[w][1..]], schedule[1..])
      else
        Merge(streams, schedule[1..])
  }

  /** Taking the head of one worker's stream removes exactly that message. */
  lemma TakeHeadMultiset<T>(streams: seq<seq<T>>, w: nat)
    requires w < |streams| && |streams[w]| > 0
    ensures multiset(Flatten(streams[w := streams[w][1..]])) + multiset{streams[w][0]}
            == multiset(Flatten(streams))
  {
    var s, t := streams[w], streams[w][1..];
    FlattenUpdateMultiset(streams, w, t);
    assert multiset(s) == multiset{s[0]} + multiset(t) by {
      assert s == [s[0]] + t;
    }
    var a, c := multiset(Flatten(streams[w := t])), multiset(Flatten(streams));
    MultisetCancel(a + multiset{s[0]}, c, multiset(t));
  }

  /** What the main thread hands a worker when it creates it: the path of
      the animation file, `None` when the key is missing, and the source
      indices to render. */
  datatype WorkerData = WorkerData(dataPath: Option<string>, indices: seq<int>)

  /** The source indices of the frame messages among `msgs`, in order. */
  function FrameIndices(msgs: seq<Message>): seq<int>
  {
    if |msgs| == 0 then []
    else (if msgs[0].FrameMsg? then [msgs[0].i] else []) + FrameIndices(msgs[1..])
  }

  /** The frame messages of the worker body for `indices`, in order. */
  function FrameMessages(indices: seq<int>, draw: int -> PixelView): seq<Message>
  {
    seq(|indices|, j requires 0 <= j < |indices| => FrameMessage(indices[j], draw))
  }

  /** The source indices a started worker sends frames for: its own indices
      in its own order when it can read the animation, none when it has no
      path to read. */
  function WorkerFrames(data: WorkerData): (f: seq<int>)
    ensures data.dataPath.Some? ==> f == data.indices
    ensures data.dataPath.None? ==> f == []
  {
    if data.dataPath.Some? then data.indices else []
  }

  /** The frame messages of one worker body carry exactly its indices, in
      order; the final `done` message carries none. */
  lemma {:induction false} FrameIndicesOfRun(indices: seq<int>, draw: int -> PixelView)
    ensures FrameIndices(FrameMessages(indices, draw) + [DoneMsg]) == indices
  {
    var m := FrameMessages(indices, draw) + [DoneMsg];
    if |indices| == 0 {
      assert m == [DoneMsg];
      assert m[1..] == [];
    } else {
      assert m[1..] == FrameMessages(indices[1..], draw) + [DoneMsg];
      FrameIndicesOfRun(indices[1..], draw);
      assert indices == [indices[0]] + indices[1..];
    }
  }

  /** A worker started with `data`. The file is read first: without a path
      the read throws before anything is posted and the worker ends with an
      uncaught error, which its `error` event reports to the main thread.
      With a path, the worker body runs on its indices, and the frames it
      posts are those `WorkerFrames` names. */
  method StartWorker(data: WorkerData, draw: int -> PixelView) returns (steps: seq<Step>, failed: bool)
    ensures failed <==> data.dataPath.None?
    ensures failed ==> steps == []
    ensures !failed ==> Posted(steps) == FrameMessages(data.indices, draw) + [DoneMsg]
    ensures FrameIndices(Posted(steps)) == WorkerFrames(data)
  {
    if data.dataPath.None? {
      return [], true;
    }
    steps := RunWorker(data.indices, draw);
    failed := false;
    assert Posted(steps) == FrameMessages(data.indices, draw) + [DoneMsg];
    FrameIndicesOfRun(data.indices, draw);
  }
}
