/** The resampling renderer: a frame plan that maps the source frame rate
    onto the output rate by repeating or dropping source frames, the list of
    source frames to render, an even split of that list over the workers, a
    reorder buffer that writes each rendered frame as many times as the plan
    says, strictly in source order, and the encoder arguments. */
module LottieToVideoParallel {
  import opened Wrappers
  import opened SeqUtil
  import opened JsSemantics
  import LottieWorker
  import RenderLottie

  // ---------------------------------------------------------------------------
  // Frame rates

  /** The source rate: the rate the probe reports, or else its frame count
      over its duration, the duration kept at one microsecond at least. */
  function SourceFps(probeFps: Option<real>, totalFrames: real, duration: real): (r: real)
    ensures probeFps.Some? ==> r == probeFps.value
    ensures probeFps.None? ==> r * (if duration > 0.000001 then duration else 0.000001) == totalFrames
    ensures probeFps.None? && totalFrames >= 0.0 ==> r >= 0.0
  {
    if probeFps.Some? then probeFps.value
    else totalFrames / (if duration > 0.000001 then duration else 0.000001)
  }

  /** The output rate: the option when given, else the source rate rounded. */
  function OutputFps(fps: Option<int>, srcFps: real): (r: int)
    ensures fps.Some? ==> r == fps.value
    ensures fps.None? ==> r as real - 0.5 <= srcFps < r as real + 0.5
  {
    if fps.Some? then fps.value else Round(srcFps)
  }

  /** `FPS / srcFps` as a JavaScript division: a finite quotient for a
      non-zero source rate, an infinity of the sign of `FPS` or `NaN` for a
      zero one. */
  function Ratio(fps: int, srcFps: real): (r: JsNumber)
    ensures r.Finite? <==> srcFps != 0.0
    ensures r.Finite? ==> r.value * srcFps == fps as real
    ensures r.PosInfinity? <==> srcFps == 0.0 && fps > 0
    ensures r.NegInfinity? <==> srcFps == 0.0 && fps < 0
  {
    if srcFps != 0.0 then Finite(fps as real / srcFps)
    else if fps > 0 then PosInfinity
    else if fps < 0 then NegInfinity
    else NaN
  }

  // ---------------------------------------------------------------------------
  // The frame plan

  /** The repeat count of source frame `k`: the rounded output position of
      its end minus that of its start, at least 0, stored in a 16-bit
      unsigned array and so taken modulo 2^16. A non-finite ratio makes one of the two
      products or their difference `NaN`, which the array stores as 0. */
  function RepeatAt(k: int, ratio: JsNumber): (rep: nat)
    ensures rep < 0x1_0000
  {
    if ratio.Finite? then
      var d := Step(k, ratio.value);
      ToUint16(if d < 0 then 0 else d)
    else 0
  }

  /** The rounded output position of source position `k`. */
  function Position(k: int, r: real): int
  {
    Round(k as real * r)
  }

  /** The difference of the rounded output positions of frame `k`'s end
      and start. It lies strictly between `r - 1` and `r + 1`, and it is
      never negative for a frame `0 <= k` and a ratio `0 <= r`. */
  function Step(k: int, r: real): (s: int)
    ensures r - 1.0 < s as real < r + 1.0
    ensures 0 <= k && 0.0 <= r ==> 0 <= s
  {
    ShiftProduct(k, r);
    if 0 <= k && 0.0 <= r then
      RoundMonotone(k as real * r, (k + 1) as real * r);
      Position(k + 1, r) - Position(k, r)
    else
      Position(k + 1, r) - Position(k, r)
  }

  lemma ShiftProduct(k: int, r: real)
    ensures (k + 1) as real * r == k as real * r + r
  {
  }

  /** The whole plan for `nSrc` source frames: one count per frame, each
      below 2^16 as `RepeatAt` guarantees. */
  function Plan(nSrc: nat, ratio: JsNumber): (p: seq<nat>)
    ensures |p| == nSrc
  {
    seq(nSrc, k => RepeatAt(k, ratio))
  }

  /** The plan as the source computes it: a fresh zero-filled `Uint16Array`
      written one slot at a time. */
  method ComputeRepeats(nSrc: nat, ratio: JsNumber) returns (repeats: array<nat>)
    ensures fresh(repeats)
    ensures repeats[..] == Plan(nSrc, ratio)
  {
    repeats := new nat[nSrc](_ => 0);
    var k := 0;
    while k < nSrc
      invariant 0 <= k <= nSrc
      invariant forall j :: 0 <= j < k ==> repeats[j] == RepeatAt(j, ratio)
    {
      repeats[k] := RepeatAt(k, ratio);
      k := k + 1;
    }
  }

  lemma RoundMonotone(x: real, y: real)
    requires x <= y
    ensures Round(x) <= Round(y)
  {
  }

  /** Below the wrap-around, the slot of a non-negative ratio holds the
      difference of the rounded positions itself. */
  lemma PlanStep(k: nat, r: real)
    requires 0.0 <= r <= 65535.0
    ensures RepeatAt(k, Finite(r)) == Step(k, r)
  {
    assert Step(k, r) as real < 65536.0;
  }

  /** Without wrap-around, the plan telescopes: the number of output frames
      is the rounded product of the source frame count and the ratio. */
  lemma {:induction false} PlanSum(nSrc: nat, r: real)
    requires 0.0 <= r <= 65535.0
    ensures Sum(Plan(nSrc, Finite(r))) == Round(nSrc as real * r)
  {
    var p := Plan(nSrc, Finite(r));
    if nSrc > 0 {
      var n := nSrc - 1;
      PlanPrefix(n, Finite(r));
      PlanSum(n, r);
      PlanStep(n, r);
      assert p[n] == Position(nSrc, r) - Position(n, r);
    } else {
      assert Sum(p) == 0;
    }
  }

  lemma PlanPrefix(n: nat, ratio: JsNumber)
    ensures Plan(n + 1, ratio)[..n] == Plan(n, ratio)
  {
  }

  /** A ratio that is not a positive number renders nothing. */
  lemma NonPositiveRatioRendersNothing(nSrc: nat, ratio: JsNumber)
    requires !ratio.Finite? || ratio.value <= 0.0
    ensures forall k :: 0 <= k < nSrc ==> Plan(nSrc, ratio)[k] == 0
  {
    forall k | 0 <= k < nSrc ensures Plan(nSrc, ratio)[k] == 0 {
      if ratio.Finite? {
        var r := ratio.value;
        assert (k + 1) as real * r == k as real * r + r;
        RoundMonotone((k + 1) as real * r, k as real * r);
      }
    }
  }

  /** Down-sampling (`0 <= ratio <= 1`) writes each source frame at most once. */
  lemma DownsamplingWritesAtMostOnce(nSrc: nat, r: real)
    requires 0.0 <= r <= 1.0
    ensures forall k :: 0 <= k < nSrc ==> Plan(nSrc, Finite(r))[k] <= 1
  {
    forall k | 0 <= k < nSrc ensures Plan(nSrc, Finite(r))[k] <= 1 {
        assert Step(k, r) as real < 2.0;
    }
  }

  /** Up-sampling (`1 <= ratio`, below the wrap-around) writes every source
      frame at least once, so every source frame is rendered. */
  lemma UpsamplingWritesEveryFrame(nSrc: nat, r: real)
    requires 1.0 <= r <= 65535.0
    ensures forall k :: 0 <= k < nSrc ==> Plan(nSrc, Finite(r))[k] >= 1
  {
    forall k | 0 <= k < nSrc ensures Plan(nSrc, Finite(r))[k] >= 1 {
      PlanStep(k, r);
        assert 0.0 < Step(k, r) as real;
    }
  }

  /** A whole-number ratio `m` writes every source frame exactly `m` times. */
  lemma WholeRatioRepeatsEvenly(nSrc: nat, r: real, m: nat)
    requires m < 0x1_0000 && r == m as real
    ensures forall k :: 0 <= k < nSrc ==> Plan(nSrc, Finite(r))[k] == m
  {
    forall k | 0 <= k < nSrc ensures Plan(nSrc, Finite(r))[k] == m {
      assert (k + 1) as real * m as real == ((k + 1) * m) as real;
      assert k as real * m as real == (k * m) as real;
      assert (k + 1) * m - k * m == m;
    }
  }

  /** The `Uint16Array` keeps a step of 65536 frames as 0. */
  lemma RepeatWrapsAt65536()
    ensures RepeatAt(0, Finite(65536.0)) == 0
  {
    assert Round(65536.0) == 65536;
    assert Round(0.0) == 0;
  }

  /** Ten source frames at half the rate: every other frame is kept, the
      first one included, since a half is rounded up. */
  lemma HalfRatePlan()
    ensures Plan(10, Finite(0.5)) == [1, 0, 1, 0, 1, 0, 1, 0, 1, 0]
  {
    forall k | 0 <= k < 10 ensures RepeatAt(k, Finite(0.5)) == if k % 2 == 0 then 1 else 0 {
      assert Round((k + 1) as real * 0.5) == (k + 2) / 2;
      assert Round(k as real * 0.5) == (k + 1) / 2;
    }
  }

  /** Two source frames at two and a half times the rate: three copies of
      the first, two of the second. */
  lemma FiveHalvesPlan()
    ensures Plan(2, Finite(2.5)) == [3, 2]
  {
    assert Round(2.5) == 3 && Round(5.0) == 5 && Round(0.0) == 0;
    assert RepeatAt(0, Finite(2.5)) == 3;
    assert RepeatAt(1, Finite(2.5)) == 2;
  }

  // ---------------------------------------------------------------------------
  // Frames to render

  /** The number of source frames with a positive repeat count: those that
      appear in the output. */
  function CountPositive(rep: seq<nat>): nat
  {
    if |rep| == 0 then 0
    else CountPositive(rep[..|rep| - 1]) + (if rep[|rep| - 1] > 0 then 1 else 0)
  }

  /** The indices `k` with `repeats[k] > 0`, ascending. */
  function SrcList(rep: seq<nat>): (l: seq<int>)
    ensures forall j :: 0 <= j < |l| ==> 0 <= l[j] < |rep|
  {
    if |rep| == 0 then []
    else SrcList(rep[..|rep| - 1]) + (if rep[|rep| - 1] > 0 then [|rep| - 1] else [])
  }

  /** The frames to render are exactly the source frames the plan writes, in
      ascending order, and there are as many of them as the plan counts. */
  lemma SrcListIsPositiveIndices(rep: seq<nat>)
    ensures StrictlyAscending(SrcList(rep))
    ensures forall k :: k in SrcList(rep) <==> 0 <= k < |rep| && rep[k] > 0
    ensures |SrcList(rep)| == CountPositive(rep)
  {
    SrcListAscending(rep);
    SrcListMembers(rep);
    SrcListCount(rep);
  }

  lemma {:induction false} SrcListAscending(rep: seq<nat>)
    ensures StrictlyAscending(SrcList(rep))
  {
    if |rep| > 0 {
      var n := |rep| - 1;
      SrcListAscending(rep[..n]);
      var l0 := SrcList(rep[..n]);
      assert forall j :: 0 <= j < |l0| ==> l0[j] < n;
    }
  }

  lemma {:induction false} SrcListMembers(rep: seq<nat>)
    ensures forall k :: k in SrcList(rep) <==> 0 <= k < |rep| && rep[k] > 0
  {
    if |rep| > 0 {
      var n := |rep| - 1;
      var init := rep[..n];
      SrcListMembers(init);
      var l0, last := SrcList(init), if rep[n] > 0 then [n] else [];
      assert SrcList(rep) == l0 + last;
      forall k ensures k in SrcList(rep) <==> 0 <= k < |rep| && rep[k] > 0 {
        assert k in l0 + last <==> k in l0 || k in last;
        if 0 <= k < n {
          assert init[k] == rep[k];
        }
      }
    }
  }

  lemma {:induction false} SrcListCount(rep: seq<nat>)
    ensures |SrcList(rep)| == CountPositive(rep)
  {
    if |rep| > 0 {
      SrcListCount(rep[..|rep| - 1]);
    }
  }

  /** The loop that collects `srcList`. */
  method BuildSrcList(repeats: array<nat>) returns (srcList: seq<int>)
    ensures srcList == SrcList(repeats[..])
  {
    srcList := [];
    var k := 0;
    while k < repeats.Length
      invariant 0 <= k <= repeats.Length
      invariant srcList == SrcList(repeats[..k])
    {
      assert repeats[..k + 1][..k] == repeats[..k];
      if repeats[k] > 0 {
        srcList := srcList + [k];
      }
      k := k + 1;
    }
    assert repeats[..repeats.Length] == repeats[..];
  }

  /** The reference output: source frame `k` rendered and written
      `rep[k]` times, for `k` ascending. */
  function Timeline<B>(rep: seq<nat>, render: int -> B): seq<B>
  {
    if |rep| == 0 then []
    else Timeline(rep[..|rep| - 1], render) + Repeat(render(|rep| - 1), rep[|rep| - 1])
  }

  /** The output has as many frames as the plan's total. */
  lemma {:induction false} TimelineLength<B>(rep: seq<nat>, render: int -> B)
    ensures |Timeline(rep, render)| == Sum(rep)
  {
    if |rep| > 0 {
      TimelineLength(rep[..|rep| - 1], render);
    }
  }

  /** The frames written for a list of source indices: `frames[k]`
      written `rep[k]` times for each `k` of the list in turn. */
  function Expand<B>(list: seq<int>, frames: map<int, B>, rep: seq<nat>): seq<B>
    requires forall j :: 0 <= j < |list| ==> list[j] in frames && 0 <= list[j] < |rep|
  {
    if |list| == 0 then []
    else
      var k := list[|list| - 1];
      Expand(list[..|list| - 1], frames, rep) + Repeat(frames[k], rep[k])
  }

  lemma {:induction false} ExpandSameCounts<B>(list: seq<int>, frames: map<int, B>, rep: seq<nat>, rep': seq<nat>)
    requires forall j :: 0 <= j < |list| ==> list[j] in frames && 0 <= list[j] < |rep| && list[j] < |rep'|
    requires forall j :: 0 <= j < |list| ==> rep[list[j]] == rep'[list[j]]
    ensures Expand(list, frames, rep) == Expand(list, frames, rep')
  {
    if |list| > 0 {
      ExpandSameCounts(list[..|list| - 1], frames, rep, rep');
    }
  }

  /** Writing the rendered frames of `srcList` by the plan gives the
      reference output: dropping the frames with no repeat loses nothing. */
  lemma {:induction false} ExpandIsTimeline<B>(rep: seq<nat>, frames: map<int, B>, render: int -> B)
    requires forall k :: k in SrcList(rep) ==> k in frames && frames[k] == render(k)
    ensures Expand(SrcList(rep), frames, rep) == Timeline(rep, render)
  {
    if |rep| > 0 {
      var n := |rep| - 1;
      var init := rep[..n];
      var l, l0 := SrcList(rep), SrcList(init);
      assert l == l0 + (if rep[n] > 0 then [n] else []);
      ExpandIsTimeline(init, frames, render);
      ExpandSameCounts(l0, frames, init, rep);
      ExpandSnoc(l0, frames, rep, n);
    }
  }

  /** One more index at the end of the list adds its repeated frame. */
  lemma ExpandSnoc<B>(l0: seq<int>, frames: map<int, B>, rep: seq<nat>, n: int)
    requires forall j :: 0 <= j < |l0| ==> l0[j] in frames && 0 <= l0[j] < |rep|
    requires 0 <= n < |rep| && (rep[n] > 0 ==> n in frames)
    ensures var l := l0 + (if rep[n] > 0 then [n] else []);
      Expand(l, frames, rep) == Expand(l0, frames, rep) + (if rep[n] > 0 then Repeat(frames[n], rep[n]) else [])
  {
    var l := l0 + (if rep[n] > 0 then [n] else []);
    if rep[n] > 0 {
      assert l[..|l| - 1] == l0;
    } else {
      assert l == l0;
    }
  }

  // ---------------------------------------------------------------------------
  // Work split

  /** The default worker count: one core is left to the main thread, at
      most eight workers, at least one. */
  function DefaultWorkers(cpus: int): (w: int)
    ensures 1 <= w <= 8
    ensures 1 <= cpus - 1 <= 8 ==> w == cpus - 1
    ensures cpus - 1 < 1 ==> w == 1
    ensures cpus - 1 > 8 ==> w == 8
  {
    var m := if cpus - 1 < 8 then cpus - 1 else 8;
    if m < 1 then 1 else m
  }

  /** The chunk count: the worker count, but never more chunks than frames
      to render, and one chunk when there is nothing to render. */
  function ChunkCount(workers: int, n: nat): (k: int)
    ensures k <= workers
    ensures workers >= 1 ==> 1 <= k && (k <= n || (n == 0 && k == 1))
    ensures workers <= 0 ==> k == workers
    ensures workers >= 1 ==> k == workers || k == (if n > 0 then n else 1)
  {
    var cap := if n > 0 then n else 1;
    if workers < cap then workers else cap
  }

  /** The service renderer sizes its pool like this renderer: a requested
      count of one or more, or the default for the cores, capped by the
      frames to render. */
  lemma WorkerCountMatchesChunkCount(workers: Option<int>, cpus: nat, n: nat)
    requires workers.None? || workers.value >= 1
    ensures RenderLottie.WorkerCount(workers, cpus, n) == ChunkCount(workers.GetOr(DefaultWorkers(cpus)), n)
  {
  }

  /** The length of slice `i` of `splitEven` over `n` elements and `k`
      slices: `Math.floor(n / k)`, plus one for the first `n % k` slices. */
  function SliceLength(n: nat, k: int, i: int): nat
    requires k >= 1
  {
    n / k + (if i < n % k then 1 else 0)
  }

  /** Where slice `i` starts: the lengths of the slices before it. */
  function SliceStart(n: nat, k: int, i: nat): nat
    requires k >= 1
  {
    if i == 0 then 0 else SliceStart(n, k, i - 1) + SliceLength(n, k, i - 1)
  }

  /** Closed form of `SliceStart`: `i` full base-length slices plus one
      extra element for each of the first `n % k` slices passed. */
  lemma {:induction false} SliceStartClosed(n: nat, k: int, i: nat)
    requires k >= 1
    ensures SliceStart(n, k, i) == i * (n / k) + (if i < n % k then i else n % k)
  {
    if i > 0 {
      SliceStartClosed(n, k, i - 1);
      MulStep(i, n / k);
    }
  }

  lemma MulStep(i: int, q: int)
    ensures i * q == (i - 1) * q + q
  {
  }

  /** Every slice start lies inside the array, and after the last slice the
      whole array is covered. */
  lemma SliceStartBounds(n: nat, k: int, i: nat)
    requires k >= 1 && i <= k
    ensures SliceStart(n, k, i) <= n
    ensures i == k ==> SliceStart(n, k, i) == n
  {
    var q, r := n / k, n % k;
    SliceStartClosed(n, k, i);
    assert n == k * q + r;
    MulMonotone(i, k, q);
  }

  /** Slice lengths never grow and differ by at most one. */
  lemma SliceLengthsBalanced(n: nat, k: int, i: int, j: int)
    requires k >= 1 && i <= j
    ensures SliceLength(n, k, j) <= SliceLength(n, k, i) <= SliceLength(n, k, j) + 1
  {
  }

  lemma MulMonotone(a: int, b: int, c: int)
    requires a <= b && c >= 0
    ensures a * c <= b * c
  {
  }

  /** Appending the next slice extends the covered prefix by that slice. */
  lemma AppendSlice<T>(arr: seq<T>, res: seq<seq<T>>, s: nat, len: nat)
    requires s + len <= |arr| && Flatten(res) == arr[..s]
    ensures Flatten(res + [arr[s..s + len]]) == arr[..s + len]
  {
    FlattenSnoc(res, arr[s..s + len]);
    assert arr[..s] + arr[s..s + len] == arr[..s + len];
  }

  /** `splitEven(arr, k)`: `k` consecutive slices whose lengths differ by at
      most one, the longer ones first. With nothing to split it gives `k`
      empty slices; a `k` below 1 gives no slices at all. */
  method SplitEven<T>(arr: seq<T>, k: int) returns (res: seq<seq<T>>)
    ensures k <= 0 ==> res == []
    ensures k >= 1 ==> |res| == k && Flatten(res) == arr
    ensures k >= 1 ==> forall i :: 0 <= i < k ==> |res[i]| == SliceLength(|arr|, k, i)
  {
    var n := |arr|;
    if n == 0 {
      res := seq(if k < 0 then 0 else k, _ => []);
      FlattenAllEmpty(res);
      return;
    }
    if k <= 0 {
      // JavaScript's quotient and remainder are then not integers, and the
      // slicing loop does not run.
      return [];
    }
    var base, rem := n / k, n % k;
    res := [];
    var s := 0;
    var i := 0;
    while i < k
      invariant 0 <= i <= k
      invariant |res| == i
      invariant s == SliceStart(n, k, i) <= n
      invariant Flatten(res) == arr[..s]
      invariant forall c :: 0 <= c < i ==> |res[c]| == SliceLength(n, k, c)
    {
      var len := base + (if i < rem then 1 else 0);
      assert len == SliceLength(n, k, i);
      SliceStartBounds(n, k, i + 1);
      AppendSlice(arr, res, s, len);
      res := res + [arr[s..s + len]];
      s := s + len;
      i := i + 1;
    }
    SliceStartBounds(n, k, k);
    assert arr[..n] == arr;
  }

  // ---------------------------------------------------------------------------
  // Reorder buffer

  /** `list.indexOf(x)`: the first position of `x`, or -1. */
  function IndexOf(list: seq<int>, x: int): (r: int)
    ensures -1 <= r < |list|
    ensures r == -1 <==> x !in list
    ensures r >= 0 ==> list[r] == x && x !in list[..r]
  {
    if |list| == 0 then -1
    else if list[0] == x then 0
    else
      var t := IndexOf(list[1..], x);
      assert list[1..][..t + 1] == list[1..t + 2] by { if t >= 0 { } }
      if t == -1 then -1 else t + 1
  }

  /** `nextInList(list, cur)`: the element after `cur`, or `cur + 1` when
      `cur` is the last element or absent. */
  function NextInList(list: seq<int>, cur: int): (r: int)
    ensures cur !in list ==> r == cur + 1
    ensures forall p :: 0 <= p < |list| && list[p] == cur && cur !in list[..p] ==>
              r == (if p + 1 < |list| then list[p + 1] else cur + 1)
  {
    var idx := IndexOf(list, cur);
    if idx >= 0 && idx + 1 < |list| then list[idx + 1] else cur + 1
  }

  /** On an ascending list, `nextInList` steps to the following element. */
  lemma NextInListSteps(list: seq<int>, p: nat)
    requires StrictlyAscending(list)
    requires p < |list|
    ensures p + 1 < |list| ==> NextInList(list, list[p]) == list[p + 1]
    ensures p + 1 == |list| ==> NextInList(list, list[p]) == list[p] + 1
  {
    var idx := IndexOf(list, list[p]);
    assert idx == p;
  }

  /** The source index expected next once `pos` frames of `srcList` have
      been written: the next element, or one past the last. */
  function Expected(srcList: seq<int>, pos: nat): int
  {
    if pos < |srcList| then srcList[pos]
    else if |srcList| == 0 then 0
    else srcList[|srcList| - 1] + 1
  }

  /** On an ascending list, the elements above one element start at the
      following element. */
  lemma AscendingAbove(list: seq<int>, p: nat, x: int)
    requires StrictlyAscending(list)
    requires p < |list| && x in list && x > list[p]
    ensures p + 1 < |list| && x >= list[p + 1]
  {
    var q :| 0 <= q < |list| && list[q] == x;
    assert q > p;
  }

  /** A frame not yet received on an ascending list lies at or after the
      expected index. */
  lemma NotYetWritten<B>(list: seq<int>, pos: nat, received: map<int, B>, i: int)
    requires StrictlyAscending(list) && pos <= |list|
    requires forall j :: 0 <= j < pos ==> list[j] in received
    requires i in list && i !in received
    ensures pos < |list| && i >= list[pos]
  {
    var q :| 0 <= q < |list| && list[q] == i;
    assert q >= pos;
  }

  /** Every element of an ascending list lies below the index expected once
      the whole list has been written. */
  lemma BelowEnd(list: seq<int>, k: int)
    requires StrictlyAscending(list) && k in list
    ensures k < Expected(list, |list|)
  {
    var q :| 0 <= q < |list| && list[q] == k;
    assert q == |list| - 1 || list[q] < list[|list| - 1];
  }

  /** On an ascending list, the received frames above the expected one
      are the received frames at or after the next expected index. */
  lemma AboveExpected<B>(list: seq<int>, pos: nat, received: map<int, B>, k: int)
    requires StrictlyAscending(list) && pos < |list|
    requires k in received ==> k in list
    ensures (k in received && k > list[pos]) <==> (k in received && k >= Expected(list, pos + 1))
  {
    if k in received && k > list[pos] {
      AscendingAbove(list, pos, k);
    }
    if k in received && k >= Expected(list, pos + 1) && pos + 1 < |list| {
      assert list[pos] < list[pos + 1];
    }
  }

  /** Frames that agree on the listed indices give the same output. */
  lemma {:induction false} ExpandSameFrames<B>(list: seq<int>, frames: map<int, B>, frames': map<int, B>, rep: seq<nat>)
    requires forall j :: 0 <= j < |list| ==> list[j] in frames && list[j] in frames' && 0 <= list[j] < |rep|
    requires forall j :: 0 <= j < |list| ==> frames[list[j]] == frames'[list[j]]
    ensures Expand(list, frames, rep) == Expand(list, frames', rep)
  {
    if |list| > 0 {
      ExpandSameFrames(list[..|list| - 1], frames, frames', rep);
    }
  }

  /** The reorder buffer's progress through `srcList`: the first `pos`
      frames of the list are written by the plan, `next` is the index
      expected next, and the received frames not yet written are stored. */
  ghost predicate Progress<B>(srcList: seq<int>, repeats: seq<nat>, pos: nat, next: int,
                              received: map<int, B>, store: map<int, B>, sink: seq<B>)
  {
    && StrictlyAscending(srcList)
    && (forall j :: 0 <= j < |srcList| ==> 0 <= srcList[j] < |repeats|)
    && pos <= |srcList|
    && next == Expected(srcList, pos)
    && (forall k :: k in received ==> k in srcList)
    && (forall j :: 0 <= j < pos ==> srcList[j] in received)
    && (forall k :: k in store <==> k in received && k >= next)
    && (forall k :: k in store ==> store[k] == received[k])
    && sink == Expand(srcList[..pos], received, repeats)
  }

  /** Storing a frame that has not arrived before keeps the progress. */
  lemma ReceiveStep<B>(srcList: seq<int>, repeats: seq<nat>, pos: nat,
                       received: map<int, B>, store: map<int, B>, sink: seq<B>, i: int, buf: B)
    requires Progress(srcList, repeats, pos, Expected(srcList, pos), received, store, sink)
    requires i in srcList && i !in received
    ensures Progress(srcList, repeats, pos, Expected(srcList, pos), received[i := buf], store[i := buf], sink)
  {
    NotYetWritten(srcList, pos, received, i);
    ExpandSameFrames(srcList[..pos], received, received[i := buf], repeats);
  }

  /** A stored frame at the expected index means the list is not yet
      finished. */
  lemma WriteReady<B>(srcList: seq<int>, repeats: seq<nat>, pos: nat,
                      received: map<int, B>, store: map<int, B>, sink: seq<B>)
    requires Progress(srcList, repeats, pos, Expected(srcList, pos), received, store, sink)
    requires Expected(srcList, pos) in store
    ensures pos < |srcList|
  {
    if pos == |srcList| {
      BelowEnd(srcList, Expected(srcList, pos));
      assert false;
    }
  }

  /** Writing the stored frame of the expected index, as many times as the
      plan says, advances the progress by one element of `srcList`. */
  lemma WriteStep<B>(srcList: seq<int>, repeats: seq<nat>, pos: nat,
                     received: map<int, B>, store: map<int, B>, sink: seq<B>,
                     next': int, store': map<int, B>, sink': seq<B>)
    requires Progress(srcList, repeats, pos, Expected(srcList, pos), received, store, sink)
    requires pos < |srcList| && srcList[pos] in store
    requires next' == Expected(srcList, pos + 1)
    requires store' == store - {srcList[pos]}
    requires sink' == sink + Repeat(store[srcList[pos]], repeats[srcList[pos]])
    ensures Progress(srcList, repeats, pos + 1, next', received, store', sink')
  {
    var next := srcList[pos];
    forall k ensures k in store' <==> k in received && k >= Expected(srcList, pos + 1) {
      AboveExpected(srcList, pos, received, k);
    }
    assert srcList[..pos + 1][..pos] == srcList[..pos];
  }

  /** Receiving a frame for a new index adds one key. */
  lemma KeysGrow<B>(received: map<int, B>, i: int, buf: B)
    requires i !in received
    ensures |received[i := buf].Keys| == |received.Keys| + 1
  {
    assert received[i := buf].Keys == received.Keys + {i};
  }

  /** When the expected index is not stored, its frame has not arrived. */
  lemma Settled<B>(srcList: seq<int>, repeats: seq<nat>, pos: nat, next: int,
                   received: map<int, B>, store: map<int, B>, sink: seq<B>)
    requires Progress(srcList, repeats, pos, next, received, store, sink)
    requires next !in store
    ensures pos < |srcList| ==> srcList[pos] !in received
  {
  }

  /** The reorder buffer of the resampling renderer. `sink` is what has been
      written to the encoder's input, `writtenOut` counts it. */
  class SparseSequencer<B> {
    const srcList: seq<int>
    const repeats: seq<nat>
    const lastSrc: int
    var store: map<int, B>
    var nextSrcToWrite: int
    var produced: nat
    var writtenOut: nat
    var sink: seq<B>
    /** Every frame received so far, by source index. */
    ghost var received: map<int, B>
    /** How many elements of `srcList` have been written. */
    ghost var pos: nat

    /** The invariant between two writes: the first `pos` frames of
        `srcList` are written, by the plan, and the received frames not yet
        written are stored. */
    ghost predicate Inv()
      reads this
    {
      && lastSrc == (if |srcList| > 0 then srcList[|srcList| - 1] else -1)
      && Progress(srcList, repeats, pos, nextSrcToWrite, received, store, sink)
      && produced == |received.Keys|
      && writtenOut == |sink|
    }

    /** The invariant between two messages: in addition, nothing stored is
        ready to be written. */
    ghost predicate Valid()
      reads this
    {
      Inv() && (pos < |srcList| ==> srcList[pos] !in received)
    }

    constructor (list: seq<int>, rep: seq<nat>)
      requires StrictlyAscending(list)
      requires forall j :: 0 <= j < |list| ==> 0 <= list[j] < |rep|
      ensures Valid()
      ensures srcList == list && repeats == rep && received == map[] && sink == []
    {
      srcList := list;
      repeats := rep;
      nextSrcToWrite := if |list| > 0 then list[0] else 0;
      lastSrc := if |list| > 0 then list[|list| - 1] else -1;
      produced := 0;
      writtenOut := 0;
      store := map[];
      sink := [];
      received := map[];
      pos := 0;
    }

    /** The `frame` message handler for source index `i`: store the buffer,
        then write every stored buffer that is next in `srcList`. */
    method OnFrame(i: int, buf: B)
      requires Valid()
      requires i in srcList && i !in received
      modifies this
      ensures Valid()
      ensures received == old(received)[i := buf]
      ensures old(pos) <= pos && old(sink) <= sink
    {
      KeysGrow(received, i, buf);
      var next, st, out, count;
      ghost var p;
      next, st, out, count, p := Flush(i, buf, nextSrcToWrite, store, sink, writtenOut, pos, received);
      store, nextSrcToWrite, sink, writtenOut := st, next, out, count;
      received, pos, produced := received[i := buf], p, produced + 1;
    }

    /** The body of the handler on the reorder buffer's values: store the
        buffer, then, as long as the expected index is stored, write it and
        move on. On return the expected frame has not arrived yet. */
    method Flush(i: int, buf: B, next: int, store0: map<int, B>, sink0: seq<B>, written0: nat,
                 ghost pos0: nat, ghost received0: map<int, B>)
      returns (next': int, store': map<int, B>, sink': seq<B>, written': nat, ghost pos': nat)
      requires lastSrc == (if |srcList| > 0 then srcList[|srcList| - 1] else -1)
      requires Progress(srcList, repeats, pos0, next, received0, store0, sink0) && written0 == |sink0|
      requires i in srcList && i !in received0
      ensures Progress(srcList, repeats, pos', next', received0[i := buf], store', sink') && written' == |sink'|
      ensures pos0 <= pos' && sink0 <= sink'
      ensures pos' < |srcList| ==> srcList[pos'] !in received0[i := buf]
    {
      ReceiveStep(srcList, repeats, pos0, received0, store0, sink0, i, buf);
      var received := received0[i := buf];
      next', store', sink', written', pos' := next, store0[i := buf], sink0, written0, pos0;
      while next' in store'
        invariant Progress(srcList, repeats, pos', next', received, store', sink') && written' == |sink'|
        invariant pos0 <= pos' && sink0 <= sink'
        decreases |srcList| - pos'
      {
        next', store', sink', written', pos' := WriteNext(next', store', sink', written', pos', received);
      }
      Settled(srcList, repeats, pos', next', received, store', sink');
    }

    /** One turn of the write loop: the stored buffer of the expected index
        is written as many times as the plan says, and the expected index
        moves to the next element of `srcList`. */
    method WriteNext(next: int, store0: map<int, B>, sink0: seq<B>, written0: nat,
                     ghost pos0: nat, ghost received: map<int, B>)
      returns (next': int, store': map<int, B>, sink': seq<B>, written': nat, ghost pos': nat)
      requires lastSrc == (if |srcList| > 0 then srcList[|srcList| - 1] else -1)
      requires Progress(srcList, repeats, pos0, next, received, store0, sink0) && written0 == |sink0|
      requires next in store0
      ensures Progress(srcList, repeats, pos', next', received, store', sink') && written' == |sink'|
      ensures pos' == pos0 + 1 && sink0 <= sink'
    {
      WriteReady(srcList, repeats, pos0, received, store0, sink0);
      var buf := store0[next];
      NextInListSteps(srcList, pos0);
      next' := if next == lastSrc then lastSrc + 1 else NextInList(srcList, next);
      store' := store0 - {next};
      sink', written' := Emit(buf, repeats[next], sink0, written0);
      WriteStep(srcList, repeats, pos0, received, store0, sink0, next', store', sink');
      pos' := pos0 + 1;
    }

    /** The inner write loop: the buffer goes to the encoder's input `rep`
        times, and each write is counted. A full pipe buffer is not waited
        for. */
    static method Emit(buf: B, rep: nat, sink0: seq<B>, written0: nat) returns (sink': seq<B>, written': nat)
      ensures sink' == sink0 + Repeat(buf, rep)
      ensures written' == written0 + rep
    {
      sink', written' := sink0, written0;
      var r := 0;
      while r < rep
        invariant 0 <= r <= rep
        invariant sink' == sink0 + Repeat(buf, r)
        invariant written' == written0 + r
      {
        sink' := sink' + [buf];
        written' := written' + 1;
        r := r + 1;
      }
    }
  }

  /** Once every frame of `srcList` has arrived, all of them are written,
      each by the plan, and nothing is left in the store. */
  lemma Drained<B>(s: SparseSequencer<B>)
    requires s.Valid()
    requires forall j :: 0 <= j < |s.srcList| ==> s.srcList[j] in s.received
    ensures s.pos == |s.srcList|
    ensures s.store == map[]
    ensures s.sink == Expand(s.srcList, s.received, s.repeats)
  {
    assert s.pos == |s.srcList|;
    forall k | k in s.store ensures false {
      BelowEnd(s.srcList, k);
    }
    assert s.store.Keys == {};
    assert s.srcList[..s.pos] == s.srcList;
  }

  /** Once the rendered frames of the whole `srcList` of a plan have
      arrived, the encoder has received the reference output, and the
      counters agree with the plan. */
  lemma {:induction false} AllWritten<B>(s: SparseSequencer<B>, rep: seq<nat>, render: int -> B)
    requires s.Valid() && s.srcList == SrcList(rep) && s.repeats == rep
    requires forall j :: 0 <= j < |s.srcList| ==> s.srcList[j] in s.received
    requires forall j :: j in s.received ==> s.received[j] == render(j)
    ensures s.sink == Timeline(rep, render)
    ensures s.writtenOut == Sum(rep)
    ensures s.produced == CountPositive(rep)
  {
    SrcListIsPositiveIndices(rep);
    Drained(s);
    ExpandIsTimeline(rep, s.received, render);
    TimelineLength(rep, render);
    AscendingIsDistinct(s.srcList);
    MapOverDistinct(s.received, s.srcList);
  }

  /** The frames of `arrivals`, each rendered, handed to the reorder buffer
      one message at a time. */
  method Feed<B>(s: SparseSequencer<B>, arrivals: seq<int>, render: int -> B)
    requires s.Valid() && s.received == map[]
    requires Distinct(arrivals)
    requires forall u :: 0 <= u < |arrivals| ==> arrivals[u] in s.srcList
    modifies s
    ensures s.Valid()
    ensures forall u :: 0 <= u < |arrivals| ==> arrivals[u] in s.received
    ensures forall j :: j in s.received ==> s.received[j] == render(j)
  {
    var t := 0;
    while t < |arrivals|
      invariant 0 <= t <= |arrivals|
      invariant s.Valid()
      invariant forall u :: 0 <= u < t ==> arrivals[u] in s.received
      invariant forall u :: t <= u < |arrivals| ==> arrivals[u] !in s.received
      invariant forall j :: j in s.received ==> s.received[j] == render(j)
    {
      ghost var before := s.received;
      s.OnFrame(arrivals[t], render(arrivals[t]));
      FedStep(arrivals, t, before, s.received, render);
      t := t + 1;
    }
  }

  /** One more arrival keeps the bookkeeping of `Feed`. */
  lemma FedStep<B>(arrivals: seq<int>, t: nat, received: map<int, B>, received': map<int, B>, render: int -> B)
    requires Distinct(arrivals) && t < |arrivals|
    requires received' == received[arrivals[t] := render(arrivals[t])]
    requires forall u :: 0 <= u < t ==> arrivals[u] in received
    requires forall u :: t <= u < |arrivals| ==> arrivals[u] !in received
    requires forall j :: j in received ==> received[j] == render(j)
    ensures forall u :: 0 <= u < t + 1 ==> arrivals[u] in received'
    ensures forall u :: t + 1 <= u < |arrivals| ==> arrivals[u] !in received'
    ensures forall j :: j in received' ==> received'[j] == render(j)
  {
  }

  /** An arrival order of an ascending list names every element once. */
  lemma ArrivalsDistinct(arrivals: seq<int>, srcList: seq<int>)
    requires StrictlyAscending(srcList)
    requires multiset(arrivals) == multiset(srcList)
    ensures Distinct(arrivals)
    ensures forall u :: 0 <= u < |arrivals| ==> arrivals[u] in srcList
  {
    AscendingIsDistinct(srcList);
    PermutationOfDistinct(arrivals, srcList);
  }

  /** Once every arrival is received, so is every element of the list. */
  lemma ArrivalsCover<B>(arrivals: seq<int>, srcList: seq<int>, received: map<int, B>)
    requires multiset(arrivals) == multiset(srcList)
    requires forall u :: 0 <= u < |arrivals| ==> arrivals[u] in received
    ensures forall j :: 0 <= j < |srcList| ==> srcList[j] in received
  {
    forall j | 0 <= j < |srcList| ensures srcList[j] in received {
      assert srcList[j] in multiset(arrivals);
      var u :| 0 <= u < |arrivals| && arrivals[u] == srcList[j];
    }
  }

  /** Feeding the rendered frames of the plan's `srcList` to the reorder
      buffer in any arrival order writes the reference output: every source
      frame of the plan, as many times as the plan says, in source order.
      With no arrivals at all nothing is written. */
  method RunSparse<B>(rep: seq<nat>, arrivals: seq<int>, render: int -> B)
    returns (sink: seq<B>, produced: nat, writtenOut: nat)
    requires arrivals == [] || multiset(arrivals) == multiset(SrcList(rep))
    ensures arrivals == [] ==> sink == [] && produced == 0 && writtenOut == 0
    ensures multiset(arrivals) == multiset(SrcList(rep)) ==>
      sink == Timeline(rep, render) && writtenOut == Sum(rep) && produced == CountPositive(rep)
  {
    var srcList := SrcList(rep);
    SrcListIsPositiveIndices(rep);
    var s := new SparseSequencer<B>(srcList, rep);
    if arrivals == [] && srcList != [] {
      return s.sink, s.produced, s.writtenOut;
    }
    ArrivalsDistinct(arrivals, srcList);
    Feed(s, arrivals, render);
    ArrivalsCover(arrivals, srcList, s.received);
    AllWritten(s, rep, render);
    sink, produced, writtenOut := s.sink, s.produced, s.writtenOut;
  }

  // ---------------------------------------------------------------------------
  // Encoder arguments

  /** The encoder settings of the resampling renderer. The keyframe interval
      and the thread count are optional; `None` is `undefined`. */
  datatype ParallelEncoderSettings = ParallelEncoderSettings(
    W: int, H: int, FPS: int, preset: string, crf: int,
    gop: Option<int>, threads: Option<int>, extra: seq<string>, outPath: string)

  /** A thread count is passed only when it is given and not zero. */
  predicate ThreadsGiven(threads: Option<int>)
  {
    threads.Some? && threads.value != 0
  }

  /** The encoder arguments of the resampling renderer: raw RGBA frames of
      W x H at FPS from standard input, no audio, H.264 with the given
      preset and quality, the given keyframe interval or twelve seconds of
      frames, a thread count only when one is given, then the extra
      arguments and the output path. */
  function ParallelArgs(o: ParallelEncoderSettings): (args: seq<string>)
    ensures |args| == 25 + (if ThreadsGiven(o.threads) then 2 else 0) + |o.extra|
    ensures args[..11] == ["-y", "-f", "rawvideo", "-pixel_format", "rgba",
                           "-video_size", IntToString(o.W) + "x" + IntToString(o.H),
                           "-framerate", IntToString(o.FPS), "-i", "pipe:0"]
    ensures args[11..20] == ["-an", "-c:v", "libx264", "-preset", o.preset,
                             "-crf", IntToString(o.crf), "-pix_fmt", "yuv420p"]
    ensures args[20..24] == ["-movflags", "+faststart", "-g", IntToString(o.gop.GetOr(o.FPS * 12))]
    ensures ThreadsGiven(o.threads) ==> args[24..26] == ["-threads", IntToString(o.threads.value)]
    ensures var k := if ThreadsGiven(o.threads) then 26 else 24;
      args[k..|args| - 1] == o.extra
    ensures args[|args| - 1] == o.outPath
  {
    var size, rate, quality := IntToString(o.W) + "x" + IntToString(o.H), IntToString(o.FPS), IntToString(o.crf);
    var input := ["-y", "-f", "rawvideo", "-pixel_format", "rgba",
                  "-video_size", size, "-framerate", rate, "-i", "pipe:0"];
    var codec := ["-an", "-c:v", "libx264", "-preset", o.preset,
                  "-crf", quality, "-pix_fmt", "yuv420p"];
    var container := ["-movflags", "+faststart", "-g", IntToString(o.gop.GetOr(o.FPS * 12))];
    var threads := if ThreadsGiven(o.threads) then ["-threads", IntToString(o.threads.value)] else [];
    var args := input + codec + container + threads + o.extra + [o.outPath];
    assert args[..11] == input;
    assert args[11..20] == codec;
    assert args[20..24] == container;
    assert args[24..24 + |threads|] == threads;
    assert args[24 + |threads|..|args| - 1] == o.extra;
    args
  }

  /** The numbers in the argument list read back as the settings they came
      from. */
  lemma {:induction false} ParallelNumbersReadBack(o: ParallelEncoderSettings)
    ensures ParseInt(ParallelArgs(o)[8]) == o.FPS
    ensures ParseInt(ParallelArgs(o)[17]) == o.crf
    ensures ParseInt(ParallelArgs(o)[23]) == o.gop.GetOr(o.FPS * 12)
    ensures ThreadsGiven(o.threads) ==> ParseInt(ParallelArgs(o)[25]) == o.threads.value
  {
    var args := ParallelArgs(o);
    assert args[8] == args[..11][8] && args[17] == args[11..20][6] && args[23] == args[20..24][3];
    IntRoundTrip(o.FPS);
    IntRoundTrip(o.crf);
    IntRoundTrip(o.gop.GetOr(o.FPS * 12));
    if ThreadsGiven(o.threads) {
      assert args[25] == args[24..26][1];
      IntRoundTrip(o.threads.value);
    }
  }

  /** Without a keyframe interval and with a thread count, the resampling
      renderer passes the encoder exactly the arguments of the fixed-rate
      renderer. */
  lemma SameArgsAsFixedRate(o: ParallelEncoderSettings)
    requires o.gop.None? && ThreadsGiven(o.threads)
    ensures ParallelArgs(o) == RenderLottie.BuildFfmpegArgs(RenderLottie.EncoderSettings(
              o.W, o.H, o.FPS, o.preset, o.crf, o.threads.value, o.extra, o.outPath))
  {
    var a := ParallelArgs(o);
    var b := RenderLottie.BuildFfmpegArgs(RenderLottie.EncoderSettings(
               o.W, o.H, o.FPS, o.preset, o.crf, o.threads.value, o.extra, o.outPath));
    assert o.FPS * 12 == 12 * o.FPS;
    assert a[..26] == a[..11] + a[11..20] + a[20..24] + a[24..26];
    assert b[..26] == b[..11] + b[11..20] + b[20..26];
    assert a[..26] == b[..26];
    assert a == a[..26] + a[26..|a| - 1] + [a[|a| - 1]];
    assert b == b[..26] + b[26..|b| - 1] + [b[|b| - 1]];
  }

  // ---------------------------------------------------------------------------
  // The whole render

  /** The caller-facing options of the resampling renderer; `None` is
      `undefined`, an empty output path is a missing one. */
  datatype ParallelOptions = ParallelOptions(
    outPath: string, width: Option<int>, height: Option<int>, fps: Option<int>,
    crf: Option<int>, preset: Option<string>, gop: Option<int>, threads: Option<int>,
    workers: Option<int>, extraFfmpegArgs: Option<seq<string>>)

  /** What the probe player reports about the animation. */
  datatype Probe = Probe(width: int, height: int, fps: Option<real>, totalFrames: nat, duration: real)

  /** The worker count: the option, or the default for the machine's cores. */
  function Workers(o: ParallelOptions, cpus: int): int
  {
    o.workers.GetOr(DefaultWorkers(cpus))
  }

  /** The source frame rate of the probed animation. */
  function ProbeFps(p: Probe): real
  {
    SourceFps(p.fps, p.totalFrames as real, p.duration)
  }

  /** The frame plan of one render. */
  function PlanFor(o: ParallelOptions, p: Probe): seq<nat>
  {
    Plan(p.totalFrames, Ratio(OutputFps(o.fps, ProbeFps(p)), ProbeFps(p)))
  }

  /** The encoder settings of one render: an empty output path is refused;
      size and rate fall back to the probed ones, quality to 18 and the
      preset to `veryfast`. */
  function SettingsFor(o: ParallelOptions, p: Probe): (r: Result<ParallelEncoderSettings, string>)
    ensures r.Failure? <==> o.outPath == ""
    ensures r.Success? ==> r.value.outPath == o.outPath && r.value.FPS == OutputFps(o.fps, ProbeFps(p))
    ensures r.Success? ==> r.value.W == o.width.GetOr(p.width) && r.value.H == o.height.GetOr(p.height)
    ensures r.Success? ==> r.value.crf == (if o.crf.Some? then o.crf.value else 18)
    ensures r.Success? ==> r.value.preset == (if o.preset.Some? then o.preset.value else "veryfast")
    ensures r.Success? ==> r.value.gop == o.gop && r.value.threads == o.threads
    ensures r.Success? ==> r.value.extra == (if o.extraFfmpegArgs.Some? then o.extraFfmpegArgs.value else [])
  {
    if o.outPath == "" then Failure("outPath is required")
    else Success(ParallelEncoderSettings(
      o.width.GetOr(p.width), o.height.GetOr(p.height), OutputFps(o.fps, ProbeFps(p)),
      o.preset.GetOr("veryfast"), o.crf.GetOr(18), o.gop, o.threads,
      o.extraFfmpegArgs.GetOr([]), o.outPath))
  }

  /** What one render hands to the encoder: its arguments, the chunks given
      to the workers, the frames written to its input and the two counters. */
  datatype ParallelRun<B> = ParallelRun(
    args: seq<string>, chunks: seq<seq<int>>, frames: seq<B>, produced: nat, writtenOut: nat)

  /** The chunks given to the workers carry every frame to render once, in
      order, over as many workers as the chunk count allows. */
  lemma ChunksCoverList(srcList: seq<int>, k: int, chunks: seq<seq<int>>)
    requires k <= 0 ==> chunks == []
    requires k >= 1 ==> |chunks| == k && Flatten(chunks) == srcList
    ensures multiset(Flatten(chunks)) == multiset(if k >= 1 then srcList else [])
  {
  }

  /** With no chunk, or only empty ones, nobody sends a frame. */
  lemma NoArrivals(arrivals: seq<int>)
    requires multiset(arrivals) == multiset{}
    ensures arrivals == []
  {
    assert |arrivals| == |multiset(arrivals)|;
  }

  /** The frame streams of the workers started on `chunks`, each handed
      `dataPath` and its own chunk: the chunks themselves when a path is
      handed over, nothing at all when none is. */
  function Streams(chunks: seq<seq<int>>, dataPath: Option<string>): (s: seq<seq<int>>)
    ensures |s| == |chunks|
    ensures dataPath.Some? ==> s == chunks
    ensures dataPath.None? ==> Flatten(s) == []
  {
    var s := seq(|chunks|, w requires 0 <= w < |chunks| =>
      LottieWorker.WorkerFrames(LottieWorker.WorkerData(dataPath, chunks[w])));
    if dataPath.None? then FlattenAllEmpty(s); s else s
  }

  /** What a worker reports when it is handed no path: reading `undefined`
      is refused with a type error. */
  const MissingPathError := "ERR_INVALID_ARG_TYPE: the path argument is undefined"

  /** The work after the encoder has started: the frame plan, the list of
      frames to render and its chunks, one worker per chunk handed
      `dataPath` and its chunk, and the reorder buffer fed with the frames
      the workers post in the order `schedule` gives. With a path and at
      least one worker, the encoder receives the reference output of the
      frame plan; without a path, or without a worker, it receives nothing. */
  method Dispatch<B>(o: ParallelOptions, probe: Probe, cpus: int, schedule: seq<int>, render: int -> B,
                     dataPath: Option<string>)
    returns (run: ParallelRun<B>)
    requires o.outPath != ""
    ensures run.args == ParallelArgs(SettingsFor(o, probe).value)
    ensures var k := ChunkCount(Workers(o, cpus), |SrcList(PlanFor(o, probe))|);
      |run.chunks| == (if k >= 1 then k else 0) &&
      (k >= 1 ==> Flatten(run.chunks) == SrcList(PlanFor(o, probe)))
    ensures dataPath.Some? && Workers(o, cpus) >= 1 ==>
      var rep := PlanFor(o, probe);
      run.frames == Timeline(rep, render) &&
      run.writtenOut == Sum(rep) && run.produced == CountPositive(rep)
    ensures dataPath.None? || Workers(o, cpus) <= 0 ==>
      run.frames == [] && run.produced == 0 && run.writtenOut == 0
  {
    var args := ParallelArgs(SettingsFor(o, probe).value);
    var srcFps := ProbeFps(probe);
    var ratio := Ratio(OutputFps(o.fps, srcFps), srcFps);
    var repeats := ComputeRepeats(probe.totalFrames, ratio);
    var srcList := BuildSrcList(repeats);
    var k := ChunkCount(Workers(o, cpus), |srcList|);
    var chunks := SplitEven(srcList, k);
    var streams := Streams(chunks, dataPath);
    var arrivals := LottieWorker.Merge(streams, schedule);
    ChunksCoverList(srcList, k, chunks);
    if k <= 0 || dataPath.None? {
      NoArrivals(arrivals);
    }
    var frames, produced, writtenOut := RunSparse(repeats[..], arrivals, render);
    run := ParallelRun(args, chunks, frames, produced, writtenOut);
  }

  /** One render of the resampling renderer, with each worker handed the
      path of the animation file, `dataPath`, under the key the worker
      reads. `render(k)` is the pixel buffer of source frame `k`, `schedule`
      the order in which the workers' messages reach the main thread. With
      at least one worker, the encoder receives the reference output of the
      frame plan: source frame `k` written `repeats[k]` times, for `k`
      ascending; with none, it receives no frame. */
  method RenderParallel<B>(o: ParallelOptions, probe: Probe, cpus: int, schedule: seq<int>, render: int -> B,
                           dataPath: string)
    returns (r: Result<ParallelRun<B>, string>)
    ensures r.Failure? <==> o.outPath == ""
    ensures r.Success? ==> r.value.args == ParallelArgs(SettingsFor(o, probe).value)
    ensures r.Success? ==> var k := ChunkCount(Workers(o, cpus), |SrcList(PlanFor(o, probe))|);
      |r.value.chunks| == (if k >= 1 then k else 0) &&
      (k >= 1 ==> Flatten(r.value.chunks) == SrcList(PlanFor(o, probe)))
    ensures r.Success? && Workers(o, cpus) >= 1 ==>
      var rep := PlanFor(o, probe);
      r.value.frames == Timeline(rep, render) &&
      r.value.writtenOut == Sum(rep) && r.value.produced == CountPositive(rep)
    ensures r.Success? && Workers(o, cpus) <= 0 ==>
      r.value.frames == [] && r.value.produced == 0 && r.value.writtenOut == 0
  {
    if o.outPath == "" {
      return Failure("outPath is required");
    }
    var run := Dispatch(o, probe, cpus, schedule, render, Some(dataPath));
    r := Success(run);
  }

  /** One render as written: the workers are handed the animation's text
      under `dataStr`, but read the path under `dataPath`, so each of them
      fails before posting a frame. `written` is what reaches the encoder's
      input before the render rejects: nothing. With no worker at all, the
      render completes without a frame. */
  method RenderParallelAsWritten<B>(o: ParallelOptions, probe: Probe, cpus: int, schedule: seq<int>, render: int -> B)
    returns (r: Result<ParallelRun<B>, string>, written: seq<B>)
    ensures o.outPath == "" ==> r == Failure("outPath is required") && written == []
    ensures o.outPath != "" && Workers(o, cpus) >= 1 ==> r == Failure(MissingPathError) && written == []
    ensures o.outPath != "" && Workers(o, cpus) <= 0 ==>
      r.Success? && r.value.frames == [] && r.value.chunks == [] && written == []
  {
    if o.outPath == "" {
      return Failure("outPath is required"), [];
    }
    var run := Dispatch(o, probe, cpus, schedule, render, None);
    written := run.frames;
    if |run.chunks| > 0 {
      r := Failure(MissingPathError);
    } else {
      r := Success(run);
    }
  }

  /** For a render with a frame to write and at least one worker, the
      corrected hand-off writes every planned frame and the hand-off as
      written rejects with nothing written. */
  method HandOffLosesEveryFrame<B>(o: ParallelOptions, probe: Probe, cpus: int, schedule: seq<int>,
                                   render: int -> B, dataPath: string)
    returns (fixed: Result<ParallelRun<B>, string>, asWritten: Result<ParallelRun<B>, string>, written: seq<B>)
    requires o.outPath != "" && Workers(o, cpus) >= 1 && Sum(PlanFor(o, probe)) > 0
    ensures fixed.Success? && |fixed.value.frames| == Sum(PlanFor(o, probe)) > 0
    ensures asWritten.Failure? && written == []
  {
    fixed := RenderParallel(o, probe, cpus, schedule, render, dataPath);
    asWritten, written := RenderParallelAsWritten(o, probe, cpus, schedule, render);
    TimelineLength(PlanFor(o, probe), render);
  }
}
