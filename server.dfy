/** The render service: an admission limiter in front of the renderer, and
    the life of one `/render` request from admission to the release of its
    slot and the removal of its job directory. */
module RenderServer {
  import opened Wrappers
  import opened JsSemantics
  import opened DecodeOptions

  // ---------------------------------------------------------------------------
  // The limit

  /** `running >= limit` with a JavaScript number on the right: never true
      against `NaN` or `+Infinity`, always true against `-Infinity`. */
  predicate AtLimit(running: int, limit: JsNumber)
  {
    match limit
    case NaN => false
    case PosInfinity => false
    case NegInfinity => true
    case Finite(x) => running as real >= x
  }

  /** The most slots a limit lets be taken at once, when there is such a
      number. */
  function Bound(limit: JsNumber): Option<nat>
  {
    match limit
    case Finite(x) => Some(if Ceil(x) < 0 then 0 else Ceil(x))
    case NegInfinity => Some(0)
    case _ => None
  }

  /** A limit with a bound refuses exactly from the bound on; one without
      never refuses. */
  lemma AtLimitIsBound(running: nat, limit: JsNumber)
    ensures Bound(limit).Some? ==> (AtLimit(running, limit) <==> running >= Bound(limit).value)
    ensures Bound(limit).None? ==> !AtLimit(running, limit)
  {
    if limit.Finite? {
      var c := Ceil(limit.value);
      assert c as real - 1.0 < limit.value <= c as real;
      if running >= c {
        assert running as real >= c as real;
      } else {
        assert running <= c - 1;
        assert running as real <= c as real - 1.0;
      }
    }
  }

  /** `Math.max(1, x)`: `NaN` stays `NaN`. */
  function MaxWithOne(x: JsNumber): JsNumber
  {
    match x
    case NaN => NaN
    case PosInfinity => PosInfinity
    case NegInfinity => Finite(1.0)
    case Finite(v) => Finite(if v >= 1.0 then v else 1.0)
  }

  /** The `CONCURRENCY` setting as written: the variable, `"1"` when unset,
      converted by `Number` and raised to 1 at least. A value that does not
      convert stays `NaN`, and a `NaN` limit has no bound. */
  function ConcurrencyAsWritten(env: Option<string>, number: string -> JsNumber): (limit: JsNumber)
    ensures limit.NaN? <==> number(env.GetOr("1")).NaN?
    ensures !limit.NaN? ==> limit.PosInfinity? || (limit.Finite? && limit.value >= 1.0)
  {
    MaxWithOne(number(env.GetOr("1")))
  }

  /** With `CONCURRENCY` set to something that is not a number, the limiter
      as written admits every request, however many are running. */
  lemma NaNLimitNeverRefuses(env: Option<string>, number: string -> JsNumber, running: nat)
    requires number(env.GetOr("1")).NaN?
    ensures Bound(ConcurrencyAsWritten(env, number)).None?
    ensures !AtLimit(running, ConcurrencyAsWritten(env, number))
  {
  }

  /** The setting as evidently intended: a value that does not convert falls
      back to the one-at-a-time default. */
  function Concurrency(env: Option<string>, number: string -> JsNumber): (limit: JsNumber)
    ensures limit.PosInfinity? || (limit.Finite? && limit.value >= 1.0)
    ensures !number(env.GetOr("1")).NaN? ==> limit == ConcurrencyAsWritten(env, number)
  {
    var n := number(env.GetOr("1"));
    if n.NaN? then Finite(1.0) else MaxWithOne(n)
  }

  /** Under the intended setting the limiter always has a bound of one slot
      at least, unless an infinite limit was asked for explicitly. */
  lemma ConcurrencyIsBounded(env: Option<string>, number: string -> JsNumber)
    ensures number(env.GetOr("1")) != PosInfinity ==>
              Bound(Concurrency(env, number)).Some? && Bound(Concurrency(env, number)).value >= 1
  {
    var limit := Concurrency(env, number);
    if limit.Finite? {
      assert Ceil(limit.value) as real >= limit.value >= 1.0;
    }
  }

  // ---------------------------------------------------------------------------
  // The limiter

  /** `Limiter`: a count of running renders against a fixed limit. */
  class Limiter {
    const limit: JsNumber
    var running: nat

    /** The count never passes the limit's bound. */
    ghost predicate Inv()
      reads this
    {
      Bound(limit).Some? ==> running <= Bound(limit).value
    }

    constructor(limit: JsNumber)
      ensures this.limit == limit && running == 0 && Inv()
    {
      this.limit := limit;
      running := 0;
    }

    /** `try`: refuse and change nothing at the limit, otherwise take one
      slot. */
    method Try() returns (ok: bool)
      requires Inv()
      modifies this
      ensures Inv()
      ensures ok <==> !AtLimit(old(running), limit)
      ensures running == if ok then old(running) + 1 else old(running)
    {
      AtLimitIsBound(running, limit);
      if AtLimit(running, limit) {
        return false;
      }
      running := running + 1;
      return true;
    }

    /** `release`: give one slot back; nothing happens when none is taken. */
    method Release()
      requires Inv()
      modifies this
      ensures Inv()
      ensures running == if old(running) > 0 then old(running) - 1 else 0
    {
      if running > 0 {
        running := running - 1;
      }
    }
  }

  // ---------------------------------------------------------------------------
  // Requests

  /** The status and body of a reply: an error message, or the path of the
      video streamed back. */
  datatype Reply = Reply(status: int, error: Option<string>, video: Option<string>)

  /** An admitted request: its animation and its decoded options. */
  datatype Job = Job(input: JsValue, opts: DecodedOptions)

  datatype AdmitResult = Rejected(reply: Reply) | Admitted(job: nat)

  /** The request body read as an object: a missing body counts as an empty
      object, and a body that is not an object has no fields. */
  function BodyFields(body: JsValue): (f: map<string, JsValue>)
    ensures body.Obj? ==> f == body.fields
    ensures !body.Obj? ==> f == map[]
  {
    if body.Obj? then body.fields else map[]
  }

  /** The body's `input`: `undefined` unless the body is an object that
      holds the key. */
  function InputOf(body: JsValue): (v: JsValue)
    ensures body.Obj? && "input" in body.fields ==> v == body.fields["input"]
    ensures !(body.Obj? && "input" in body.fields) ==> v == Undefined
  {
    Get(BodyFields(body), "input")
  }

  /** The output file inside a job directory: a file named `out.mp4`
      directly below the directory. */
  function OutPath(dir: string): (p: string)
    ensures |p| == |dir| + 8 && p[..|dir|] == dir && p[|dir|..] == "/out.mp4"
  {
    dir + "/out.mp4"
  }

  lemma KeysAdd<V>(m: map<nat, V>, k: nat, v: V)
    requires k !in m
    ensures |m[k := v].Keys| == |m.Keys| + 1
  {
    assert m[k := v].Keys == m.Keys + {k};
  }

  lemma KeysRemove<V>(m: map<nat, V>, k: nat)
    requires k in m
    ensures |(m - {k}).Keys| == |m.Keys| - 1
  {
    assert (m - {k}).Keys + {k} == m.Keys;
  }

  /** The service: the limiter, the requests admitted and not yet answered,
      and the job directories left on disk. `leaked` counts the slots taken
      by requests that were answered without giving their slot back. */
  class RenderService {
    const host: JsHost
    const limiter: Limiter
    var jobs: map<nat, Job>
    var nextJob: nat
    var jobDirs: set<string>
    ghost var leaked: nat

    /** Every taken slot belongs to a request in flight or was leaked. */
    ghost predicate Valid()
      reads this, limiter
    {
      limiter.Inv() &&
      limiter.running == |jobs.Keys| + leaked &&
      forall j :: j in jobs ==> j < nextJob
    }

    constructor(host: JsHost, limit: JsNumber)
      ensures Valid() && fresh(limiter)
      ensures this.host == host && limiter.limit == limit
      ensures jobs == map[] && jobDirs == {} && leaked == 0
    {
      this.host := host;
      limiter := new Limiter(limit);
      jobs := map[];
      nextJob := 0;
      jobDirs := {};
      leaked := 0;
    }

    /** The first half of the `/render` handler, with the options decoded
      inside the guarded block: a body without a truthy `input` gets a 400
      before the limiter is asked; a busy limiter gives a 429 and takes no
      slot; otherwise one slot is taken and the request's options are
      decoded from its body. When the decoder throws, the request is
      answered with a 500 carrying the error and the slot is given back. */
    method Admit(body: JsValue) returns (r: AdmitResult)
      requires Valid()
      modifies this, limiter
      ensures Valid()
      ensures !Truthy(InputOf(body)) ==>
                r == Rejected(Reply(400, Some("missing input"), None)) &&
                limiter.running == old(limiter.running) && jobs == old(jobs)
      ensures Truthy(InputOf(body)) && AtLimit(old(limiter.running), limiter.limit) ==>
                r == Rejected(Reply(429, Some("busy"), None)) &&
                limiter.running == old(limiter.running) && jobs == old(jobs)
      ensures Truthy(InputOf(body)) && !AtLimit(old(limiter.running), limiter.limit) &&
              Decode(host, BodyFields(body)).Failure? ==>
                r == Rejected(Reply(500, Some(Decode(host, BodyFields(body)).error), None)) &&
                limiter.running == old(limiter.running) && jobs == old(jobs)
      ensures Truthy(InputOf(body)) && !AtLimit(old(limiter.running), limiter.limit) &&
              Decode(host, BodyFields(body)).Success? ==>
                r.Admitted? && r.job !in old(jobs) &&
                jobs == old(jobs)[r.job := Job(InputOf(body), Decode(host, BodyFields(body)).value)] &&
                limiter.running == old(limiter.running) + 1
      ensures jobDirs == old(jobDirs) && leaked == old(leaked)
    {
      var input := InputOf(body);
      if !Truthy(input) {
        return Rejected(Reply(400, Some("missing input"), None));
      }
      var ok := limiter.Try();
      if !ok {
        return Rejected(Reply(429, Some("busy"), None));
      }
      var opts := Decode(host, BodyFields(body));
      if opts.Failure? {
        limiter.Release();
        return Rejected(Reply(500, Some(opts.error), None));
      }
      var job := nextJob;
      KeysAdd(jobs, job, Job(input, opts.value));
      jobs := jobs[job := Job(input, opts.value)];
      nextJob := nextJob + 1;
      r := Admitted(job);
    }

    /** The first half as written: the options are decoded after the slot
      is taken and before the guarded block, so a decoder that throws
      fails the request with a 500 and the slot is lost for the life of
      the service. */
    method AdmitAsWritten(body: JsValue) returns (r: AdmitResult)
      requires Valid()
      modifies this, limiter
      ensures Valid()
      ensures !Truthy(InputOf(body)) ==>
                r == Rejected(Reply(400, Some("missing input"), None)) &&
                limiter.running == old(limiter.running) && jobs == old(jobs) && leaked == old(leaked)
      ensures Truthy(InputOf(body)) && AtLimit(old(limiter.running), limiter.limit) ==>
                r == Rejected(Reply(429, Some("busy"), None)) &&
                limiter.running == old(limiter.running) && jobs == old(jobs) && leaked == old(leaked)
      ensures Truthy(InputOf(body)) && !AtLimit(old(limiter.running), limiter.limit) &&
              Decode(host, BodyFields(body)).Failure? ==>
                r == Rejected(Reply(500, Some(Decode(host, BodyFields(body)).error), None)) &&
                limiter.running == old(limiter.running) + 1 && jobs == old(jobs) && leaked == old(leaked) + 1
      ensures Truthy(InputOf(body)) && !AtLimit(old(limiter.running), limiter.limit) &&
              Decode(host, BodyFields(body)).Success? ==>
                r.Admitted? && r.job !in old(jobs) &&
                jobs == old(jobs)[r.job := Job(InputOf(body), Decode(host, BodyFields(body)).value)] &&
                limiter.running == old(limiter.running) + 1 && leaked == old(leaked)
      ensures jobDirs == old(jobDirs)
    {
      var input := InputOf(body);
      if !Truthy(input) {
        return Rejected(Reply(400, Some("missing input"), None));
      }
      var ok := limiter.Try();
      if !ok {
        return Rejected(Reply(429, Some("busy"), None));
      }
      var opts := Decode(host, BodyFields(body));
      if opts.Failure? {
        leaked := leaked + 1;
        return Rejected(Reply(500, Some(opts.error), None));
      }
      var job := nextJob;
      KeysAdd(jobs, job, Job(input, opts.value));
      jobs := jobs[job := Job(input, opts.value)];
      nextJob := nextJob + 1;
      r := Admitted(job);
    }

    /** The second half, with the job directory created inside the guarded
      block: whatever happens, the request's slot is given back exactly
      once. A job directory that cannot be created gives a 500 with its
      error. A failed render removes the directory and gives a 500 with
      the render's message. A successful one replies with the video, and
      the directory stays until the reply stream closes. */
    method Complete(job: nat, mkdtemp: Result<string, string>,
                    render: (JsValue, string, DecodedOptions) -> Result<(), string>) returns (reply: Reply)
      requires Valid() && job in jobs
      modifies this, limiter
      ensures Valid()
      ensures jobs == old(jobs) - {job} && limiter.running == old(limiter.running) - 1
      ensures leaked == old(leaked)
      ensures mkdtemp.Failure? ==> reply == Reply(500, Some(mkdtemp.error), None) && jobDirs == old(jobDirs)
      ensures mkdtemp.Success? ==>
                var dir := mkdtemp.value;
                var res := render(old(jobs)[job].input, OutPath(dir), old(jobs)[job].opts);
                (res.Success? ==> reply == Reply(200, None, Some(OutPath(dir))) && jobDirs == old(jobDirs) + {dir}) &&
                (res.Failure? ==> reply == Reply(500, Some(res.error), None) && jobDirs == old(jobDirs) - {dir})
    {
      var j := jobs[job];
      if mkdtemp.Failure? {
        reply := Reply(500, Some(mkdtemp.error), None);
      } else {
        var dir := mkdtemp.value;
        jobDirs := jobDirs + {dir};
        var res := render(j.input, OutPath(dir), j.opts);
        if res.Success? {
          reply := Reply(200, None, Some(OutPath(dir)));
        } else {
          jobDirs := jobDirs - {dir};
          reply := Reply(500, Some(res.error), None);
        }
      }
      KeysRemove(jobs, job);
      jobs := jobs - {job};
      limiter.Release();
    }

    /** The second half as written: the job directory is created before the
      guarded block, so when its creation fails the request is answered
      with a 500 but the finally clause that releases the slot is never
      entered. The slot is lost for the life of the service. */
    method CompleteAsWritten(job: nat, mkdtemp: Result<string, string>,
                             render: (JsValue, string, DecodedOptions) -> Result<(), string>) returns (reply: Reply)
      requires Valid() && job in jobs
      modifies this, limiter
      ensures Valid()
      ensures jobs == old(jobs) - {job}
      ensures mkdtemp.Failure? ==>
                reply == Reply(500, Some(mkdtemp.error), None) &&
                limiter.running == old(limiter.running) && leaked == old(leaked) + 1 && jobDirs == old(jobDirs)
      ensures mkdtemp.Success? ==> limiter.running == old(limiter.running) - 1 && leaked == old(leaked)
      ensures mkdtemp.Success? ==>
                var dir := mkdtemp.value;
                var res := render(old(jobs)[job].input, OutPath(dir), old(jobs)[job].opts);
                (res.Success? ==> reply == Reply(200, None, Some(OutPath(dir))) && jobDirs == old(jobDirs) + {dir}) &&
                (res.Failure? ==> reply == Reply(500, Some(res.error), None) && jobDirs == old(jobDirs) - {dir})
    {
      if mkdtemp.Failure? {
        KeysRemove(jobs, job);
        jobs := jobs - {job};
        leaked := leaked + 1;
        reply := Reply(500, Some(mkdtemp.error), None);
      } else {
        reply := Complete(job, mkdtemp, render);
      }
    }

    /** The cleanup attached to the reply stream: any of its close or error
      events removes the job directory; running it again changes nothing. */
    method OnStreamClose(dir: string)
      modifies this
      ensures jobDirs == old(jobDirs) - {dir}
      ensures jobs == old(jobs) && nextJob == old(nextJob) && leaked == old(leaked)
    {
      jobDirs := jobDirs - {dir};
    }
  }

  /** The leak at work, with the default limit of one render at a time: a
      request whose job directory cannot be created is answered with a 500,
      and every request after it is turned away as busy. */
  method LeakBlocksService(host: JsHost, body: JsValue, err: string,
                           render: (JsValue, string, DecodedOptions) -> Result<(), string>)
    returns (first: AdmitResult, reply: Reply, second: AdmitResult)
    requires Truthy(InputOf(body)) && Decode(host, BodyFields(body)).Success?
    ensures first.Admitted? && reply == Reply(500, Some(err), None)
    ensures second == Rejected(Reply(429, Some("busy"), None))
  {
    var svc := new RenderService(host, Finite(1.0));
    first := svc.AdmitAsWritten(body);
    reply := svc.CompleteAsWritten(first.job, Failure(err), render);
    second := svc.AdmitAsWritten(body);
  }

  /** The same requests under the intended lifecycle: the slot comes back
      and the next request is admitted. */
  method ReleaseServesNextRequest(host: JsHost, body: JsValue, err: string,
                                  render: (JsValue, string, DecodedOptions) -> Result<(), string>)
    returns (first: AdmitResult, reply: Reply, second: AdmitResult)
    requires Truthy(InputOf(body)) && Decode(host, BodyFields(body)).Success?
    ensures first.Admitted? && reply == Reply(500, Some(err), None)
    ensures second.Admitted?
  {
    var svc := new RenderService(host, Finite(1.0));
    first := svc.Admit(body);
    reply := svc.Complete(first.job, Failure(err), render);
    second := svc.Admit(body);
  }

  /** The leak through the decoder, with the default limit of one: a body
      whose options make the decoder throw is answered with a 500, and
      every request after it, however well formed, is turned away as busy. */
  method ThrowingOptionsBlockService(host: JsHost, bad: JsValue, good: JsValue)
    returns (first: AdmitResult, second: AdmitResult)
    requires Truthy(InputOf(bad)) && Decode(host, BodyFields(bad)).Failure?
    requires Truthy(InputOf(good))
    ensures first == Rejected(Reply(500, Some(Decode(host, BodyFields(bad)).error), None))
    ensures second == Rejected(Reply(429, Some("busy"), None))
  {
    var svc := new RenderService(host, Finite(1.0));
    first := svc.AdmitAsWritten(bad);
    second := svc.AdmitAsWritten(good);
  }

  /** The same requests with the decoder inside the guarded block: the slot
      comes back and the well-formed request is admitted. */
  method ThrowingOptionsReleaseSlot(host: JsHost, bad: JsValue, good: JsValue)
    returns (first: AdmitResult, second: AdmitResult)
    requires Truthy(InputOf(bad)) && Decode(host, BodyFields(bad)).Failure?
    requires Truthy(InputOf(good)) && Decode(host, BodyFields(good)).Success?
    ensures first == Rejected(Reply(500, Some(Decode(host, BodyFields(bad)).error), None))
    ensures second.Admitted?
  {
    var svc := new RenderService(host, Finite(1.0));
    first := svc.Admit(bad);
    second := svc.Admit(good);
  }

  /** The limiter under a limit that did not convert: every one of `n`
      back-to-back requests takes a slot. */
  method NaNLimiterAdmitsAll(n: nat) returns (admitted: nat)
    ensures admitted == n
  {
    var l := new Limiter(NaN);
    admitted := 0;
    var i := 0;
    while i < n
      invariant 0 <= i <= n && admitted == i
      invariant l.running == i && l.limit == NaN && l.Inv()
    {
      var ok := l.Try();
      if ok {
        admitted := admitted + 1;
      }
      i := i + 1;
    }
  }

  /** The limiter under the intended default limit of one: of `n`
      back-to-back requests with none finished, exactly one is admitted. */
  method UnitLimiterAdmitsOne(n: nat) returns (admitted: nat)
    requires n >= 1
    ensures admitted == 1
  {
    var l := new Limiter(Finite(1.0));
    admitted := 0;
    var i := 0;
    while i < n
      invariant 0 <= i <= n
      invariant l.limit == Finite(1.0) && l.Inv()
      invariant admitted == l.running == (if i == 0 then 0 else 1)
    {
      var ok := l.Try();
      if ok {
        admitted := admitted + 1;
      }
      i := i + 1;
    }
  }
}
