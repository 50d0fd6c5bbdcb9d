/** `decodeOptions`: the total decoder from an untyped request body to the
    six optional render options. Every field is read from its own key and
    decoded on its own; what the decoder cannot make sense of becomes
    `undefined` rather than an error, except that the string conversion of
    a value whose conversion throws lets the type error through. */
module DecodeOptions {
  import opened Wrappers
  import opened JsSemantics

  /** The host conversions the decoder relies on, left uninterpreted:
      `Number(s)` on a string, `String(v)` on a value that is not a string,
      whose `Failure` is the type error it throws (an object whose
      `toString` is not callable, say), and `JSON.parse(s)`, whose `None` is
      a thrown parse error. */
  datatype JsHost = JsHost(
    number: string -> JsNumber,
    stringOf: JsValue -> Result<string, string>,
    parseJson: string -> Option<JsValue>)

  /** `String(v)`: a string is its own conversion and never throws. */
  function JsString(host: JsHost, v: JsValue): (r: Result<string, string>)
    ensures v.Str? ==> r == Success(v.s)
    ensures !v.Str? ==> r == host.stringOf(v)
  {
    if v.Str? then Success(v.s) else host.stringOf(v)
  }

  /** Whether `toStringVal` throws on `v`: only when `v` is neither nullish
      nor a string and its conversion throws. */
  predicate StringThrows(host: JsHost, v: JsValue)
  {
    !IsNullish(v) && !v.Str? && host.stringOf(v).Failure?
  }

  /** The six options, as they reach the renderer. */
  datatype DecodedOptions = DecodedOptions(
    bgColor: Option<string>, crf: Option<real>, preset: Option<string>,
    threads: Option<real>, workers: Option<real>, extraFfmpegArgs: Option<seq<string>>)

  /** `isNumber`: a number that is finite. */
  predicate IsNumber(v: JsValue)
  {
    v.Num? && IsFinite(v.n)
  }

  /** `isString`. */
  predicate IsString(v: JsValue)
  {
    v.Str?
  }

  /** `isStringArray`: an array whose every element is a string. */
  predicate IsStringArray(v: JsValue)
  {
    v.Arr? && forall i :: 0 <= i < |v.items| ==> IsString(v.items[i])
  }

  /** `v == null`: loose equality holds for `null` and `undefined` alone. */
  predicate IsNullish(v: JsValue)
  {
    v.Undefined? || v.Null?
  }

  /** The strings held by an array of strings. */
  function StringsOf(items: seq<JsValue>): (r: seq<string>)
    requires forall i :: 0 <= i < |items| ==> items[i].Str?
    ensures |r| == |items|
    ensures forall i :: 0 <= i < |items| ==> items[i] == Str(r[i])
  {
    seq(|items|, i requires 0 <= i < |items| => items[i].s)
  }

  /** `toNumber`: a finite number as it is, a string whose conversion is
      finite as that number, anything else `undefined`. */
  function ToNumber(host: JsHost, v: JsValue): (r: Option<real>)
    ensures r.Some? <==> IsNumber(v) || (IsString(v) && IsFinite(host.number(v.s)))
    ensures IsNumber(v) ==> r == Some(v.n.value)
    ensures r.Some? && !IsNumber(v) ==> host.number(v.s) == Finite(r.value)
  {
    if IsNumber(v) then Some(v.n.value)
    else if IsString(v) then
      var num := host.number(v.s);
      if IsFinite(num) then Some(num.value) else None
    else None
  }

  /** `toStringVal`: `undefined` exactly for `null` and `undefined`, the
      value's string conversion otherwise; the conversion's type error,
      when it throws, propagates. */
  function ToStringVal(host: JsHost, v: JsValue): (r: Result<Option<string>, string>)
    ensures r.Failure? <==> StringThrows(host, v)
    ensures r.Failure? ==> r.error == host.stringOf(v).error
    ensures r.Success? ==> (r.value.None? <==> IsNullish(v))
    ensures r.Success? && !IsNullish(v) && !v.Str? ==> r.value == Some(host.stringOf(v).value)
    ensures IsString(v) ==> r == Success(Some(v.s))
  {
    if IsNullish(v) then Success(None)
    else
      match JsString(host, v)
      case Failure(e) => Failure(e)
      case Success(str) => Success(Some(str))
  }

  /** `toStringArrayVal`: an array of strings as it is, a string that parses
      as JSON to an array of strings as that array, anything else
      (a parse error included) `undefined`. */
  function ToStringArrayVal(host: JsHost, v: JsValue): (r: Option<seq<string>>)
    ensures IsStringArray(v) ==> r == Some(StringsOf(v.items))
    ensures IsString(v) ==>
              (r.Some? <==> host.parseJson(v.s).Some? && IsStringArray(host.parseJson(v.s).value))
    ensures IsString(v) && r.Some? ==> r.value == StringsOf(host.parseJson(v.s).value.items)
    ensures !IsStringArray(v) && !IsString(v) ==> r.None?
  {
    if IsNullish(v) then None
    else if IsStringArray(v) then Some(StringsOf(v.items))
    else if IsString(v) then
      match host.parseJson(v.s)
      case None => None
      case Some(arr) => if IsStringArray(arr) then Some(StringsOf(arr.items)) else None
    else None
  }

  /** The keys the decoder reads. */
  const OptionKeys: set<string> := {"bgColor", "crf", "preset", "threads", "workers", "extraFfmpegArgs"}

  /** `decodeOptions`: each field decoded from its own key. It throws
      exactly when the conversion of the `bgColor` or the `preset` value
      throws, `bgColor`'s error first. Otherwise a key that is absent gives
      an absent field, and a string under a string-valued key is kept as it
      is. */
  function Decode(host: JsHost, src: map<string, JsValue>): (r: Result<DecodedOptions, string>)
    ensures r.Failure? <==> StringThrows(host, Get(src, "bgColor")) || StringThrows(host, Get(src, "preset"))
    ensures r.Failure? ==>
              r.error == (if StringThrows(host, Get(src, "bgColor")) then host.stringOf(Get(src, "bgColor")).error
                          else host.stringOf(Get(src, "preset")).error)
    ensures r.Success? ==> var d := r.value;
      ("bgColor" !in src ==> d.bgColor.None?) &&
      ("crf" !in src ==> d.crf.None?) &&
      ("preset" !in src ==> d.preset.None?) &&
      ("threads" !in src ==> d.threads.None?) &&
      ("workers" !in src ==> d.workers.None?) &&
      ("extraFfmpegArgs" !in src ==> d.extraFfmpegArgs.None?) &&
      ("bgColor" in src && src["bgColor"].Str? ==> d.bgColor == Some(src["bgColor"].s)) &&
      ("preset" in src && src["preset"].Str? ==> d.preset == Some(src["preset"].s))
  {
    var bgColor := ToStringVal(host, Get(src, "bgColor"));
    var crf := ToNumber(host, Get(src, "crf"));
    var preset := ToStringVal(host, Get(src, "preset"));
    if bgColor.Failure? then Failure(bgColor.error)
    else if preset.Failure? then Failure(preset.error)
    else Success(DecodedOptions(
      bgColor.value, crf, preset.value,
      ToNumber(host, Get(src, "threads")),
      ToNumber(host, Get(src, "workers")),
      ToStringArrayVal(host, Get(src, "extraFfmpegArgs"))))
  }

  /** Two bodies that agree on a key give the same value for that key's
      field, whatever else they hold. */
  lemma FieldsIndependent(host: JsHost, a: map<string, JsValue>, b: map<string, JsValue>)
    requires Decode(host, a).Success? && Decode(host, b).Success?
    ensures Get(a, "bgColor") == Get(b, "bgColor") ==> Decode(host, a).value.bgColor == Decode(host, b).value.bgColor
    ensures Get(a, "crf") == Get(b, "crf") ==> Decode(host, a).value.crf == Decode(host, b).value.crf
    ensures Get(a, "preset") == Get(b, "preset") ==> Decode(host, a).value.preset == Decode(host, b).value.preset
    ensures Get(a, "threads") == Get(b, "threads") ==> Decode(host, a).value.threads == Decode(host, b).value.threads
    ensures Get(a, "workers") == Get(b, "workers") ==> Decode(host, a).value.workers == Decode(host, b).value.workers
    ensures Get(a, "extraFfmpegArgs") == Get(b, "extraFfmpegArgs") ==>
              Decode(host, a).value.extraFfmpegArgs == Decode(host, b).value.extraFfmpegArgs
  {
  }

  /** Whether decoding throws depends on the two string-valued keys alone. */
  lemma ThrowsOnlyOnStringKeys(host: JsHost, a: map<string, JsValue>, b: map<string, JsValue>)
    requires Get(a, "bgColor") == Get(b, "bgColor") && Get(a, "preset") == Get(b, "preset")
    ensures Decode(host, a).Failure? <==> Decode(host, b).Failure?
  {
  }

  /** A body with an object under `bgColor` whose conversion throws (one
      whose `toString` is a number, say) makes `decodeOptions` throw,
      whatever the rest of the body holds. */
  lemma ThrowingColorThrows(host: JsHost, src: map<string, JsValue>, o: map<string, JsValue>)
    requires "bgColor" in src && src["bgColor"] == Obj(o) && host.stringOf(Obj(o)).Failure?
    ensures Decode(host, src) == Failure(host.stringOf(Obj(o)).error)
  {
  }

  /** Keys other than the six (the body's `input`, say) play no part. */
  lemma IgnoresOtherKeys(host: JsHost, src: map<string, JsValue>)
    ensures Decode(host, src) == Decode(host, map k | k in src && k in OptionKeys :: src[k])
  {
    var r := map k | k in src && k in OptionKeys :: src[k];
    assert forall k :: k in OptionKeys ==> Get(r, k) == Get(src, k);
  }

  /** The body a well-typed client sends for a set of options: each present
      option under its key, numbers as numbers, strings as strings, the
      argument list as an array of strings. */
  function Encode(d: DecodedOptions): map<string, JsValue>
  {
    map k | k in OptionKeys && EncodedField(d, k).Some? :: EncodedField(d, k).value
  }

  /** The value a well-typed client sends under one key, if any. */
  function EncodedField(d: DecodedOptions, key: string): Option<JsValue>
  {
    match key
    case "bgColor" => if d.bgColor.Some? then Some(Str(d.bgColor.value)) else None
    case "crf" => if d.crf.Some? then Some(Num(Finite(d.crf.value))) else None
    case "preset" => if d.preset.Some? then Some(Str(d.preset.value)) else None
    case "threads" => if d.threads.Some? then Some(Num(Finite(d.threads.value))) else None
    case "workers" => if d.workers.Some? then Some(Num(Finite(d.workers.value))) else None
    case "extraFfmpegArgs" =>
      if d.extraFfmpegArgs.Some? then Some(Arr(StrItems(d.extraFfmpegArgs.value))) else None
    case _ => None
  }

  function StrItems(xs: seq<string>): (r: seq<JsValue>)
    ensures |r| == |xs| && forall i :: 0 <= i < |xs| ==> r[i] == Str(xs[i])
  {
    seq(|xs|, i requires 0 <= i < |xs| => Str(xs[i]))
  }

  /** Decoding a well-typed body gives back the options it was made from,
      whatever the host conversions do. */
  lemma DecodeEncode(host: JsHost, d: DecodedOptions)
    ensures Decode(host, Encode(d)) == Success(d)
  {
    var src := Encode(d);
    assert forall k :: k in OptionKeys ==> Get(src, k) == EncodedField(d, k).GetOr(Undefined);
    if d.extraFfmpegArgs.Some? {
      assert StringsOf(StrItems(d.extraFfmpegArgs.value)) == d.extraFfmpegArgs.value;
    }
  }

  /** An empty body decodes to no option at all. */
  lemma EmptyBodyDecodesToNothing(host: JsHost)
    ensures Decode(host, map[]) == Success(DecodedOptions(None, None, None, None, None, None))
  {
  }

  /** A field that reaches the renderer as a number is always finite: no
      `NaN` or infinity gets through, whichever way it was sent. */
  lemma NumbersAreFinite(host: JsHost, v: JsValue)
    ensures ToNumber(host, v).Some? ==>
              (v.Num? && v.n == Finite(ToNumber(host, v).value)) ||
              (v.Str? && host.number(v.s) == Finite(ToNumber(host, v).value))
  {
  }
}
