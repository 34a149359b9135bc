/** The translation proxy, python_server/server.py: `/detect` and
    `/translate` in front of langdetect and deep-translator. Neither handler
    strips `q`, and `/translate` resolves an automatic source language by
    running detection first.

    Detection and translation are inputs: what `detect(q)` does, and what
    the translator built for the resolved source does with `q`. The body is
    read outside the handlers' `try`, so a body Flask cannot parse and one
    that is not an object end in the framework's own error pages. */
module ProxyServer {
  import opened Values

  /** What `detect(q)` does. */
  datatype Detection = Lang(code: string) | LangDetectFails(message: string) | DetectUnexpected(message: string)

  /** What `GoogleTranslator(...).translate(q)` does. */
  datatype Translation = Translated(text: Value) | TranslateRaises(message: string)

  /** A translator built with a source and target and asked to translate. */
  datatype Call = Call(source: Value, target: Value, text: Value)

  /** A handler's reply, the values it handed to `detect`, and the
      translator calls it made. */
  datatype Routed = Routed(reply: Reply, detectedOn: seq<Value>, calls: seq<Call>)

  /** `body.get(key, default)` on a parsed object. */
  function BodyGet(data: Value, key: string, default: Value): (r: Value)
    requires IsJson(data) && data.Obj? && IsJson(default)
    ensures IsJson(r)
    ensures key in data.props ==> r == data.props[key]
    ensures key !in data.props ==> r == default
  {
    assert key in data.props ==> IsJson(data.props[key]);
    PyGet(data.props, key, default)
  }

  /** `body.get(...)` on a body that is not an object raises outside the
      `try`, and so does a body `get_json(force=True)` rejects. */
  function Unread(body: RequestBody): (r: Routed)
    requires body.Unparsable? || !body.json.Obj?
    ensures r.detectedOn == [] && r.calls == []
    ensures body.Unparsable? <==> r.reply == FrameworkError(400)
    ensures r.reply.FrameworkError? && r.reply.status in {400, 500}
  {
    Routed(FrameworkError(if body.Unparsable? then 400 else 500), [], [])
  }

  function Failure(error: string, details: string): Reply {
    Json(500, Object2("error", Str(error), "details", Str(details)))
  }

  /** The `/detect` reply to a detection: the code with no confidence, or
      500 naming the kind of failure. */
  function DetectReply(d: Detection): (r: Reply)
    ensures r.Json? && (r.status == 200 <==> d.Lang?)
    ensures d.Lang? ==> r.body == Arr([Object2("language", Str(d.code), "confidence", Null)])
    ensures d.LangDetectFails? ==> r == Failure("detect failed", d.message)
    ensures d.DetectUnexpected? ==> r == Failure("detect unexpected error", d.message)
  {
    match d
    case Lang(code) => Json(200, Arr([Object2("language", Str(code), "confidence", Null)]))
    case LangDetectFails(m) => Failure("detect failed", m)
    case DetectUnexpected(m) => Failure("detect unexpected error", m)
  }

  /** `POST /detect`: a falsy `q` (missing, empty, null, zero...) is
      answered `[]`; every other `q`, whitespace included, goes to the
      detector as it is. */
  function DetectRoute(body: RequestBody, d: Detection): (r: Routed)
    requires body.Parsed? ==> IsJson(body.json)
    ensures r.calls == []
    ensures body.Unparsable? || !body.json.Obj? ==> r == Unread(body)
    ensures body.Parsed? && body.json.Obj? ==>
      var q := BodyGet(body.json, "q", Str(""));
      (PyTruthy(q) <==> r.detectedOn == [q])
      && (!PyTruthy(q) ==> r == Routed(Json(200, Arr([])), [], []))
      && (PyTruthy(q) ==> r.reply == DetectReply(d))
  {
    if body.Unparsable? || !body.json.Obj? then Unread(body)
    else
      var q := BodyGet(body.json, "q", Str(""));
      if !PyTruthy(q) then Routed(Json(200, Arr([])), [], [])
      else Routed(DetectReply(d), [q], [])
  }

  /** The source the translator is built with: a truthy source other than
      'auto' as given; otherwise the detected language, or 'auto' when
      detection raises. Detection runs only in the second case. */
  function ResolveSource(source: Value, q: Value, d: Detection): (r: (Value, seq<Value>))
    requires IsJson(source)
    ensures PyTruthy(source) && source != Str("auto") <==> r.1 == []
    ensures r.1 == [] ==> r.0 == source
    ensures r.1 != [] ==> r.1 == [q] && r.0.Str?
    ensures r.1 != [] ==> (r.0 == Str("auto") <==> !d.Lang? || d.code == "auto")
  {
    if PyTruthy(source) && source != Str("auto") then (source, [])
    else
      match d
      case Lang(code) => (Str(code), [q])
      case _ => (Str("auto"), [q])
  }

  /** `used_src`: 'auto' for an 'auto' or missing source, the source
      itself otherwise. */
  function UsedSource(src: Value): (u: Value)
    ensures src == Null ==> u == Str("auto")
    ensures src != Null ==> u == src
  {
    if src == Str("auto") || src == Null then Str("auto") else src
  }

  /** `POST /translate`: only an explicit `null` `q` short-circuits; the
      source is resolved, one translator is built and called, and its text
      comes back with the source used and the target as `dest`. */
  function TranslateRoute(body: RequestBody, d: Detection, t: Translation): (r: Routed)
    requires body.Parsed? ==> IsJson(body.json)
    ensures body.Unparsable? || !body.json.Obj? ==> r == Unread(body)
    ensures body.Parsed? && body.json.Obj? && BodyGet(body.json, "q", Str("")) == Null ==>
      r == Routed(Json(200, Object1("translatedText", Str(""))), [], [])
    ensures body.Parsed? && body.json.Obj? && BodyGet(body.json, "q", Str("")) != Null ==>
      var q := BodyGet(body.json, "q", Str(""));
      var target := BodyGet(body.json, "target", Str("en"));
      var (src, detectedOn) := ResolveSource(BodyGet(body.json, "source", Str("auto")), q, d);
      r.detectedOn == detectedOn && r.calls == [Call(UsedSource(src), target, q)]
      && r.reply == TranslateReply(UsedSource(src), target, t)
  {
    if body.Unparsable? || !body.json.Obj? then Unread(body)
    else
      var q := BodyGet(body.json, "q", Str(""));
      var source := BodyGet(body.json, "source", Str("auto"));
      var target := BodyGet(body.json, "target", Str("en"));
      if q == Null then Routed(Json(200, Object1("translatedText", Str(""))), [], [])
      else
        var (src, detectedOn) := ResolveSource(source, q, d);
        Routed(TranslateReply(UsedSource(src), target, t), detectedOn, [Call(UsedSource(src), target, q)])
  }

  /** The `/translate` reply: the text, the source used and the target, or
      500 'translate failed' with the exception's text. */
  function TranslateReply(used: Value, target: Value, t: Translation): (r: Reply)
    ensures r.Json? && (r.status == 200 <==> t.Translated?)
    ensures t.Translated? ==> r.body == Object3("translatedText", t.text, "src", used, "dest", target)
    ensures t.TranslateRaises? ==> r == Failure("translate failed", t.message)
  {
    match t
    case Translated(text) => Json(200, Object3("translatedText", text, "src", used, "dest", target))
    case TranslateRaises(m) => Failure("translate failed", m)
  }

  /** The source reported back is the source the translator was built
      with, and it is never null; a source given explicitly is echoed
      verbatim, and otherwise the detected code or 'auto' is. */
  lemma EchoedSourceIsUsed(source: Value, q: Value, d: Detection)
    requires IsJson(source)
    ensures var u := UsedSource(ResolveSource(source, q, d).0);
      u != Null
      && (PyTruthy(source) && source != Str("auto") ==> u == source)
      && (!PyTruthy(source) || source == Str("auto") ==>
            u == (if d.Lang? then Str(d.code) else Str("auto")))
  {
  }

  /** Whitespace is not stripped: a `q` of spaces is sent to the detector
      and answered with whatever it says, never with `[]` unasked. */
  lemma WhitespaceReachesDetector(props: map<string, Value>, spaces: string, d: Detection)
    requires forall k :: k in props ==> IsJson(props[k])
    requires props == map["q" := Str(spaces)] && spaces != []
    ensures DetectRoute(Parsed(Obj(props)), d) == Routed(DetectReply(d), [Str(spaces)], [])
  {
  }

  /** A missing `q` is not the null short-circuit: it defaults to '' and
      the empty text goes to the translator. */
  lemma MissingTextStillTranslated(props: map<string, Value>, d: Detection, t: Translation)
    requires forall k :: k in props ==> IsJson(props[k])
    requires "q" !in props
    ensures var r := TranslateRoute(Parsed(Obj(props)), d, t);
      |r.calls| == 1 && r.calls[0].text == Str("")
  {
  }

  /** The `dest` of every translation is the request's target, 'en' when
      it has none. */
  lemma DestEchoesTarget(props: map<string, Value>, d: Detection, text: Value)
    requires forall k :: k in props ==> IsJson(props[k])
    requires "q" !in props || props["q"] != Null
    ensures var r := TranslateRoute(Parsed(Obj(props)), d, Translated(text));
      r.reply.Json? && r.reply.status == 200 && |r.calls| == 1
      && r.calls[0].target == (if "target" in props then props["target"] else Str("en"))
  {
  }
}
