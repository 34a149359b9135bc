/** The FastAPI backend, backend/app.py: typed request bodies with
    defaults, `/detect` and `/translate` over langdetect and
    deep-translator, and the mapping of their exceptions to statuses.

    The request models are checked before a handler runs: `q` must be a
    string, and `source`, `target` and `format`, when present, must be
    strings too; anything else is FastAPI's 422. */
module Backend {
  import opened Values
  import Text
  import ProxyServer

  /** `TranslateRequest` once validated; `DetectRequest` is its `q`. */
  datatype Request = Request(q: string, source: string, target: string, format: string)

  datatype Validated = Valid(request: Request) | Invalid

  /** A string field as validation sees it: its value (the default when
      absent), or a type error. */
  datatype StringField = Accepted(value: string) | Rejected

  function ReadString(props: map<string, Value>, key: string, default: string): (r: StringField)
    ensures key !in props ==> r == Accepted(default)
    ensures key in props ==> (r.Accepted? <==> props[key].Str?)
    ensures r.Accepted? && key in props ==> r.value == props[key].s
  {
    if key !in props then Accepted(default)
    else if props[key].Str? then Accepted(props[key].s)
    else Rejected
  }

  /** Validation of a `/translate` body: a required string `q`, and
      string `source`, `target` and `format` defaulting to 'auto', 'en' and
      'text'. */
  function ValidateTranslate(body: RequestBody): (v: Validated)
    ensures v.Valid? <==>
      body.Parsed? && body.json.Obj? && "q" in body.json.props && body.json.props["q"].Str?
      && ReadString(body.json.props, "source", "auto").Accepted?
      && ReadString(body.json.props, "target", "en").Accepted?
      && ReadString(body.json.props, "format", "text").Accepted?
    ensures v.Valid? ==> v.request.q == body.json.props["q"].s
    ensures v.Valid? && "source" !in body.json.props ==> v.request.source == "auto"
    ensures v.Valid? && "target" !in body.json.props ==> v.request.target == "en"
    ensures v.Valid? && "format" !in body.json.props ==> v.request.format == "text"
    ensures v.Valid? && "source" in body.json.props ==> v.request.source == body.json.props["source"].s
    ensures v.Valid? && "target" in body.json.props ==> v.request.target == body.json.props["target"].s
    ensures v.Valid? && "format" in body.json.props ==> v.request.format == body.json.props["format"].s
  {
    if !body.Parsed? || !body.json.Obj? then Invalid
    else
      var props := body.json.props;
      if "q" !in props || !props["q"].Str? then Invalid
      else
        var source := ReadString(props, "source", "auto");
        var target := ReadString(props, "target", "en");
        var format := ReadString(props, "format", "text");
        if source.Rejected? || target.Rejected? || format.Rejected? then Invalid
        else Valid(Request(props["q"].s, source.value, target.value, format.value))
  }

  /** A handler's reply and the calls it made to detection and to the
      translator (source, target, text). */
  datatype Served = Served(reply: Reply, detectedOn: seq<string>, calls: seq<ProxyServer.Call>)

  function Detail(status: int, message: string): Reply {
    Json(status, Object1("detail", Str(message)))
  }

  /** The `/detect` reply once `q` is valid: `[]` for a blank `q` without
      asking the detector, otherwise the detector's code with no
      confidence. A LangDetectException is a 400 carrying its text; any
      other exception escapes the handler and is the framework's 500. */
  function DetectText(q: string, d: ProxyServer.Detection): (s: Served)
    ensures s.calls == []
    ensures Text.PyStrip(q) == [] <==> s.detectedOn == []
    ensures Text.PyStrip(q) == [] ==> s.reply == Json(200, Arr([]))
    ensures Text.PyStrip(q) != [] ==> s.detectedOn == [q]
    ensures Text.PyStrip(q) != [] && d.Lang? ==>
      s.reply == Json(200, Arr([Object2("language", Str(d.code), "confidence", Null)]))
    ensures Text.PyStrip(q) != [] && d.LangDetectFails? ==> s.reply == Detail(400, d.message)
    ensures Text.PyStrip(q) != [] && d.DetectUnexpected? ==> s.reply == FrameworkError(500)
  {
    if Text.PyStrip(q) == [] then Served(Json(200, Arr([])), [], [])
    else
      var reply :=
        match d
        case Lang(code) => Json(200, Arr([Object2("language", Str(code), "confidence", Null)]))
        case LangDetectFails(m) => Detail(400, m)
        case DetectUnexpected(_) => FrameworkError(500);
      Served(reply, [q], [])
  }

  /** `POST /detect`: validation, then `DetectText`. */
  function Detect(body: RequestBody, d: ProxyServer.Detection): (s: Served)
    ensures !(body.Parsed? && body.json.Obj? && "q" in body.json.props && body.json.props["q"].Str?) ==>
      s == Served(FrameworkError(422), [], [])
    ensures body.Parsed? && body.json.Obj? && "q" in body.json.props && body.json.props["q"].Str? ==>
      s == DetectText(body.json.props["q"].s, d)
  {
    if body.Parsed? && body.json.Obj? && "q" in body.json.props && body.json.props["q"].Str?
    then DetectText(body.json.props["q"].s, d)
    else Served(FrameworkError(422), [], [])
  }

  /** `src or 'auto'` where `src` is `None` for 'auto': the source the
      translator gets and the response reports. */
  function EffectiveSource(source: string): (s: string)
    ensures s != []
    ensures source == "auto" || source == [] <==> s == "auto"
    ensures source != [] ==> s == source
  {
    if source == "auto" || source == [] then "auto" else source
  }

  /** The `/translate` reply once the body is valid: a blank `q` is
      answered with an empty translation and no call; otherwise one call
      with the effective source and the target, and the reply echoes both.
      Any exception the translator raises is a 400 carrying its text. */
  function TranslateRequest(req: Request, t: ProxyServer.Translation): (s: Served)
    ensures s.detectedOn == []
    ensures Text.PyStrip(req.q) == [] <==> s.calls == []
    ensures Text.PyStrip(req.q) == [] ==> s.reply == Json(200, Object1("translatedText", Str("")))
    ensures Text.PyStrip(req.q) != [] ==>
      s.calls == [ProxyServer.Call(Str(EffectiveSource(req.source)), Str(req.target), Str(req.q))]
    ensures Text.PyStrip(req.q) != [] && t.Translated? ==>
      s.reply == Json(200, Object3("translatedText", t.text, "src", Str(EffectiveSource(req.source)), "dest", Str(req.target)))
    ensures Text.PyStrip(req.q) != [] && t.TranslateRaises? ==> s.reply == Detail(400, t.message)
  {
    if Text.PyStrip(req.q) == [] then Served(Json(200, Object1("translatedText", Str(""))), [], [])
    else
      var src := EffectiveSource(req.source);
      var reply :=
        match t
        case Translated(text) => Json(200, Object3("translatedText", text, "src", Str(src), "dest", Str(req.target)))
        case TranslateRaises(m) => Detail(400, m);
      Served(reply, [], [ProxyServer.Call(Str(src), Str(req.target), Str(req.q))])
  }

  /** `POST /translate`: validation, then `TranslateRequest`. */
  function Translate(body: RequestBody, t: ProxyServer.Translation): (s: Served)
    ensures ValidateTranslate(body).Invalid? ==> s == Served(FrameworkError(422), [], [])
    ensures ValidateTranslate(body).Valid? ==> s == TranslateRequest(ValidateTranslate(body).request, t)
  {
    match ValidateTranslate(body)
    case Invalid => Served(FrameworkError(422), [], [])
    case Valid(req) => TranslateRequest(req, t)
  }

  /** With no `source` in the body the translator is asked for 'auto' and
      the reply says so; the target defaults to 'en' the same way. */
  lemma DefaultsReachTranslator(q: string, t: ProxyServer.Translation)
    requires Text.PyStrip(q) != []
    ensures var s := Translate(Parsed(Obj(map["q" := Str(q)])), t);
      s.calls == [ProxyServer.Call(Str("auto"), Str("en"), Str(q))]
      && s.detectedOn == []
  {
  }

  /** Where this backend and the proxy part ways: a `q` of spaces is `[]`
      here without detection, while the proxy hands it to the detector; an
      'auto' source goes to the translator as 'auto' here, while the proxy
      runs detection first. */
  lemma DiffersFromProxy(spaces: string, q: string, d: ProxyServer.Detection, t: ProxyServer.Translation)
    requires spaces != [] && Text.AllSpace(spaces, Text.IsPySpace)
    requires q != "" && Text.PyStrip(q) != []
    ensures Detect(Parsed(Obj(map["q" := Str(spaces)])), d).detectedOn == []
    ensures ProxyServer.DetectRoute(Parsed(Obj(map["q" := Str(spaces)])), d).detectedOn == [Str(spaces)]
    ensures Translate(Parsed(Obj(map["q" := Str(q)])), t).detectedOn == []
    ensures ProxyServer.TranslateRoute(Parsed(Obj(map["q" := Str(q)])), d, t).detectedOn == [Str(q)]
  {
    Text.TrimEmptyIffAllSpace(spaces, Text.IsPySpace);
  }
}
