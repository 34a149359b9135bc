/** The companion client, components/translator/TranslatorClient.tsx. It
    talks to a public LibreTranslate endpoint with one plain `fetch` per
    request (no retry, no status check) and keeps a smaller page state. Its
    speech stitching appends to the input (`Speech.Append`) and its
    recogniser guards are the main client's (`Speech.StartSpeech`,
    `Speech.StopSpeech`). */
module Companion {
  import opened Values
  import opened Fetch
  import Client

  datatype State = State(status: string, detectedLang: Value, translation: Value, input: string)

  /** What `onTranslate` did: the new state and the bodies it sent. */
  datatype Flow = Flow(state: State, sent: seq<Value>)

  /** `detectLanguage(text)`: nothing for empty or blank text; otherwise
      one request, and `data[0].language` when the body is an array with a
      truthy first element. Every failure, whatever the status, is `null`. */
  function DetectLanguage(text: string, outcome: Outcome): (r: Client.Step)
    ensures Client.Blank(text) <==> r.sent == []
    ensures Client.Blank(text) ==> r == Client.Step(Null, [], [])
    ensures !Client.Blank(text) ==> r.statuses == ["Detecting language..."]
    ensures r.value != Null ==>
      outcome.Responded? && outcome.response.body.JsonBody?
      && HasTruthyFirst(outcome.response.body.value)
      && r.value == FirstLanguage(outcome.response.body.value)
    ensures (!Client.Blank(text) && outcome.Responded? && outcome.response.body.JsonBody?
             && HasTruthyFirst(outcome.response.body.value)) ==>
      r.value == FirstLanguage(outcome.response.body.value)
  {
    if text == "" || Client.Blank(text) then Client.Step(Null, [], [])
    else
      var sent := [Object1("q", Str(text))];
      var value :=
        match outcome
        case Threw(_) => Null
        case Responded(res) =>
          match res.body
          case NotJson => Null
          case JsonBody(data) => if HasTruthyFirst(data) then FirstLanguage(data) else Null;
      Client.Step(value, ["Detecting language..."], sent)
  }

  /** The body `translate` posts: `source || 'auto'` and plain-text format. */
  function TranslateBody(text: string, source: Value, target: string): Value {
    Obj(map["q" := Str(text), "source" := JsOr(source, Str("auto")), "target" := Str(target), "format" := Str("text")])
  }

  /** `translate(text, source, target)`: always one request, blank text
      included; `data.translatedText` when the body is truthy and so is
      that field, otherwise `null`. */
  function Translate(text: string, source: Value, target: string, outcome: Outcome): (r: Client.Step)
    ensures r.sent == [TranslateBody(text, source, target)]
    ensures r.statuses == ["Translating..."]
    ensures r.value != Null <==>
      outcome.Responded? && outcome.response.body.JsonBody?
      && JsTruthy(outcome.response.body.value)
      && JsTruthy(GetProp(outcome.response.body.value, "translatedText").value)
    ensures r.value != Null ==> r.value == GetProp(outcome.response.body.value, "translatedText").value
  {
    var value :=
      match outcome
      case Threw(_) => Null
      case Responded(res) =>
        match res.body
        case NotJson => Null
        case JsonBody(data) =>
          if JsTruthy(data) && JsTruthy(GetProp(data, "translatedText").value)
          then GetProp(data, "translatedText").value else Null;
    Client.Step(value, ["Translating..."], [TranslateBody(text, source, target)])
  }

  /** `onDetect()`: the detected language, or 'unknown' when detection
      gave nothing. */
  function OnDetect(s: State, outcome: Outcome): (t: State)
    ensures t.status == "Language detection done" && JsTruthy(t.detectedLang)
    ensures t.translation == s.translation && t.input == s.input
    ensures JsTruthy(DetectLanguage(s.input, outcome).value) ==> t.detectedLang == DetectLanguage(s.input, outcome).value
    ensures !JsTruthy(DetectLanguage(s.input, outcome).value) ==> t.detectedLang == Str("unknown")
  {
    var lang := DetectLanguage(s.input, outcome);
    s.(detectedLang := JsOr(lang.value, Str("unknown")), status := "Language detection done")
  }

  /** `onTranslate(target)`: detection, then translation from the detected
      language or 'auto'; fallbacks 'unknown' and 'Translation failed'; the
      status always ends as 'Translation complete'. */
  function OnTranslate(s: State, target: string, detectOutcome: Outcome, translateOutcome: Outcome): (f: Flow)
    ensures f.state.status == "Translation complete"
    ensures JsTruthy(f.state.translation) && JsTruthy(f.state.detectedLang)
    ensures f.state.input == s.input
    ensures var d := DetectLanguage(s.input, detectOutcome).value;
      (JsTruthy(d) ==> f.state.detectedLang == d) && (!JsTruthy(d) ==> f.state.detectedLang == Str("unknown"))
    ensures var d := DetectLanguage(s.input, detectOutcome).value;
      var tr := Translate(s.input, JsOr(d, Str("auto")), target, translateOutcome).value;
      (JsTruthy(tr) ==> f.state.translation == tr) && (!JsTruthy(tr) ==> f.state.translation == Str("Translation failed"))
    ensures |f.sent| >= 1
    ensures f.sent[|f.sent| - 1] == TranslateBody(s.input, JsOr(DetectLanguage(s.input, detectOutcome).value, Str("auto")), target)
    ensures DetectLanguage(s.input, detectOutcome).value == Null ==>
      f.sent[|f.sent| - 1] == TranslateBody(s.input, Str("auto"), target)
  {
    var detected := DetectLanguage(s.input, detectOutcome);
    var translated := Translate(s.input, JsOr(detected.value, Str("auto")), target, translateOutcome);
    var t := s.(
      detectedLang := JsOr(detected.value, Str("unknown")),
      translation := JsOr(translated.value, Str("Translation failed")),
      status := "Translation complete");
    Flow(t, detected.sent + translated.sent)
  }

  /** The source sent is never empty or null: `source || 'auto'`. */
  lemma SourceAlwaysSet(text: string, source: Value, target: string)
    ensures var b := TranslateBody(text, source, target);
      "source" in b.props && JsTruthy(b.props["source"])
      && (JsTruthy(source) ==> b.props["source"] == source)
  {
  }

  /** Blank input still sends a translation request, from 'auto', and
      shows a successful status whatever came back. */
  lemma BlankInputStillTranslates(s: State, target: string, d: Outcome, o: Outcome)
    requires Client.Blank(s.input)
    ensures var f := OnTranslate(s, target, d, o);
      f.sent == [TranslateBody(s.input, Str("auto"), target)]
      && f.state.detectedLang == Str("unknown") && f.state.status == "Translation complete"
  {
  }

  /** Unlike the main client, a failed reply is never told apart from a
      missing translation: any non-JSON body or thrown error shows the same
      fallback as an empty `translatedText`. */
  lemma FailuresLookAlike(s: State, target: string, d: Outcome, e: Error, res: Response)
    requires res.body.NotJson?
    ensures OnTranslate(s, target, d, Threw(e)).state == OnTranslate(s, target, d, Responded(res)).state
    ensures OnTranslate(s, target, d, Threw(e)).state.translation == Str("Translation failed")
  {
  }
}
