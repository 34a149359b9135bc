/** The main browser client, app/translator-client.tsx: language detection
    and translation against the local Python server through the live
    `fetchWithRetry`, the handlers that chain them into the page state, the
    backend test and the bounded history.

    Each asynchronous helper is a function of its inputs and of the network
    outcomes it would meet; it returns its value, the status lines it sets
    in order, and the JSON bodies it sends. A handler folds those into the
    page state. Overlapping clicks are not modelled. */
module Client {
  import opened Values
  import Text
  import opened Fetch
  import opened Retry
  import Discovery

  /** One history entry: the input text and its translation. */
  datatype Entry = Entry(src: string, dst: Value)

  /** The page state. `detectedLang` and `translation` hold whatever the
      server's JSON put there; the placeholder is the dash "—". */
  datatype State = State(
    apiPort: int,
    status: string,
    detectedLang: Value,
    translation: Value,
    history: seq<Entry>,
    input: string)

  const Dash := "—"

  /** The state at mount. */
  const Initial := State(Discovery.Ports[0], "Ready", Str(Dash), Str(Dash), [], "")

  /** What an asynchronous helper did. */
  datatype Step = Step(value: Value, statuses: seq<string>, sent: seq<Value>)

  /** The status after a sequence of `setStatus` calls. */
  function LastStatus(status: string, statuses: seq<string>): (s: string)
    ensures statuses == [] ==> s == status
    ensures statuses != [] ==> s == statuses[|statuses| - 1]
  {
    if statuses == [] then status else statuses[|statuses| - 1]
  }

  /** `!text.trim()`: empty after removing ECMAScript white space. */
  predicate Blank(text: string) {
    Text.JsTrim(text) == []
  }

  const Detecting := "Detecting language..."
  const CannotReach := "Cannot reach language service (port 5001) — check Python server"
  const OfflineDetect := "Offline — please check your network"
  const UnknownError := "Unknown error"

  /** `res.json()` where a rejection is caught and replaced by `fallback`. */
  function JsonOr(b: Body, fallback: Value): Value {
    match b
    case JsonBody(v) => v
    case NotJson => fallback
  }

  /** The status `detectLanguage` sets for a non-ok reply: its `detail`, or
      'Unknown error' when there is none. A body that is not JSON is read as
      `{}`; a `null` body makes the read of `detail` throw, which the outer
      catch reports as an unreachable service. */
  function FailureStatus(b: Body): string {
    match GetProp(JsonOr(b, Obj(map[])), "detail")
    case TypeError => CannotReach
    case Got(detail) => "Detection failed: " + JsToString(JsOr(detail, Str(UnknownError)))
  }

  /** `detectLanguage(text)`: up to 3 attempts with a 400 ms backoff. A
      non-ok reply reports its `detail` (a body that is not JSON counts as
      `{}`, so 'Unknown error'); an ok JSON reply gives `data[0].language`
      when the body is an array with a truthy first element and `null`
      otherwise, `null` included, with no further status. Three thrown
      attempts, an ok reply that is not JSON, or a non-ok body of `null`
      (whose `detail` cannot be read) are reported as an unreachable
      service. */
  function DetectLanguage(text: string, online: bool, outcomes: seq<Outcome>): (r: Step)
    requires 3 <= |outcomes|
    ensures Blank(text) ==> r == Step(Null, [], [])
    ensures !Blank(text) && !online ==> r == Step(Null, [OfflineDetect], [])
    ensures !Blank(text) && online ==>
      r.sent == [Object1("q", Str(text))] && |r.statuses| >= 1 && r.statuses[0] == Detecting
    ensures r.value != Null ==> !Blank(text) && online
  {
    if text == "" || Blank(text) then Step(Null, [], [])
    else if !online then Step(Null, [OfflineDetect], [])
    else
      var sent := [Object1("q", Str(text))];
      match FetchWithRetry(outcomes, 3, 400).result
      case Threw(_) => Step(Null, [Detecting, CannotReach], sent)
      case Responded(res) =>
        if !Ok(res) then Step(Null, [Detecting, FailureStatus(res.body)], sent)
        else
          match res.body
          case NotJson => Step(Null, [Detecting, CannotReach], sent)
          case JsonBody(data) =>
            Step(if HasTruthyFirst(data) then FirstLanguage(data) else Null, [Detecting], sent)
  }

  const Connecting := "Connecting to translation service..."
  const ServiceError := "Translation service error - check if Python server is running"

  /** The body `translateText` posts: `source || 'auto'`. */
  function TranslateBody(text: string, source: Value, target: string): Value {
    Object3("q", Str(text), "source", JsOr(source, Str("auto")), "target", Str(target))
  }

  /** How `translateText` reads the outcome of its request: the reply's
      status is not looked at; a body with a truthy `error` fails with it, a
      falsy `translatedText` is an empty result, and a thrown error, a body
      that is not JSON or a `null` body is a service error. */
  function ReadTranslation(result: Outcome): (r: (Value, string))
    ensures r.0 != Null ==> JsTruthy(r.0) && r.1 == "Translation complete"
  {
    match result
    case Threw(_) => (Null, ServiceError)
    case Responded(res) =>
      match res.body
      case NotJson => (Null, ServiceError)
      case JsonBody(data) =>
        match GetProp(data, "error")
        case TypeError => (Null, ServiceError)
        case Got(err) =>
          if JsTruthy(err) then (Null, "Translation failed: " + JsToString(err))
          else
            var translated := GetProp(data, "translatedText").value;
            if !JsTruthy(translated) then (Null, "Translation returned empty result")
            else (translated, "Translation complete")
  }

  /** `translateText(text, source, target)`: nothing for blank text,
      otherwise one request with up to 3 attempts and the default 500 ms
      backoff. */
  function TranslateText(text: string, source: Value, target: string, outcomes: seq<Outcome>): (r: Step)
    requires 3 <= |outcomes|
    ensures Blank(text) <==> r.sent == []
    ensures Blank(text) ==> r == Step(Null, [], [])
    ensures !Blank(text) ==>
      r.sent == [TranslateBody(text, source, target)] && |r.statuses| == 2 && r.statuses[0] == Connecting
    ensures r.value != Null ==> JsTruthy(r.value) && r.statuses == [Connecting, "Translation complete"]
  {
    if Blank(text) then Step(Null, [], [])
    else
      var read := ReadTranslation(FetchWithRetry(outcomes, 3, 500).result);
      Step(read.0, [Connecting, read.1], [TranslateBody(text, source, target)])
  }

  /** The history after a translation: the new entry first, then the
      previous entries, at most ten in all (`[e, ...h].slice(0, 10)`). */
  function Prepend(history: seq<Entry>, e: Entry): (h: seq<Entry>)
    ensures |h| == if |history| < 10 then |history| + 1 else 10
    ensures h[0] == e
    ensures forall i :: 1 <= i < |h| ==> h[i] == history[i - 1]
  {
    var all := [e] + history;
    if |all| <= 10 then all else all[..10]
  }

  /** `handleDetect()`. */
  function HandleDetect(s: State, online: bool, outcomes: seq<Outcome>): (t: State)
    requires 3 <= |outcomes|
    ensures t.status == "Language detection done"
    ensures t.history == s.history && t.translation == s.translation && t.apiPort == s.apiPort
    ensures JsTruthy(t.detectedLang)
    ensures var d := DetectLanguage(s.input, online, outcomes).value;
      (JsTruthy(d) ==> t.detectedLang == d) && (!JsTruthy(d) ==> t.detectedLang == Str("unknown"))
  {
    var lang := DetectLanguage(s.input, online, outcomes);
    s.(detectedLang := JsOr(lang.value, Str("unknown")), status := "Language detection done")
  }

  /** What a handler that chains detection and translation did. */
  datatype Flow = Flow(state: State, sent: seq<Value>)

  /** `handleTranslate(target)`: detect, then translate from the detected
      language (`detected || 'auto'`); a truthy translation is shown and
      entered in the history, anything else shows 'Translation failed'.
      Neither helper throws, so the flow's own catch is never reached. */
  function HandleTranslate(s: State, target: string, online: bool,
                           detectOutcomes: seq<Outcome>, translateOutcomes: seq<Outcome>): (f: Flow)
    requires 3 <= |detectOutcomes| && 3 <= |translateOutcomes|
    ensures Blank(s.input) ==> f == Flow(s.(status := "Please enter text to translate"), [])
    ensures f.state.apiPort == s.apiPort && f.state.input == s.input
    ensures |f.state.history| <= 10 || f.state.history == s.history
    ensures f.state.history != s.history ==>
      f.state.history == Prepend(s.history, Entry(s.input, f.state.translation))
    ensures !Blank(s.input) ==>
      var d := DetectLanguage(s.input, online, detectOutcomes).value;
      var tr := TranslateText(s.input, JsOr(d, Str("auto")), target, translateOutcomes).value;
      (JsTruthy(d) ==> f.state.detectedLang == d) && (!JsTruthy(d) ==> f.state.detectedLang == Str("unknown"))
      && (JsTruthy(tr) ==> f.state.translation == tr && f.state.history == Prepend(s.history, Entry(s.input, tr)))
      && (!JsTruthy(tr) ==> f.state.translation == Str("Translation failed") && f.state.history == s.history)
  {
    var txt := s.input;
    if Blank(txt) then Flow(s.(status := "Please enter text to translate"), [])
    else
      var detected := DetectLanguage(txt, online, detectOutcomes);
      var translated := TranslateText(txt, JsOr(detected.value, Str("auto")), target, translateOutcomes);
      var statuses := [Detecting] + detected.statuses + translated.statuses;
      var shown := s.(detectedLang := JsOr(detected.value, Str("unknown")), status := LastStatus(s.status, statuses));
      var t :=
        if JsTruthy(translated.value) then
          shown.(translation := translated.value, history := Prepend(s.history, Entry(txt, translated.value)))
        else shown.(translation := Str("Translation failed"));
      Flow(t, detected.sent + translated.sent)
  }

  /** The OCR step, whose engine is outside the model: no file chosen, the
      engine script failed to load, recognition threw, or the text read. */
  datatype Ocr = NoFile | EngineMissing | OcrThrew | Recognized(text: string)

  /** `handleOCRAndTranslate(target)`: after recognition the text replaces
      the input and goes through detection and translation like typed text,
      except that a blank text still ends with the completion status. */
  function HandleOcr(s: State, ocr: Ocr, target: string, online: bool,
                     detectOutcomes: seq<Outcome>, translateOutcomes: seq<Outcome>): (f: Flow)
    requires 3 <= |detectOutcomes| && 3 <= |translateOutcomes|
    ensures !ocr.Recognized? ==> f.sent == [] && f.state.history == s.history
    ensures ocr.Recognized? ==> f.state.input == ocr.text && f.state.status == "OCR + Translation complete"
    ensures ocr.Recognized? && Blank(ocr.text) ==>
      f.sent == [] && f.state.translation == Str("Translation failed") && f.state.detectedLang == Str("unknown")
    ensures f.state.history != s.history ==>
      f.state.history == Prepend(s.history, Entry(f.state.input, f.state.translation))
    ensures ocr.Recognized? ==>
      var d := DetectLanguage(ocr.text, online, detectOutcomes).value;
      var tr := TranslateText(ocr.text, JsOr(d, Str("auto")), target, translateOutcomes).value;
      (JsTruthy(d) ==> f.state.detectedLang == d) && (!JsTruthy(d) ==> f.state.detectedLang == Str("unknown"))
      && (JsTruthy(tr) ==> f.state.translation == tr && f.state.history == Prepend(s.history, Entry(ocr.text, tr)))
      && (!JsTruthy(tr) ==> f.state.translation == Str("Translation failed") && f.state.history == s.history)
  {
    match ocr
    case NoFile => Flow(s.(status := "Please select an image first"), [])
    case EngineMissing => Flow(s.(status := "Failed to load OCR engine"), [])
    case OcrThrew => Flow(s.(status := "OCR failed"), [])
    case Recognized(text) =>
      var lang := DetectLanguage(text, online, detectOutcomes);
      var translated := TranslateText(text, JsOr(lang.value, Str("auto")), target, translateOutcomes);
      var t := s.(
        input := text,
        detectedLang := JsOr(lang.value, Str("unknown")),
        translation := JsOr(translated.value, Str("Translation failed")),
        history := if JsTruthy(translated.value) then Prepend(s.history, Entry(text, translated.value)) else s.history,
        status := "OCR + Translation complete");
      Flow(t, lang.sent + translated.sent)
  }

  const Unreachable := "Backend unreachable — start Python server and ensure firewall allows localhost:5000"

  /** What `testBackend()` did: the new state, and the port its test
      request went to, if it sent one. */
  datatype Test = Test(state: State, requestPorts: seq<int>)

  /** `data?.status`. */
  function OptionalStatus(data: Value): Value {
    if data.Undefined? || data.Null? then Undefined else GetProp(data, "status").value
  }

  /** `testBackend()`: probe the candidate ports, then GET `/` with 2
      attempts and a 300 ms backoff. The request URL was built from the
      port in effect when the test started, so a port found by this very
      probe is used only by later requests. */
  function TestBackend(s: State, online: bool, probes: seq<Outcome>, outcomes: seq<Outcome>): (t: Test)
    requires |probes| == |Discovery.Ports| && 2 <= |outcomes|
    ensures t.requestPorts == [] || t.requestPorts == [s.apiPort]
    ensures t.requestPorts != [] <==> online && Discovery.FindWorkingPort(probes).found
    ensures t.state.apiPort == Discovery.NextApiPort(s.apiPort, Discovery.FindWorkingPort(probes)) || !online
    ensures !online ==> t.state == s.(status := "Offline — check your network")
  {
    if !online then Test(s.(status := "Offline — check your network"), [])
    else
      var f := Discovery.FindWorkingPort(probes);
      if !f.found then Test(s.(status := "Could not find running Python server on any port"), [])
      else
        var moved := s.(apiPort := f.port);
        var status :=
          match FetchWithRetry(outcomes, 2, 300).result
          case Threw(_) => Unreachable
          case Responded(res) =>
            if !Ok(res) then "Backend responded with error"
            else if OptionalStatus(JsonOr(res.body, Null)) == Str("ok") then "Backend reachable"
            else "Backend reachable (unexpected response)";
        Test(moved.(status := status), [s.apiPort])
  }

  /** The online/offline listener. */
  function UpdateOnline(s: State, online: bool): (t: State)
    ensures t.status == (if online then "Ready" else "Offline — check network")
    ensures t.(status := s.status) == s
  {
    s.(status := if online then "Ready" else "Offline — check network")
  }

  /** `clearInput()`: the input, translation and detected language go back
      to their initial values; the history and port stay. */
  function ClearInput(s: State): (t: State)
    ensures t.(apiPort := Initial.apiPort, history := []) == Initial
    ensures t.history == s.history && t.apiPort == s.apiPort
  {
    s.(input := "", translation := Str(Dash), detectedLang := Str(Dash), status := "Ready")
  }

  /** The history never holds more than ten entries, whatever sequence of
      translations produced it, and the newest is first. */
  lemma {:induction false} HistoryBounded(h: seq<Entry>, es: seq<Entry>)
    requires |h| <= 10
    ensures |Fold(h, es)| <= 10
    ensures es != [] ==> Fold(h, es)[0] == es[|es| - 1]
    decreases |es|
  {
    if es != [] {
      HistoryBounded(h, es[..|es| - 1]);
    }
  }

  /** The history after entering `es` in order, starting from `h`. */
  function Fold(h: seq<Entry>, es: seq<Entry>): seq<Entry> {
    if es == [] then h else Prepend(Fold(h, es[..|es| - 1]), es[|es| - 1])
  }

  /** After ten or more translations the history is exactly the last ten,
      newest first: nothing older survives. */
  lemma {:induction false} HistoryKeepsLastTen(h: seq<Entry>, es: seq<Entry>, i: nat)
    requires i < |Fold(h, es)| && i < |es|
    ensures Fold(h, es)[i] == es[|es| - 1 - i]
    decreases |es|
  {
    if i > 0 {
      HistoryKeepsLastTen(h, es[..|es| - 1], i - 1);
    }
  }

  /** A null or missing source is sent as 'auto'; a truthy one as is. */
  lemma SourceDefaultsToAuto(text: string, source: Value, target: string)
    ensures !JsTruthy(source) ==> TranslateBody(text, source, target).props["source"] == Str("auto")
    ensures JsTruthy(source) ==> TranslateBody(text, source, target).props["source"] == source
  {
  }

  /** The reply `detectLanguage` reads is the first one to arrive, on
      attempt `k` after `k` thrown attempts. */
  predicate FirstReplyAt(outcomes: seq<Outcome>, k: nat) {
    k < 3 <= |outcomes| && outcomes[k].Responded? && forall j :: 0 <= j < k ==> outcomes[j].Threw?
  }

  /** A non-ok first reply, on whichever attempt it arrives, gives `null`
      and the failure status of its body. */
  lemma DetectFailed(text: string, outcomes: seq<Outcome>, k: nat)
    requires !Blank(text) && FirstReplyAt(outcomes, k) && !Ok(outcomes[k].response)
    ensures DetectLanguage(text, true, outcomes)
         == Step(Null, [Detecting, FailureStatus(outcomes[k].response.body)], [Object1("q", Str(text))])
  {
    LiveReturnsFirstResponse(outcomes, 3, 400, k);
    assert FetchWithRetry(outcomes, 3, 400).result == Responded(outcomes[k].response);
  }

  /** The failure status names a non-empty string `detail`, and says
      'Unknown error' when the body is not JSON or is an object without
      `detail`. */
  lemma FailureStatuses(b: Body)
    ensures b.NotJson? ==> FailureStatus(b) == "Detection failed: " + UnknownError
    ensures b.JsonBody? && b.value.Obj? && "detail" !in b.value.props ==>
      FailureStatus(b) == "Detection failed: " + UnknownError
    ensures (b.JsonBody? && b.value.Obj? && "detail" in b.value.props
             && b.value.props["detail"].Str? && b.value.props["detail"].s != []) ==>
      FailureStatus(b) == "Detection failed: " + b.value.props["detail"].s
    ensures b == JsonBody(Null) ==> FailureStatus(b) == CannotReach
  {
    assert JsToString(Str(UnknownError)) == UnknownError;
  }

  /** An ok JSON first reply, on whichever attempt it arrives, gives the
      first element's `language` when the body is an array with a truthy
      first element, and `null` otherwise, with no status beyond 'Detecting
      language...'. */
  lemma DetectAnswered(text: string, outcomes: seq<Outcome>, k: nat)
    requires !Blank(text) && FirstReplyAt(outcomes, k)
    requires Ok(outcomes[k].response) && outcomes[k].response.body.JsonBody?
    ensures var r := DetectLanguage(text, true, outcomes);
      var data := outcomes[k].response.body.value;
      r.statuses == [Detecting] && r.value == (if HasTruthyFirst(data) then FirstLanguage(data) else Null)
  {
    LiveReturnsFirstResponse(outcomes, 3, 400, k);
    assert FetchWithRetry(outcomes, 3, 400).result == Responded(outcomes[k].response);
  }

  /** An ok first reply that is not JSON is reported as an unreachable
      service, like three thrown attempts. */
  lemma DetectNotJson(text: string, outcomes: seq<Outcome>, k: nat)
    requires !Blank(text) && FirstReplyAt(outcomes, k)
    requires Ok(outcomes[k].response) && outcomes[k].response.body.NotJson?
    ensures DetectLanguage(text, true, outcomes) == Step(Null, [Detecting, CannotReach], [Object1("q", Str(text))])
  {
    LiveReturnsFirstResponse(outcomes, 3, 400, k);
    assert FetchWithRetry(outcomes, 3, 400).result == Responded(outcomes[k].response);
  }

  /** When all three attempts throw, detection reports the service as
      unreachable and gives `null`. */
  lemma DetectUnreachable(text: string, outcomes: seq<Outcome>)
    requires !Blank(text) && 3 <= |outcomes|
    requires forall j :: 0 <= j < 3 ==> outcomes[j].Threw?
    ensures DetectLanguage(text, true, outcomes) == Step(Null, [Detecting, CannotReach], [Object1("q", Str(text))])
  {
    LiveAllThrow(outcomes, 3, 400);
  }

  /** The first reply `translateText` receives, on whichever attempt and
      whatever its status, is the one it decodes: no later attempt is made. */
  lemma TranslateFirstReply(text: string, source: Value, target: string, outcomes: seq<Outcome>, k: nat)
    requires !Blank(text) && FirstReplyAt(outcomes, k)
    ensures var r := TranslateText(text, source, target, outcomes);
      r.value == ReadTranslation(outcomes[k]).0
      && r.statuses == [Connecting, ReadTranslation(outcomes[k]).1]
  {
    LiveReturnsFirstResponse(outcomes, 3, 500, k);
    assert FetchWithRetry(outcomes, 3, 500).result == outcomes[k];
  }

  /** An object body with a non-empty string `error` fails with it. */
  lemma TranslateFailed(res: Response)
    requires res.body.JsonBody? && res.body.value.Obj?
    requires "error" in res.body.value.props && res.body.value.props["error"].Str? && res.body.value.props["error"].s != []
    ensures ReadTranslation(Responded(res)) == (Null, "Translation failed: " + res.body.value.props["error"].s)
  {
  }

  /** Without an `error`, a truthy `translatedText` is returned with the
      completion status... */
  lemma TranslateAnswered(res: Response)
    requires res.body.JsonBody? && res.body.value.Obj? && "error" !in res.body.value.props
    requires "translatedText" in res.body.value.props && JsTruthy(res.body.value.props["translatedText"])
    ensures ReadTranslation(Responded(res)) == (res.body.value.props["translatedText"], "Translation complete")
  {
  }

  /** ... and a missing one is an empty result ... */
  lemma TranslateMissing(res: Response)
    requires res.body.JsonBody? && res.body.value.Obj?
    requires "error" !in res.body.value.props && "translatedText" !in res.body.value.props
    ensures ReadTranslation(Responded(res)) == (Null, "Translation returned empty result")
  {
  }

  /** ... and so is a falsy one, such as the empty string. */
  lemma TranslateFalsy(res: Response)
    requires res.body.JsonBody? && res.body.value.Obj? && "error" !in res.body.value.props
    requires "translatedText" in res.body.value.props && !JsTruthy(res.body.value.props["translatedText"])
    ensures ReadTranslation(Responded(res)) == (Null, "Translation returned empty result")
  {
  }

  /** A reply that is not JSON, or a `null` body, is a service error. */
  lemma TranslateUnreadable(res: Response)
    requires res.body == NotJson || res.body == JsonBody(Null)
    ensures ReadTranslation(Responded(res)) == (Null, ServiceError)
  {
  }

  /** When all three attempts throw, the result is a service error. */
  lemma TranslateServiceError(text: string, source: Value, target: string, outcomes: seq<Outcome>)
    requires !Blank(text) && 3 <= |outcomes|
    requires forall j :: 0 <= j < 3 ==> outcomes[j].Threw?
    ensures TranslateText(text, source, target, outcomes) == Step(Null, [Connecting, ServiceError], [TranslateBody(text, source, target)])
  {
    LiveAllThrow(outcomes, 3, 500);
    var result := FetchWithRetry(outcomes, 3, 500).result;
    assert result.Threw?;
    assert ReadTranslation(result) == (Null, ServiceError);
  }

  /** The first reply reaching `translateText`, on whichever attempt, is
      decoded by its body alone: a 2xx and a 5xx reply with the same body
      give the same result. */
  lemma StatusIgnored(text: string, source: Value, target: string, outcomes: seq<Outcome>, k: nat, status: int)
    requires FirstReplyAt(outcomes, k)
    ensures var other := outcomes[k := Responded(Response(status, outcomes[k].response.body))];
      TranslateText(text, source, target, outcomes) == TranslateText(text, source, target, other)
  {
    var other := outcomes[k := Responded(Response(status, outcomes[k].response.body))];
    assert FirstReplyAt(other, k);
    LiveReturnsFirstResponse(outcomes, 3, 500, k);
    LiveReturnsFirstResponse(other, 3, 500, k);
    assert ReadTranslation(outcomes[k]) == ReadTranslation(other[k]);
  }
}
