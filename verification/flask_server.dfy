/** The Flask translation server, python_server/app.py: a global googletrans
    translator built with retries, a translation loop that rebuilds the
    translator after a failure, the `/detect` and `/translate` handlers, and
    the choice of a listening port at startup.

    The translator library is an input: each construction attempt succeeds
    or raises, and each call returns a translation, returns nothing usable,
    or raises. The global `translator` is threaded through as a flag. */
module FlaskServer {
  import opened Values
  import Text

  /** Constructor attempts `get_translator` makes before giving up. */
  const InitTries := 3

  const InitFailure := "Failed to initialize translator after 3 attempts"

  /** `get_translator()`: the number of constructor calls it took, or the
      RuntimeError after three failures. `ctor[i]` says whether call i
      succeeds. */
  datatype Init = Constructed(calls: nat) | InitFailed

  function GetTranslator(ctor: seq<bool>): (r: Init)
    requires |ctor| >= InitTries
    ensures r.Constructed? <==> exists i :: 0 <= i < InitTries && ctor[i]
    ensures r.Constructed? ==>
      1 <= r.calls <= InitTries && ctor[r.calls - 1] && forall i :: 0 <= i < r.calls - 1 ==> !ctor[i]
  {
    FirstSuccess(ctor, 0)
  }

  function FirstSuccess(ctor: seq<bool>, i: nat): (r: Init)
    requires |ctor| >= InitTries && i <= InitTries
    decreases InitTries - i
    ensures r.Constructed? <==> exists j :: i <= j < InitTries && ctor[j]
    ensures r.Constructed? ==>
      i < r.calls <= InitTries && ctor[r.calls - 1] && forall j :: i <= j < r.calls - 1 ==> !ctor[j]
  {
    if i == InitTries then InitFailed
    else if ctor[i] then Constructed(i + 1)
    else FirstSuccess(ctor, i + 1)
  }

  /** `ensure_translator()`: build a translator only when there is none. */
  datatype Ensured = Ready(built: bool) | EnsureRaised(message: string)

  function EnsureTranslator(present: bool, ctor: seq<bool>): (r: Ensured)
    requires |ctor| >= InitTries
    ensures present ==> r == Ready(false)
    ensures !present ==> (r == Ready(true) <==> GetTranslator(ctor).Constructed?)
    ensures r.EnsureRaised? ==> r.message == InitFailure
  {
    if present then Ready(false)
    else match GetTranslator(ctor)
      case Constructed(_) => Ready(true)
      case InitFailed => EnsureRaised(InitFailure)
  }

  /** A googletrans translation: its text and the languages it reports. */
  datatype Translation = Translation(text: string, src: Value, dest: Value)

  /** What one `translator.translate(...)` call does. */
  datatype Call = Returned(t: Translation) | ReturnedNone | Raises(message: string)

  /** The library's behaviour for one attempt of the loop: the constructor
      outcomes if a translator must be built, and the call's outcome. */
  datatype Try = Try(ctor: seq<bool>, call: Call)

  predicate WellFormed(tries: seq<Try>) {
    forall i :: 0 <= i < |tries| ==> |tries[i].ctor| >= InitTries
  }

  /** How one attempt ends: a usable translation, nothing usable (no
      exception, so no wait), or an exception with its text. */
  datatype AttemptEnd = Usable(t: Translation) | Unusable | Failed(message: string)

  /** One attempt: build the translator when there is none, then call it.
      A failure to build is an exception like a failed call. */
  function RunAttempt(present: bool, t: Try): (r: (AttemptEnd, bool))
    requires |t.ctor| >= InitTries
    ensures r.1 <==> !present && GetTranslator(t.ctor).Constructed?
    ensures r.0.Usable? ==> t.call.Returned? && t.call.t.text != "" && r.0.t == t.call.t
    ensures (present || GetTranslator(t.ctor).Constructed?) && t.call.Returned? && t.call.t.text != "" ==>
      r.0 == Usable(t.call.t)
    ensures (present || GetTranslator(t.ctor).Constructed?) && t.call.Raises? ==> r.0 == Failed(t.call.message)
    ensures !present && GetTranslator(t.ctor).InitFailed? ==> r.0 == Failed(InitFailure)
  {
    var built := !present && GetTranslator(t.ctor).Constructed?;
    if !present && !built then (Failed(InitFailure), false)
    else
      match t.call
      case Returned(tr) => (if tr.text != "" then Usable(tr) else Unusable, built)
      case ReturnedNone => (Unusable, built)
      case Raises(m) => (Failed(m), built)
  }

  /** `last_error` as `str()` shows it in the final message. */
  datatype LastError = NoError | Last(message: string)

  function Shown(e: LastError): string {
    match e
    case NoError => "None"
    case Last(m) => m
  }

  datatype Result = Succeeded(t: Translation) | TranslationError(message: string)

  /** The message `translate_with_retry` raises once every attempt is used. */
  function FailedAfter(maxRetries: int, last: LastError): string {
    "Translation failed after " + Text.IntToDecimal(maxRetries) + " attempts: " + Shown(last)
  }

  /** What `translate_with_retry` did: its result, whether a translator is
      left behind, which attempts built one, and how many one-second waits
      it slept. */
  datatype Retried = Retried(result: Result, present: bool, built: seq<bool>, sleeps: nat)

  /** The loop from attempt `i` on. */
  function Loop(tries: seq<Try>, maxRetries: int, i: nat, present: bool, last: LastError, sleeps: nat): (r: Retried)
    requires WellFormed(tries) && maxRetries <= |tries| && i <= |tries|
    decreases |tries| - i
    ensures r.sleeps >= sleeps
    ensures r.result.Succeeded? ==> i < maxRetries && 1 <= |r.built| <= maxRetries - i && r.present
    ensures r.result.TranslationError? ==> |r.built| == if i < maxRetries then maxRetries - i else 0
  {
    if i >= maxRetries then
      Retried(TranslationError(FailedAfter(maxRetries, last)), present, [], sleeps)
    else
      var (end, built) := RunAttempt(present, tries[i]);
      match end
      case Usable(t) => Retried(Succeeded(t), true, [built], sleeps)
      case Unusable =>
        var rest := Loop(tries, maxRetries, i + 1, true, last, sleeps);
        rest.(built := [built] + rest.built)
      case Failed(m) =>
        var rest := Loop(tries, maxRetries, i + 1, false, Last(m), sleeps + 1);
        rest.(built := [built] + rest.built)
  }

  /** `translate_with_retry(text, source, target, max_retries)`. The source
      is passed on unchanged (`'auto' if source == 'auto' else source`). */
  function TranslateWithRetry(tries: seq<Try>, maxRetries: int, present: bool): (r: Retried)
    requires WellFormed(tries) && maxRetries <= |tries|
    ensures r.result.Succeeded? ==> 1 <= |r.built| <= maxRetries
    ensures r.result.TranslationError? ==> |r.built| == if maxRetries > 0 then maxRetries else 0
  {
    Loop(tries, maxRetries, 0, present, NoError, 0)
  }

  /** The attempt that succeeds is the first whose call returns a
      translation with text, once a translator is in place: an earlier call
      that would have given text was passed over only because no
      translator could be built for it. */
  lemma {:induction false} SuccessIsFirstUsable(tries: seq<Try>, maxRetries: int, i: nat, present: bool, last: LastError, sleeps: nat)
    requires WellFormed(tries) && maxRetries <= |tries| && i <= |tries|
    ensures var r := Loop(tries, maxRetries, i, present, last, sleeps);
      r.result.Succeeded? ==>
        var k := i + |r.built| - 1;
        k < maxRetries && tries[k].call.Returned? && r.result.t == tries[k].call.t && tries[k].call.t.text != ""
        && forall j :: i <= j < k && tries[j].call.Returned? && tries[j].call.t.text != "" ==>
             !GetTranslator(tries[j].ctor).Constructed?
  {
    LastAttemptUsable(tries, maxRetries, i, present, last, sleeps);
    PassedOver(tries, maxRetries, i, present, last, sleeps);
  }

  /** A successful loop ends on an attempt whose call returned text, and
      that text is the result. */
  lemma {:induction false} LastAttemptUsable(tries: seq<Try>, maxRetries: int, i: nat, present: bool, last: LastError, sleeps: nat)
    requires WellFormed(tries) && maxRetries <= |tries| && i <= |tries|
    ensures var r := Loop(tries, maxRetries, i, present, last, sleeps);
      r.result.Succeeded? ==>
        var k := i + |r.built| - 1;
        k < maxRetries && tries[k].call.Returned? && r.result.t == tries[k].call.t && tries[k].call.t.text != ""
    decreases |tries| - i
  {
    if i < maxRetries {
      var (end, built) := RunAttempt(present, tries[i]);
      if end.Unusable? {
        LastAttemptUsable(tries, maxRetries, i + 1, true, last, sleeps);
      } else if end.Failed? {
        LastAttemptUsable(tries, maxRetries, i + 1, false, Last(end.message), sleeps + 1);
      }
    }
  }

  /** Every attempt the loop runs before the one that ends it was passed
      over because its call gave no text or no translator could be built. */
  lemma {:induction false} PassedOver(tries: seq<Try>, maxRetries: int, i: nat, present: bool, last: LastError, sleeps: nat)
    requires WellFormed(tries) && maxRetries <= |tries| && i <= |tries|
    ensures var r := Loop(tries, maxRetries, i, present, last, sleeps);
      forall j :: i <= j < i + |r.built| - 1 && tries[j].call.Returned? && tries[j].call.t.text != "" ==>
        !GetTranslator(tries[j].ctor).Constructed?
    decreases |tries| - i
  {
    if i < maxRetries {
      var (end, built) := RunAttempt(present, tries[i]);
      if end.Unusable? {
        PassedOver(tries, maxRetries, i + 1, true, last, sleeps);
      } else if end.Failed? {
        PassedOver(tries, maxRetries, i + 1, false, Last(end.message), sleeps + 1);
      }
    }
  }

  /** An attempt after a failed one always builds a new translator first
      (when the constructor lets it); an attempt after an unusable but
      clean call reuses the translator. */
  lemma RebuildAfterFailure(tries: seq<Try>, maxRetries: int, i: nat, present: bool, last: LastError, sleeps: nat)
    requires WellFormed(tries) && maxRetries <= |tries| && i + 1 < maxRetries
    requires RunAttempt(present, tries[i]).0.Failed?
    ensures var r := Loop(tries, maxRetries, i, present, last, sleeps);
      |r.built| >= 2 && (r.built[1] <==> GetTranslator(tries[i + 1].ctor).Constructed?)
  {
  }

  /** When every attempt raises, every one of them sleeps one second, the
      last one included, and no translator is left behind. */
  lemma {:induction false} SleepsCountFailures(tries: seq<Try>, maxRetries: int, i: nat, present: bool, last: LastError, sleeps: nat)
    requires WellFormed(tries) && maxRetries <= |tries| && i <= |tries|
    requires forall j :: i <= j < maxRetries ==> tries[j].call.Raises?
    ensures var r := Loop(tries, maxRetries, i, present, last, sleeps);
      r.sleeps == sleeps + (if i < maxRetries then maxRetries - i else 0)
    ensures i < maxRetries ==>
      var r := Loop(tries, maxRetries, i, present, last, sleeps);
      r.result.TranslationError? && !r.present
    decreases |tries| - i
  {
    if i < maxRetries {
      var (end, built) := RunAttempt(present, tries[i]);
      SleepsCountFailures(tries, maxRetries, i + 1, false, Last(end.message), sleeps + 1);
    }
  }

  /** Attempts from `i` to `n` whose call raises. */
  function Raising(tries: seq<Try>, i: nat, n: int): nat
    requires n <= |tries|
    decreases n - i
  {
    if i >= n then 0 else (if tries[i].call.Raises? then 1 else 0) + Raising(tries, i + 1, n)
  }

  /** With a translator always constructible and no call giving text, the
      loop fails, and it sleeps exactly once per raising call: an attempt
      that returned nothing usable does not sleep. */
  lemma {:induction false} SleepsCountRaises(tries: seq<Try>, maxRetries: int, i: nat, present: bool, last: LastError, sleeps: nat)
    requires WellFormed(tries) && maxRetries <= |tries| && i <= |tries|
    requires forall j :: i <= j < maxRetries ==>
      GetTranslator(tries[j].ctor).Constructed? && !(tries[j].call.Returned? && tries[j].call.t.text != "")
    ensures var r := Loop(tries, maxRetries, i, present, last, sleeps);
      r.result.TranslationError? && r.sleeps == sleeps + Raising(tries, i, maxRetries)
    decreases |tries| - i
  {
    if i < maxRetries {
      var (end, built) := RunAttempt(present, tries[i]);
      if tries[i].call.Raises? {
        assert end == Failed(tries[i].call.message);
        var rest := Loop(tries, maxRetries, i + 1, false, Last(end.message), sleeps + 1);
        assert Loop(tries, maxRetries, i, present, last, sleeps) == rest.(built := [built] + rest.built);
        SleepsCountRaises(tries, maxRetries, i + 1, false, Last(end.message), sleeps + 1);
      } else {
        assert end.Unusable?;
        var rest := Loop(tries, maxRetries, i + 1, true, last, sleeps);
        assert Loop(tries, maxRetries, i, present, last, sleeps) == rest.(built := [built] + rest.built);
        SleepsCountRaises(tries, maxRetries, i + 1, true, last, sleeps);
      }
    }
  }

  /** `last_error` after the attempts from `i` to `n`, when each attempt's
      exception is its call's own: the message of the last call that
      raised, or `last` when none did. */
  function LastRaise(tries: seq<Try>, i: nat, n: int, last: LastError): LastError
    requires n <= |tries|
    decreases n - i
  {
    if i >= n then last
    else LastRaise(tries, i + 1, n, if tries[i].call.Raises? then Last(tries[i].call.message) else last)
  }

  /** With a translator always constructible and no call giving text, the
      loop's error names `max_retries` and the text of the last exception
      raised, or 'None' when nothing raised. */
  lemma {:induction false} FailureMessage(tries: seq<Try>, maxRetries: int, i: nat, present: bool, last: LastError, sleeps: nat)
    requires WellFormed(tries) && maxRetries <= |tries| && i <= |tries|
    requires forall j :: i <= j < maxRetries ==>
      GetTranslator(tries[j].ctor).Constructed? && !(tries[j].call.Returned? && tries[j].call.t.text != "")
    ensures Loop(tries, maxRetries, i, present, last, sleeps).result
         == TranslationError(FailedAfter(maxRetries, LastRaise(tries, i, maxRetries, last)))
    decreases |tries| - i
  {
    if i < maxRetries {
      var (end, built) := RunAttempt(present, tries[i]);
      if tries[i].call.Raises? {
        assert end == Failed(tries[i].call.message);
        FailureMessage(tries, maxRetries, i + 1, false, Last(tries[i].call.message), sleeps + 1);
      } else {
        assert end.Unusable?;
        FailureMessage(tries, maxRetries, i + 1, true, last, sleeps);
      }
    }
  }

  /** When the final attempt raises, its message is the last error. */
  lemma {:induction false} LastRaiseOfFinal(tries: seq<Try>, i: nat, n: int, last: LastError)
    requires 0 < n <= |tries| && i < n && tries[n - 1].call.Raises?
    ensures LastRaise(tries, i, n, last) == Last(tries[n - 1].call.message)
    decreases n - i
  {
    if i < n - 1 {
      LastRaiseOfFinal(tries, i + 1, n, if tries[i].call.Raises? then Last(tries[i].call.message) else last);
    }
  }

  /** So a run whose final attempt raises reports that attempt's message,
      whatever came before it. */
  lemma FinalRaiseReported(tries: seq<Try>, maxRetries: int, present: bool)
    requires WellFormed(tries) && 0 < maxRetries <= |tries|
    requires forall j :: 0 <= j < maxRetries ==>
      GetTranslator(tries[j].ctor).Constructed? && !(tries[j].call.Returned? && tries[j].call.t.text != "")
    requires tries[maxRetries - 1].call.Raises?
    ensures TranslateWithRetry(tries, maxRetries, present).result
         == TranslationError("Translation failed after " + Text.IntToDecimal(maxRetries) + " attempts: "
                             + tries[maxRetries - 1].call.message)
  {
    FailureMessage(tries, maxRetries, 0, present, NoError, 0);
    LastRaiseOfFinal(tries, 0, maxRetries, NoError);
  }

  /** When no attempt raises and none gives text (the call returns nothing
      or an empty translation), the error message names the attempt count
      and `None` as the last error. */
  lemma {:induction false} EmptyResultsMessage(tries: seq<Try>, maxRetries: int, i: nat)
    requires WellFormed(tries) && maxRetries <= |tries| && i <= |tries|
    requires forall j :: i <= j < maxRetries ==>
      tries[j].call.ReturnedNone? || (tries[j].call.Returned? && tries[j].call.t.text == "")
    ensures Loop(tries, maxRetries, i, true, NoError, 0).result
         == TranslationError("Translation failed after " + Text.IntToDecimal(maxRetries) + " attempts: None")
    decreases |tries| - i
  {
    if i < maxRetries {
      EmptyResultsMessage(tries, maxRetries, i + 1);
    }
  }

  /** The body read as Flask's `get_json(force=True)` and `.get` see it: a
      dict is required, otherwise the handler's `data.get` raises. */
  datatype Field = Field(value: Value) | FieldError(message: string)

  /** `data.get(key, default).strip()` on a parsed body. */
  function StrippedField(data: Value, key: string, default: string): (f: Field)
    requires IsJson(data)
    ensures f.Field? ==> f.value.Str?
    ensures !data.Obj? ==> f == FieldError(NoAttribute(data, "get"))
    ensures data.Obj? ==>
      var q := PyGet(data.props, key, Str(default));
      (q.Str? ==> f == Field(Str(Text.PyStrip(q.s)))) && (!q.Str? ==> f == FieldError(NoAttribute(q, "strip")))
  {
    if !data.Obj? then FieldError(NoAttribute(data, "get"))
    else
      var q := PyGet(data.props, key, Str(default));
      if !q.Str? then (assert IsJson(data.props[key]); FieldError(NoAttribute(q, "strip")))
      else Field(Str(Text.PyStrip(q.s)))
  }

  /** What `translator.detect(text)` does. */
  datatype Detection = Detected(lang: Value, confidence: Value) | DetectRaises(message: string)

  /** The arguments `/translate` hands to `translate_with_retry`, which
      passes them on to every `translator.translate` call unchanged: the
      stripped text, the source and the target. */
  datatype Arguments = Arguments(text: string, source: Value, target: Value)

  /** A handler's reply, the translator flag it leaves behind, and the
      arguments of the translation loop it ran, if any. */
  datatype Handled = Handled(reply: Reply, present: bool, asked: seq<Arguments>)

  function ErrorReply(status: int, message: string): Reply {
    Json(status, Object1("error", Str(message)))
  }

  /** `data = request.get_json(force=True)` then `data.get('q', '').strip()`:
      the stripped text, or the text of the exception either step raises. */
  function Query(body: RequestBody, decodeError: string): (f: Field)
    requires body.Parsed? ==> IsJson(body.json)
    ensures body.Unparsable? ==> f == FieldError(decodeError)
    ensures f.Field? ==> f.value.Str? && body.Parsed? && body.json.Obj?
  {
    match body
    case Unparsable => FieldError(decodeError)
    case Parsed(data) => StrippedField(data, "q", "")
  }

  /** The `detect` call on a non-blank text: without a translator the
      attribute lookup raises. */
  function DetectText(present: bool, detection: Detection): (r: Reply)
    ensures r.Json? && (r.status == 200 || r.status == 500)
    ensures r.status == 200 <==> present && detection.Detected?
    ensures r.status == 200 ==>
      r.body == Arr([Object2("language", detection.lang, "confidence", detection.confidence)])
    ensures !present ==> r == ErrorReply(500, NoAttribute(Null, "detect"))
    ensures present && detection.DetectRaises? ==> r == ErrorReply(500, detection.message)
  {
    if !present then ErrorReply(500, NoAttribute(Null, "detect"))
    else match detection
      case Detected(lang, confidence) => Json(200, Arr([Object2("language", lang, "confidence", confidence)]))
      case DetectRaises(m) => ErrorReply(500, m)
  }

  /** `POST /detect`. Every exception, the body's included, is answered 500
      with its text; a blank `q` is answered `[]`. The handler does not
      rebuild a missing translator. */
  function Detect(body: RequestBody, present: bool, detection: Detection, decodeError: string): (r: Reply)
    requires body.Parsed? ==> IsJson(body.json)
    ensures r.Json? && (r.status == 200 || r.status == 500)
    ensures Query(body, decodeError).FieldError? ==> r == ErrorReply(500, Query(body, decodeError).message)
    ensures Query(body, decodeError) == Field(Str("")) ==> r == Json(200, Arr([]))
    ensures Query(body, decodeError).Field? && Query(body, decodeError) != Field(Str("")) ==>
      r == DetectText(present, detection)
  {
    match Query(body, decodeError)
    case FieldError(m) => ErrorReply(500, m)
    case Field(text) =>
      if text == Str("") then Json(200, Arr([])) else DetectText(present, detection)
  }

  const Unavailable := "Translation service unavailable"

  /** The translation of a non-blank text: one run of the loop with the
      given arguments, then the loop's translation with its languages, or
      503 once the loop gives up. */
  function TranslateText(args: Arguments, tries: seq<Try>, present: bool): (h: Handled)
    requires WellFormed(tries) && 3 <= |tries|
    ensures h.asked == [args]
    ensures h.reply.Json? && (h.reply.status == 200 || h.reply.status == 503)
    ensures var r := TranslateWithRetry(tries, 3, present);
      h.present == r.present && (h.reply.status == 200 <==> r.result.Succeeded?)
    ensures h.reply.status == 503 ==> h.reply == ErrorReply(503, Unavailable)
    ensures h.reply.status == 200 ==>
      var t := TranslateWithRetry(tries, 3, present).result.t;
      h.reply.body == Object3("translatedText", Str(t.text), "src", t.src, "dest", t.dest)
  {
    var r := TranslateWithRetry(tries, 3, present);
    match r.result
    case Succeeded(t) =>
      Handled(Json(200, Object3("translatedText", Str(t.text), "src", t.src, "dest", t.dest)), r.present, [args])
    case TranslationError(_) => Handled(ErrorReply(503, Unavailable), r.present, [args])
  }

  /** `POST /translate`: a blank `q` is answered with an empty translation
      and no call; a body that cannot be read is a 500 with the exception's
      text; otherwise the loop runs, with `source` and `target` defaulting
      to 'auto' and 'en' (`TranslateArguments`). */
  function Translate(body: RequestBody, present: bool, tries: seq<Try>, decodeError: string): (h: Handled)
    requires body.Parsed? ==> IsJson(body.json)
    requires WellFormed(tries) && 3 <= |tries|
    ensures Query(body, decodeError).FieldError? ==>
      h == Handled(ErrorReply(500, Query(body, decodeError).message), present, [])
    ensures Query(body, decodeError) == Field(Str("")) ==>
      h == Handled(Json(200, Object1("translatedText", Str(""))), present, [])
    ensures Query(body, decodeError).Field? && Query(body, decodeError) != Field(Str("")) ==>
      h == TranslateText(TranslateArguments(body.json), tries, present)
      && h.asked == [Arguments(Query(body, decodeError).value.s, PyGet(body.json.props, "source", Str("auto")),
                               PyGet(body.json.props, "target", Str("en")))]
  {
    match Query(body, decodeError)
    case FieldError(m) => Handled(ErrorReply(500, m), present, [])
    case Field(text) =>
      if text == Str("") then Handled(Json(200, Object1("translatedText", Str(""))), present, [])
      else TranslateText(TranslateArguments(body.json), tries, present)
  }

  /** A `q` that is missing or only white space is answered without asking
      anyone: `[]` from `/detect`, an empty translation from `/translate`,
      and the translator flag is left as it was. */
  lemma BlankQueryAnswered(body: RequestBody, present: bool, detection: Detection, tries: seq<Try>, decodeError: string)
    requires WellFormed(tries) && 3 <= |tries|
    requires body.Parsed? && body.json.Obj? && IsJson(body.json)
    requires "q" !in body.json.props
      || (body.json.props["q"].Str? && Text.AllSpace(body.json.props["q"].s, Text.IsPySpace))
    ensures Detect(body, present, detection, decodeError) == Json(200, Arr([]))
    ensures Translate(body, present, tries, decodeError) == Handled(Json(200, Object1("translatedText", Str(""))), present, [])
  {
    if "q" in body.json.props {
      Text.TrimEmptyIffAllSpace(body.json.props["q"].s, Text.IsPySpace);
    }
    assert Query(body, decodeError) == Field(Str(""));
  }

  /** A translation whose every attempt raised leaves no translator, and a
      `/detect` with text that follows it then fails with the missing
      `detect` attribute, whatever detection would have said. */
  lemma DetectAfterFailedTranslate(args: Arguments, tries: seq<Try>, present: bool, body: RequestBody, detection: Detection, decodeError: string)
    requires WellFormed(tries) && 3 <= |tries|
    requires forall j :: 0 <= j < 3 ==> tries[j].call.Raises?
    requires body.Parsed? ==> IsJson(body.json)
    requires Query(body, decodeError).Field? && Query(body, decodeError) != Field(Str(""))
    ensures var h := TranslateText(args, tries, present);
      h.reply == ErrorReply(503, Unavailable)
      && Detect(body, h.present, detection, decodeError) == ErrorReply(500, NoAttribute(Null, "detect"))
  {
    SleepsCountFailures(tries, 3, 0, present, NoError, 0);
  }

  /** The arguments `/translate` hands to the loop: `q` stripped, then the
      source and target or their defaults. */
  function TranslateArguments(data: Value): (args: Arguments)
    requires IsJson(data) && StrippedField(data, "q", "").Field?
    ensures "q" in data.props ==> args.text == Text.PyStrip(data.props["q"].s)
    ensures "q" !in data.props ==> args.text == ""
    ensures !("source" in data.props) ==> args.source == Str("auto")
    ensures !("target" in data.props) ==> args.target == Str("en")
    ensures "source" in data.props ==> args.source == data.props["source"]
    ensures "target" in data.props ==> args.target == data.props["target"]
  {
    Arguments(StrippedField(data, "q", "").value.s, PyGet(data.props, "source", Str("auto")), PyGet(data.props, "target", Str("en")))
  }

  /** The candidate listening ports, 5002 to 5009 in order. */
  const Ports: seq<int> := [5002, 5003, 5004, 5005, 5006, 5007, 5008, 5009]

  datatype Startup = Serving(port: int) | Exit(code: int)

  /** The `__main__` block: the first port that can be bound, or exit
      status 1 when none can. `bindable[i]` says whether `Ports[i]` can. */
  function SelectPort(bindable: seq<bool>, i: nat): (s: Startup)
    requires |bindable| == |Ports| && i <= |Ports|
    decreases |Ports| - i
    ensures s.Serving? ==>
      exists j :: i <= j < |Ports| && bindable[j] && s.port == Ports[j] && forall k :: i <= k < j ==> !bindable[k]
    ensures s.Exit? <==> forall j :: i <= j < |Ports| ==> !bindable[j]
    ensures s.Exit? ==> s.code == 1
  {
    if i == |Ports| then Exit(1)
    else if bindable[i] then Serving(Ports[i])
    else SelectPort(bindable, i + 1)
  }

  /** Module load: the translator is built before anything else, and the
      process exits with status 1 when that fails. */
  function Boot(ctor: seq<bool>, bindable: seq<bool>): (s: Startup)
    requires |ctor| >= InitTries && |bindable| == |Ports|
    ensures GetTranslator(ctor).InitFailed? ==> s == Exit(1)
    ensures s.Serving? ==> GetTranslator(ctor).Constructed? && 5002 <= s.port <= 5009
  {
    if GetTranslator(ctor).InitFailed? then Exit(1) else SelectPort(bindable, 0)
  }
}
