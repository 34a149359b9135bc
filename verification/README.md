# Translator: a Dafny model of its logic

The translator application has three parts:

- Two browser clients. The main client, app/translator-client.tsx, finds a local Python server among a few ports and calls it through retrying fetch helpers. The companion client, components/translator/TranslatorClient.tsx, calls a public LibreTranslate endpoint.
- A small text-translator card, components/text-translator.tsx.
- A text-to-speech route, app/api/text-to-speech/route.ts. It answers with a 44-byte WAV header as a base64 `data:` URL.

Three Python servers sit behind the clients:

- a Flask server built on googletrans, python_server/app.py;
- a Flask proxy over deep-translator and langdetect, python_server/server.py;
- a FastAPI backend, backend/app.py.

This project models the logic of all of these as pure Dafny functions and proves what they promise.

Everything outside the program is an input:

- what each network request settles with;
- what a translator, a detector or an OCR engine does;
- whether a port can be bound.

A function returns what the code computes, plus what it would do to the world:

- the status lines set, in order;
- the JSON bodies sent;
- the milliseconds waited;
- the timer calls made;
- the translator calls made.

Modules, one per source file or shared concept:

- `Text`: ECMAScript `trim` and Python `strip`, with their different white-space sets, and decimal rendering.
- `Values`: JSON-shaped values and the ECMAScript and Python operations the code applies to them: truthiness, `||`, property reads, `dict.get` and `ToString`.
- `Bytes`: fixed-width unsigned integers in either byte order.
- `Base64`: the encoding of section 4 of RFC 4648.
- `WavHeader`: the thirteen `DataView` writes into `new ArrayBuffer(44)`.
- `TextToSpeech`: the route and `generateSimpleAudio`, down to the `data:` URL of section 3 of RFC 2397.
- `Fetch`: one request as the clients see it, and `fetchWithTimeout`.
- `Retry`: both `fetchWithRetry` declarations. The live one is at line 118. The one at line 65 is shadowed and is modelled on its own.
- `Discovery`: `findWorkingPort` over ports 5002, 5003 and 5004.
- `Speech`: the `onresult` transcript stitching of both clients, and the recogniser handlers and guards.
- `Client`: `detectLanguage`, `translateText`, the page handlers, `testBackend` and the ten-entry history.
- `Companion`: the companion client's decoding and handlers.
- `TextTranslator`: the card's translate action, swap and button enablement.
- `FlaskServer`, `ProxyServer`, `Backend`: the three servers' handlers, their retry and initialisation logic, and their startup.

The WAV bytes are modelled exactly as written. The four tags are stored big-endian, so they hold "FFIR", "EVAW", " tmf" and "atad". The size field sits at offset 0, ahead of the first tag.

## The retry helpers

Four facts about `fetchWithRetry` in app/translator-client.tsx and its callers shape the model:

- The live helper (line 118) waits `backoff * 2^i` between attempts, with no ceiling. The shadowed helper at line 65 caps its waits at 10 s, but no caller reaches it.
- The live helper makes plain `fetch` calls with no deadline. Only the shadowed one goes through `fetchWithTimeout`.
- After the last attempt, a helper rethrows the error that attempt raised, unchanged. Its own 'exhausted retries' error is thrown only when no attempt is made, that is when `retries <= 0`.
- In `translateText`, a reply that is not JSON, or is JSON `null`, takes the same path as a request that never reached the server. In `detectLanguage` that holds for an ok reply that is not JSON and for a non-ok reply of `null`. A non-ok reply that is not JSON reports 'Detection failed: Unknown error', and an ok reply of `null` gives `null` with no failure status.

## Model

| member | source | states |
|---|---|---|
| Text.TrimEmptyIffAllSpace | components/text-translator.tsx:30 | trimming leaves nothing exactly when every character is white space, which is what the `!text.trim()` guards test |
| Text.TrimIsSlice | python_server/app.py:86 | a stripped text is one contiguous piece of the original |
| Text.DecimalRoundTrip | python_server/app.py:130 | the decimal rendering of a count reads back as that count |
| Text.IntToDecimalInjective | python_server/app.py:130 | different attempt counts give different messages |
| Values.JsOr | app/translator-client.tsx:267 | `a \|\| b` is `a` when `a` is truthy and `b` otherwise, so it is truthy whenever `b` is |
| Values.GetProp | app/translator-client.tsx:163 | a property read throws exactly on `null` and `undefined`; on an object it gives the own property or `undefined` |
| Values.Utf16Length | app/api/text-to-speech/route.ts:24 | `length` counts UTF-16 units: at least one and at most two per code point |
| Values.PyGet | python_server/server.py:27 | `get(key, default)` gives the stored value when the key is present and the default otherwise |
| Bytes.DecodeEncodeLE | app/api/text-to-speech/route.ts:32 | reading back a little-endian store gives the value modulo 256^width |
| Base64.Encode | app/api/text-to-speech/route.ts:56 | the `btoa` encoding; its length, padding and inverse are the rows below |
| Base64.Decode | app/api/text-to-speech/route.ts:56 | a strict reference decoder, used to state that the encoding loses nothing (`Base64.DecodeEncode`) |
| Base64.SextetCharRoundTrip | app/api/text-to-speech/route.ts:56 | the 64-character alphabet maps each 6-bit group to a distinct character, never '=' |
| Base64.SextetsRoundTrip | app/api/text-to-speech/route.ts:56 | regrouping the 6-bit groups gives back the bytes, partial last group included |
| Base64.CharsRoundTrip | app/api/text-to-speech/route.ts:56 | each character of the body maps back to its 6-bit group and is not '=' |
| Base64.EncodeLength | app/api/text-to-speech/route.ts:56 | an encoding has four characters per started group of three bytes |
| Base64.PaddingShape | app/api/text-to-speech/route.ts:56 | the encoding holds exactly (3 - n mod 3) mod 3 '=' characters, all at the end |
| Base64.OnePadShape | app/api/text-to-speech/route.ts:56 | when the byte count is one short of a multiple of three, the encoding ends in its only '=' |
| Base64.DecodeEncode | app/api/text-to-speech/route.ts:56 | strict decoding of the encoding gives back exactly the bytes |
| WavHeader.HeaderWrites | app/api/text-to-speech/route.ts:32-48 | the thirteen `DataView` writes, in program order; what they store is stated by the header rows below |
| WavHeader.Header | app/api/text-to-speech/route.ts:28 | the buffer is 44 bytes long whatever the sample count |
| WavHeader.HeaderWritesTile | app/api/text-to-speech/route.ts:32-48 | the thirteen writes lie back to back from offset 0 to offset 44 and fit the buffer |
| WavHeader.HeaderCoverage | app/api/text-to-speech/route.ts:32-48 | every offset 0..43 is written by exactly one write: no gap and no overlap |
| WavHeader.HeaderHolds | app/api/text-to-speech/route.ts:28-48 | the finished buffer holds every write's bytes at that write's offset |
| WavHeader.HeaderDetermined | app/api/text-to-speech/route.ts:28-48 | any 44-byte buffer holding all thirteen writes is the header, so their order does not matter |
| WavHeader.TiledDetermined | app/api/text-to-speech/route.ts:28-48 | two buffers holding the same back-to-back writes are equal |
| WavHeader.ReadWriteBytes | app/api/text-to-speech/route.ts:32-48 | a write's bytes, read in its byte order, give its value modulo 2^(8·width) |
| WavHeader.ReadField | app/api/text-to-speech/route.ts:32-48 | each field of the header reads back as the value written there, modulo its width |
| WavHeader.HeaderFormat | app/api/text-to-speech/route.ts:38-40 | the fmt chunk holds a chunk size of 16, format 1 (PCM) and one channel |
| WavHeader.HeaderTiming | app/api/text-to-speech/route.ts:41-44 | the header holds a sample rate of 16000, a block size of 2 and 16 bits per sample |
| WavHeader.HeaderConsistent | app/api/text-to-speech/route.ts:41-43 | block size = channels × bits / 8, and byte rate = sample rate × block size |
| WavHeader.HeaderSizes | app/api/text-to-speech/route.ts:32-48 | data size = ToUint32(2·samples) and RIFF size = data size + 36 mod 2^32; a NaN count stores 0 in both |
| WavHeader.BigEndianTag | app/api/text-to-speech/route.ts:33 | a big-endian 32-bit write stores its bytes high first |
| WavHeader.RiffTag | app/api/text-to-speech/route.ts:33 | bytes 4..7 are 46 46 49 52 |
| WavHeader.WaveTag | app/api/text-to-speech/route.ts:34 | bytes 8..11 are 45 56 41 57 |
| WavHeader.FmtTag | app/api/text-to-speech/route.ts:37 | bytes 12..15 are 20 74 6D 66 |
| WavHeader.DataTag | app/api/text-to-speech/route.ts:47 | bytes 36..39 are 61 74 61 64 |
| WavHeader.HeaderTags | app/api/text-to-speech/route.ts:33-47 | the four tags hold "RIFF", "WAVE", "fmt " and "data" each reversed |
| TextToSpeech.Duration | app/api/text-to-speech/route.ts:24 | the duration is the least whole number of seconds of at least one that covers length/10; NaN stays NaN |
| TextToSpeech.BinaryString | app/api/text-to-speech/route.ts:51-55 | one character per header byte, whose code is that byte |
| TextToSpeech.BtoaOf | app/api/text-to-speech/route.ts:56 | `btoa` encodes exactly when every character is at most U+00FF and fails otherwise |
| TextToSpeech.Post | app/api/text-to-speech/route.ts:1-17 | the route answers JSON with status 200, 400 or 500; which one, and with what, is `TextToSpeech.PostOutcomes` |
| TextToSpeech.GenerateSimpleAudio | app/api/text-to-speech/route.ts:20-59 | the audio URL starts with the `data:audio/wav;base64,` prefix; its payload is characterised by `TextToSpeech.AudioUrlRoundTrip` and `TextToSpeech.AudioUrlShape` |
| TextToSpeech.PostOutcomes | app/api/text-to-speech/route.ts:1-17 | 500 exactly when the body does not parse or is `null`; 400 with 'No text provided' exactly when `text` is falsy; otherwise 200 with the audio URL |
| TextToSpeech.LangIgnored | app/api/text-to-speech/route.ts:3-12 | `lang` has no effect on the reply |
| TextToSpeech.DependsOnlyOnLength | app/api/text-to-speech/route.ts:23-25 | two texts of the same length give the same audio URL |
| TextToSpeech.Latin1OfBinary | app/api/text-to-speech/route.ts:51-56 | the binary string passes `btoa`'s check and stands for exactly the header bytes |
| TextToSpeech.AudioUrlRoundTrip | app/api/text-to-speech/route.ts:56-58 | the URL is the data prefix and a payload that decodes to exactly the bytes |
| TextToSpeech.AudioUrlDecodes | app/api/text-to-speech/route.ts:48-58 | the payload decodes to the 44 header bytes and nothing more: no sample data follows |
| TextToSpeech.UrlOfShortGroup | app/api/text-to-speech/route.ts:56-58 | for 3k+2 bytes the URL has 22 + 4(k+1) characters and ends in its only '=' |
| TextToSpeech.UrlOf44 | app/api/text-to-speech/route.ts:56-58 | a 44-byte header gives an 82-character URL: a 60-character payload with one '=' at the end |
| TextToSpeech.AudioUrlShape | app/api/text-to-speech/route.ts:20-59 | every audio URL is 82 characters long, and its last character is its only '=' |
| TextToSpeech.DataSizeField | app/api/text-to-speech/route.ts:48 | the data size claims 32000 bytes per second of duration, modulo 2^32 |
| TextToSpeech.DeclaredDataSize | app/api/text-to-speech/route.ts:48 | up to 1342170 code units the claim is exact and positive |
| TextToSpeech.DataSizeWraps | app/api/text-to-speech/route.ts:48 | 1342171 code units need 134218 seconds, whose byte count wraps to 8704 |
| Fetch.FetchWithTimeout | app/translator-client.tsx:49-63 | the timer is set first and cleared last; it fires exactly when the request is not settled by the deadline; an early outcome passes through |
| Fetch.TimerNeverLeaks | app/translator-client.tsx:49-63 | on every path the timer is set once and cleared once, last |
| Fetch.TimeoutOutcome | app/translator-client.tsx:49-63 | a response is seen exactly when it arrives before the deadline; the call rejects with AbortError exactly when it is late or was aborted |
| Retry.Attempt | app/translator-client.tsx:118-135 | the loop stops at the first response; it throws only after `retries` failed attempts, passing on the last error; each wait follows its policy |
| Retry.FetchWithRetry | app/translator-client.tsx:118-135 | no attempt and the 'exhausted retries' error exactly when `retries <= 0`; otherwise 1..retries attempts with one wait between each pair |
| Retry.FirstResponseReturned | app/translator-client.tsx:119-126 | the first response ends the loop whatever its status, after the waits of the errors before it |
| Retry.AllThrow | app/translator-client.tsx:127-131 | when every attempt throws, all are made, with a wait between each pair, and the last error is rethrown |
| Retry.LiveReturnsFirstResponse | app/translator-client.tsx:118-131 | the live helper returns the first response after waiting backoff·2^j for each earlier error j |
| Retry.LiveAllThrow | app/translator-client.tsx:127-131 | when every attempt throws, the live helper makes exactly `retries` attempts and rethrows the last error |
| Retry.DoublingTotal | app/translator-client.tsx:130 | n doubling waits add up to backoff·(2^n − 1) |
| Retry.LiveTotalWait | app/translator-client.tsx:118-131 | a live helper whose attempts all throw waits backoff·(2^(retries−1) − 1) ms in all |
| Retry.MergeHeaders | app/translator-client.tsx:68-74 | the shadowed helper sends a JSON content type unless the caller names the exact key `Content-Type`; the caller's headers win, and keys are compared case-sensitively as in the object spread |
| Retry.ShadowedFetchWithRetry | app/translator-client.tsx:65-87 | the shadowed helper sends the merged headers, makes 1..retries attempts and never waits more than 10 s |
| Retry.ShadowedDelays | app/translator-client.tsx:82 | the shadowed waits are 1, 2, 4 and 8 s, then 10 s from the fifth wait on |
| Retry.ShadowedAllTimeOut | app/translator-client.tsx:65-87 | when every attempt times out, all attempts are made and the AbortError is rethrown |
| Retry.SameAttempts | app/translator-client.tsx:76-83 | which error an attempt throws does not change how many attempts are made |
| Retry.ErrorKindIrrelevant | app/translator-client.tsx:76-83 | an AbortError and any other error lead to the same attempts and the same waits |
| Retry.OnlyLastErrorShows | app/translator-client.tsx:76-83 | replacing one error changes the outcome only when it is the last error, which is rethrown |
| Discovery.FindWorkingPort | app/translator-client.tsx:25-38 | a port is found exactly when some candidate answers ok, and it is one of the candidates |
| Discovery.Search | app/translator-client.tsx:25-38 | the probe stops at the first ok candidate; no candidate before it answered; with none, all three are probed |
| Discovery.FirstAnsweringPort | app/translator-client.tsx:25-38 | a port is found exactly when some candidate answers ok; the port is the first such; otherwise `apiPort` is kept |
| Discovery.LaterProbesUnseen | app/translator-client.tsx:25-38 | what candidates after the chosen one would answer changes nothing |
| Discovery.NextApiPort | app/translator-client.tsx:29-31 | the port stays unchanged when no candidate answered |
| Discovery.DiscoveryStatus | app/translator-client.tsx:41-47 | the 'could not find' status appears exactly when no candidate answers; otherwise the status is untouched |
| Speech.Finals | app/translator-client.tsx:101-105 | the reference for what the loop puts in `final`: the final transcripts in order (`Speech.CollectTranscripts`, `Speech.SplitFinals`) |
| Speech.Interims | app/translator-client.tsx:101-105 | the reference for `interim`: the other transcripts in order (`Speech.CollectTranscripts`, `Speech.SplitInterims`) |
| Speech.CollectTranscripts | app/translator-client.tsx:99-105 | the loop collects the final transcripts and the interim ones from `resultIndex` on, each in order |
| Speech.SplitFinals | app/translator-client.tsx:101-105 | the finals of two runs of results concatenate |
| Speech.SplitInterims | app/translator-client.tsx:101-105 | the interims of two runs of results concatenate |
| Speech.AllFinal | app/translator-client.tsx:101-105 | with every result final there is no interim text and the finals are all the transcripts |
| Speech.NoneFinal | app/translator-client.tsx:101-105 | with no result final the finals are empty and the interim is every transcript |
| Speech.Overwrite | app/translator-client.tsx:106-110 | the input starts with the finals; when there is interim text, the rest is a space and that text, and otherwise there is no rest |
| Speech.Append | components/translator/TranslatorClient.tsx:31-33 | the companion keeps a non-empty current input, then a space, then the main client's stitched text; an empty input becomes that text alone |
| Speech.OnStart | components/translator/TranslatorClient.tsx:20 | `onstart` marks the recogniser as listening and sets the status 'Listening...'; nothing else changes |
| Speech.OnEnd | components/translator/TranslatorClient.tsx:21 | `onend` marks it idle and sets the status 'Stopped listening'; nothing else changes |
| Speech.OnError | components/translator/TranslatorClient.tsx:22 | `onerror` sets the status 'Speech recognition error' and changes nothing else, the listening flag included |
| Speech.StartSpeech | components/translator/TranslatorClient.tsx:76-81 | `start` is called exactly for an available idle recogniser; otherwise only the status changes |
| Speech.StopSpeech | components/translator/TranslatorClient.tsx:82-85 | `stop` is called exactly for a listening recogniser, with no other change |
| Speech.GuardsMatchState | app/translator-client.tsx:305-314 | `start` is never called while listening and `stop` is never called while idle; after `onstart` the stop guard fires, and after `onend` the start guard does |
| Client.DetectLanguage | app/translator-client.tsx:150-174 | blank text sends nothing; offline sends nothing and says so; otherwise one body `{q}` after 'Detecting language...'; a value only when online with text |
| Client.FailureStatus | app/translator-client.tsx:161-163 | the status of a non-ok reply, read from its `detail`; its values are stated by `Client.FailureStatuses` |
| Client.DetectFailed | app/translator-client.tsx:155-165 | a non-ok reply, arriving on any attempt after earlier ones threw, gives `null` and the failure status of its body, with no further attempt |
| Client.FailureStatuses | app/translator-client.tsx:161-171 | a string `detail` is named; a body that is not JSON or lacks `detail` gives 'Unknown error'; a `null` body is reported as unreachable |
| Client.DetectAnswered | app/translator-client.tsx:155-168 | an ok JSON reply, arriving on any attempt after earlier ones threw, gives `data[0].language` when the body is an array with a truthy first element, else `null`, with no status beyond 'Detecting language...' |
| Client.DetectNotJson | app/translator-client.tsx:155-172 | an ok reply that is not JSON, on any attempt, is reported as an unreachable service |
| Client.DetectUnreachable | app/translator-client.tsx:169-172 | three thrown attempts give `null` and the 'cannot reach' status |
| Client.ReadTranslation | app/translator-client.tsx:192-210 | a value is returned only when it is truthy, and then with 'Translation complete' |
| Client.TranslateText | app/translator-client.tsx:177-211 | nothing is sent exactly for blank text; otherwise one body and two statuses; a value always carries the completion status |
| Client.SourceDefaultsToAuto | app/translator-client.tsx:185-189 | a falsy source is sent as 'auto' and a truthy one as given |
| Client.TranslateFirstReply | app/translator-client.tsx:182-205 | the first reply to arrive, on any attempt and whatever its status, is the one decoded |
| Client.TranslateFailed | app/translator-client.tsx:194-197 | a non-empty string `error` gives `null` and 'Translation failed: ' with that text |
| Client.TranslateAnswered | app/translator-client.tsx:199-205 | without `error`, a truthy `translatedText` is returned with 'Translation complete' |
| Client.TranslateMissing | app/translator-client.tsx:199-202 | without `error` or `translatedText`, the status reads 'Translation returned empty result' |
| Client.TranslateFalsy | app/translator-client.tsx:199-202 | a falsy `translatedText` is an empty result too |
| Client.TranslateUnreadable | app/translator-client.tsx:192-209 | a body that is not JSON, or a `null` body, is a service error |
| Client.TranslateServiceError | app/translator-client.tsx:206-209 | three thrown attempts give `null` and the service-error status |
| Client.StatusIgnored | app/translator-client.tsx:182-205 | changing the status of the first reply to arrive, on whichever attempt, while keeping its body, does not change the result |
| Client.Prepend | app/translator-client.tsx:288 | the new entry comes first, then the previous entries in order, ten at most |
| Client.HistoryBounded | app/translator-client.tsx:286-288 | the history never exceeds ten entries and the newest is first |
| Client.HistoryKeepsLastTen | app/translator-client.tsx:286-288 | entry i of the history is the i-th most recent translation |
| Client.HandleDetect | app/translator-client.tsx:264-269 | the language shown is the detected one when that is truthy and 'unknown' otherwise; history, translation and port are untouched |
| Client.HandleTranslate | app/translator-client.tsx:271-296 | blank input only asks for text; otherwise the language shown is the detected one or 'unknown', a truthy translation (from the detected language or 'auto') is shown and prepended to the history with the input, and a falsy one shows 'Translation failed' with the history unchanged |
| Client.HandleOcr | app/translator-client.tsx:316-343 | an OCR failure sends nothing; recognised text replaces the input and ends with the OCR status; a truthy translation of it is shown and prepended to the history, and a falsy one shows 'Translation failed' with the history unchanged |
| Client.TestBackend | app/translator-client.tsx:214-241 | a test request is sent exactly when online with a port found, and it goes to the port in effect before the probe |
| Client.UpdateOnline | app/translator-client.tsx:138-147 | only the status changes, to 'Ready' or the offline message |
| Client.ClearInput | app/translator-client.tsx:345-350 | everything but the port and the history returns to its initial value |
| Companion.DetectLanguage | components/translator/TranslatorClient.tsx:39-52 | blank text sends nothing; for other text the value is the `language` of the first element exactly when the reply is a JSON array whose first element is truthy, and `null` otherwise |
| Companion.Translate | components/translator/TranslatorClient.tsx:54-65 | one request always; a value exactly when the body and its `translatedText` are truthy, and it is that field |
| Companion.OnDetect | components/translator/TranslatorClient.tsx:87-92 | the language shown is the detected one when truthy and 'unknown' otherwise; the status reads 'Language detection done'; translation and input are untouched |
| Companion.OnTranslate | components/translator/TranslatorClient.tsx:94-101 | the last request translates from the detected language, or from 'auto' when detection gave null; the detected language or 'unknown' and the translation or 'Translation failed' are shown; the status ends 'Translation complete' |
| Companion.SourceAlwaysSet | components/translator/TranslatorClient.tsx:60 | the source sent is always truthy, and equals the given source when that is truthy |
| Companion.BlankInputStillTranslates | components/translator/TranslatorClient.tsx:94-101 | blank input still sends one translation from 'auto' and reports success |
| Companion.FailuresLookAlike | components/translator/TranslatorClient.tsx:56-64 | a thrown request and a reply that is not JSON leave the same state, 'Translation failed' |
| TextTranslator.HandleTranslate | components/text-translator.tsx:29-52 | blank text sends nothing and changes nothing; otherwise one request; the reply's text, "" or the error text; loading ends false |
| TextTranslator.Swap | components/text-translator.tsx:54-59 | languages and texts trade places; loading is untouched |
| TextTranslator.SwapInvolution | components/text-translator.tsx:54-59 | swapping twice restores every field |
| TextTranslator.EnabledIffSends | components/text-translator.tsx:129 | the button is enabled exactly when a click would send with nothing in flight, and a sent request leaves it enabled |
| TextTranslator.SwapAfterTranslate | components/text-translator.tsx:44-59 | a swap after a translation puts the result up as the new source, languages reversed |
| FlaskServer.GetTranslator | python_server/app.py:36-43 | construction succeeds exactly when one of the first three attempts does; it takes the first such one |
| FlaskServer.EnsureTranslator | python_server/app.py:45-49 | an existing translator is kept; otherwise one is built, or the RuntimeError's message is raised |
| FlaskServer.RunAttempt | python_server/app.py:111-122 | a translator is built exactly when missing and constructible; with a translator in place, a call with text is usable and a raising call fails with its message |
| FlaskServer.Loop | python_server/app.py:110-130 | success comes within the remaining attempts and leaves a translator; failure runs every remaining attempt |
| FlaskServer.TranslateWithRetry | python_server/app.py:106-130 | at most `max_retries` attempts; a failure makes all of them |
| FlaskServer.SuccessIsFirstUsable | python_server/app.py:110-122 | the returned translation is that of the first attempt whose call gives text with a translator in place; every earlier call with text had no translator |
| FlaskServer.LastAttemptUsable | python_server/app.py:116-122 | a successful loop ends on an attempt whose call returned text, and that text is the result |
| FlaskServer.PassedOver | python_server/app.py:110-122 | an attempt before the last one that ran, whose call would give text, was skipped only because no translator could be built |
| FlaskServer.RebuildAfterFailure | python_server/app.py:112-128 | after a raising attempt the next one builds a new translator exactly when construction succeeds |
| FlaskServer.SleepsCountFailures | python_server/app.py:124-128 | when every attempt raises, each one sleeps once, and no translator is left |
| FlaskServer.SleepsCountRaises | python_server/app.py:110-128 | with a translator always constructible and no call giving text, the loop fails and sleeps exactly once per raising call; empty results do not sleep |
| FlaskServer.FailureMessage | python_server/app.py:106-130 | with a translator always constructible and no call giving text, the error names `max_retries` and the text of the last exception raised, or 'None' when nothing raised |
| FlaskServer.LastRaiseOfFinal | python_server/app.py:124-126 | when the final attempt raises, its message is the last error, whatever came before |
| FlaskServer.FinalRaiseReported | python_server/app.py:124-130 | a run whose final attempt raises reports that attempt's message after the attempt count |
| FlaskServer.EmptyResultsMessage | python_server/app.py:108-130 | when every call returns nothing or empty text, the message names the count and 'None' |
| FlaskServer.StrippedField | python_server/app.py:86 | a non-dict body raises the `get` attribute error; a string value, or the default, is returned stripped; any other value raises the `strip` attribute error |
| FlaskServer.Query | python_server/app.py:85-86 | a body that does not parse raises the decode error; a text comes only from a dict |
| FlaskServer.DetectText | python_server/app.py:91-101 | 200 exactly with a translator and a detection; without a translator, the `detect` attribute error with 500 |
| FlaskServer.Detect | python_server/app.py:82-101 | every error is 500 with its text; a blank `q` gives `[]` |
| FlaskServer.TranslateText | python_server/app.py:145-157 | one loop run with the given arguments; 200 exactly when the loop succeeds, with its text and languages; otherwise 503 'Translation service unavailable' |
| FlaskServer.Translate | python_server/app.py:132-160 | an unreadable body is 500 with its text; a blank `q` is answered "" without a loop; otherwise the loop runs once with the stripped `q` and the `source` and `target` read from the body |
| FlaskServer.BlankQueryAnswered | python_server/app.py:86-142 | a missing or all-white-space `q` gives `[]` from `/detect` and an empty translation from `/translate`, without a loop |
| FlaskServer.DetectAfterFailedTranslate | python_server/app.py:82-157 | after a translation whose attempts all raised, a detection with text fails on the missing translator |
| FlaskServer.TranslateArguments | python_server/app.py:136-145 | the text is `q` stripped; `source` and `target` default to 'auto' and 'en' and are otherwise passed as given |
| FlaskServer.SelectPort | python_server/app.py:165-179 | the first bindable port of 5002..5009 is used; with none the process exits with 1 |
| FlaskServer.Boot | python_server/app.py:51-55 | a translator that cannot be built exits with 1 before any port is tried |
| ProxyServer.BodyGet | python_server/server.py:42-44 | a present key gives its value and a missing one the default |
| ProxyServer.Unread | python_server/server.py:26-27 | an unparsable body is the framework's 400 and a non-object the framework's 500, with nothing called |
| ProxyServer.DetectReply | python_server/server.py:30-37 | 200 exactly for a detected language; the two failure kinds give 500 with their own error names |
| ProxyServer.DetectRoute | python_server/server.py:24-37 | the detector is called exactly for a truthy `q`; a falsy `q` gives `[]` |
| ProxyServer.ResolveSource | python_server/server.py:49-57 | detection runs exactly when the source is falsy or 'auto'; it gives 'auto' exactly when it fails or detects 'auto' |
| ProxyServer.UsedSource | python_server/server.py:59-64 | a missing source is used as 'auto'; any other is used as given |
| ProxyServer.TranslateRoute | python_server/server.py:39-67 | only a `null` `q` short-circuits; otherwise one translator call with the resolved source and the target |
| ProxyServer.TranslateReply | python_server/server.py:65-67 | 200 exactly for a translation, echoing the source and target; otherwise 500 'translate failed' |
| ProxyServer.EchoedSourceIsUsed | python_server/server.py:49-65 | the source reported is the one used, never null: a given source verbatim, otherwise the detected code or 'auto' |
| ProxyServer.WhitespaceReachesDetector | python_server/server.py:27-33 | a `q` of spaces is handed to the detector, not answered `[]` |
| ProxyServer.MissingTextStillTranslated | python_server/server.py:42-46 | a missing `q` is translated as '' |
| ProxyServer.DestEchoesTarget | python_server/server.py:44-65 | `dest` is the request's target, or 'en' |
| Backend.ReadString | backend/app.py:18-22 | an absent field takes its default; a present one is accepted exactly when it is a string |
| Backend.ValidateTranslate | backend/app.py:18-22 | a body is valid exactly when `q` is a string and the optional fields are strings; a present field is carried into the request, and an absent one defaults to 'auto', 'en' or 'text' |
| Backend.DetectText | backend/app.py:31-39 | a blank `q` gives `[]` without detection; a LangDetectException is 400 with its text; anything else is 500 |
| Backend.Detect | backend/app.py:24-32 | a body without a string `q` is the framework's 422 |
| Backend.EffectiveSource | backend/app.py:47-49 | 'auto' and the empty source both become 'auto'; any other is passed on |
| Backend.TranslateRequest | backend/app.py:41-51 | a blank `q` makes no call; otherwise one call with the effective source, whose reply echoes it; any exception is 400 |
| Backend.Translate | backend/app.py:18-51 | invalid bodies are the framework's 422; valid ones reach the handler |
| Backend.DefaultsReachTranslator | backend/app.py:20-48 | a body with only `q` is translated from 'auto' to 'en' |
| Backend.DiffersFromProxy | backend/app.py:33-48 | a `q` of spaces is not detected here, unlike in the proxy; an 'auto' source is not detected here either |

## Left out

- Floating point: numbers are integers. `text.length / 10` is modelled through an exact ceiling. A `length` value that is a fraction, an exponent, hexadecimal or "Infinity" is taken as NaN.
- TextToSpeech.StringToNumber: covers the integer forms of a string and returns NaN for every other form, unlike ECMAScript ToNumber.
- The OCR engine: Tesseract loading and recognition are reduced to their four outcomes in `Client.HandleOcr`, because they are engine code.
- The `speak` helpers of both clients and `speechSynthesis`: they only hand text to the browser.
- The LLM routes under app/api/ocr, app/api/translate and app/api/speech-to-text: they only wrap a remote text generator. The card's view of `/api/translate` is its reply shapes, in `TextTranslator.Reply`.
- Real time: timers, `setTimeout` waits and `time.sleep` are returned as counts and lists of milliseconds. The one-second sleeps inside `get_translator` are not counted.
- Concurrency: overlapping clicks that race to set the status are not modelled. Each handler runs to completion on its own.
- The unmount cleanup that stops the recogniser at app/translator-client.tsx:114.
- CORS setup, logging, `cleanup_ports` and the `/` health routes of the servers: they do not affect any reply the model describes.
- The message of an `AbortError` is the engine's and is not modelled, and neither is the `console.log` that prints an error's name.
- FlaskServer.FailureMessage: assumes every construction succeeds. When one fails inside the loop, the attempt's exception is the RuntimeError of `get_translator`; `FlaskServer.RunAttempt` states that case.
- Framework error pages are represented by their status alone. This covers Flask's 400 and 500, FastAPI's 422 and its validation body, and the text of a 500 from an uncaught exception.
- Backend.ValidateTranslate: pydantic's coercions are not modelled; a non-string field is simply rejected.
- The language arguments that reach the translator and detector oracles do not change what those oracles answer. The model records the arguments each handler passes: the proxy's and the backend's calls, and the Flask server's loop arguments (`FlaskServer.Handled.asked`).
- Client.FailureStatuses: states the status for string, absent and `null` details only. For other detail values, the status is `JsToString` of the value, as `Client.FailureStatus` computes it.
- The `handleSpeak`, `loadTesseract` and upload-progress parts of the main client, and the page components, are view code.
