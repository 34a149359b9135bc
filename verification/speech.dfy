/** Speech recognition as both browser clients wire it up: the `onresult`
    handler that stitches transcripts into the input box, and the guards
    and handlers around the recogniser. The recogniser itself is the
    browser's; only what the handlers do with its events is modelled. */
module Speech {

  /** One entry of `evt.results`: whether it is final, and the transcript
      of its first alternative. */
  datatype Result = Result(isFinal: bool, transcript: string)

  /** Concatenated transcripts of the final results, in order. */
  function Finals(rs: seq<Result>): string {
    if rs == [] then ""
    else Finals(rs[..|rs| - 1]) + (if rs[|rs| - 1].isFinal then rs[|rs| - 1].transcript else "")
  }

  /** Concatenated transcripts of the interim results, in order. */
  function Interims(rs: seq<Result>): string {
    if rs == [] then ""
    else Interims(rs[..|rs| - 1]) + (if rs[|rs| - 1].isFinal then "" else rs[|rs| - 1].transcript)
  }

  /** The loop of `onresult`: from `resultIndex` to the end, each final
      transcript goes to `final`, every other to `interim`. */
  method CollectTranscripts(results: seq<Result>, resultIndex: nat) returns (final: string, interim: string)
    ensures resultIndex < |results| ==>
      final == Finals(results[resultIndex..]) && interim == Interims(results[resultIndex..])
    ensures resultIndex >= |results| ==> final == "" && interim == ""
  {
    final, interim := "", "";
    var i := resultIndex;
    while i < |results|
      invariant resultIndex < |results| ==> resultIndex <= i <= |results|
      invariant resultIndex < |results| ==>
        final == Finals(results[resultIndex..i]) && interim == Interims(results[resultIndex..i])
      invariant resultIndex >= |results| ==> final == "" && interim == ""
      decreases |results| - i
    {
      var r := results[i];
      assert results[resultIndex..i + 1][..i - resultIndex] == results[resultIndex..i];
      if r.isFinal {
        final := final + r.transcript;
      } else {
        interim := interim + r.transcript;
      }
      i := i + 1;
    }
    if resultIndex < |results| {
      assert results[resultIndex..i] == results[resultIndex..];
    }
  }

  /** Results from `resultIndex` on (none when it is past the end). */
  function Pending(results: seq<Result>, resultIndex: nat): seq<Result> {
    if resultIndex < |results| then results[resultIndex..] else []
  }

  /** `(interim ? ' ' + interim : '')`. */
  function InterimSuffix(interim: string): string {
    if interim == "" then "" else " " + interim
  }

  /** The main client (app/translator-client.tsx) overwrites the input with
      the finals and, after a space, any interim text. */
  function Overwrite(results: seq<Result>, resultIndex: nat): (v: string)
    ensures var rs := Pending(results, resultIndex);
      |v| >= |Finals(rs)| && v[..|Finals(rs)|] == Finals(rs)
      && (Interims(rs) == "" <==> v == Finals(rs))
    ensures var rs := Pending(results, resultIndex);
      Interims(rs) != "" ==> v[|Finals(rs)|..] == " " + Interims(rs)
  {
    var rs := Pending(results, resultIndex);
    Finals(rs) + InterimSuffix(Interims(rs))
  }

  /** The companion client (components/translator/TranslatorClient.tsx)
      appends instead: the current value and a space when it was non-empty,
      then the same stitched text. */
  function Append(current: string, results: seq<Result>, resultIndex: nat): (v: string)
    ensures |v| >= |current| && v[..|current|] == current
    ensures current == "" ==> v == Overwrite(results, resultIndex)
    ensures current != "" ==> v == current + " " + Overwrite(results, resultIndex)
  {
    (if current != "" then current + " " else "") + Overwrite(results, resultIndex)
  }

  /** The finals of a split list are the finals of each part, in order. */
  lemma {:induction false} SplitFinals(a: seq<Result>, b: seq<Result>)
    ensures Finals(a + b) == Finals(a) + Finals(b)
    decreases |b|
  {
    if b == [] {
      assert a + b == a;
    } else {
      var c := a + b;
      assert c[..|c| - 1] == a + b[..|b| - 1];
      SplitFinals(a, b[..|b| - 1]);
    }
  }

  /** The same for the interims. */
  lemma {:induction false} SplitInterims(a: seq<Result>, b: seq<Result>)
    ensures Interims(a + b) == Interims(a) + Interims(b)
    decreases |b|
  {
    if b == [] {
      assert a + b == a;
    } else {
      var c := a + b;
      assert c[..|c| - 1] == a + b[..|b| - 1];
      SplitInterims(a, b[..|b| - 1]);
    }
  }

  /** When every result is final, the interim part is empty and the finals
      are all the transcripts. */
  lemma {:induction false} AllFinal(rs: seq<Result>)
    requires forall i :: 0 <= i < |rs| ==> rs[i].isFinal
    ensures Interims(rs) == "" && Finals(rs) == AllText(rs)
  {
    if rs != [] {
      AllFinal(rs[..|rs| - 1]);
    }
  }

  /** When no result is final, the finals are empty and the interim part
      is all the transcripts. */
  lemma {:induction false} NoneFinal(rs: seq<Result>)
    requires forall i :: 0 <= i < |rs| ==> !rs[i].isFinal
    ensures Finals(rs) == "" && Interims(rs) == AllText(rs)
  {
    if rs != [] {
      NoneFinal(rs[..|rs| - 1]);
    }
  }

  /** The transcripts of all results, in order. */
  function AllText(rs: seq<Result>): string {
    if rs == [] then "" else AllText(rs[..|rs| - 1]) + rs[|rs| - 1].transcript
  }

  /** The recogniser as the handlers see it: whether the browser provides
      one, whether it is running, and the status line. */
  datatype Recogniser = Recogniser(available: bool, recognizing: bool, status: string)

  /** What a guard asks of the browser's recogniser. */
  datatype Call = CallStart | CallStop | NoCall

  /** `onstart`: listening, and the status says so; nothing else changes. */
  function OnStart(r: Recogniser): (s: Recogniser)
    requires r.available
    ensures s.recognizing && s.available
    ensures s.status == "Listening..."
    ensures s.(recognizing := r.recognizing, status := r.status) == r
  {
    r.(recognizing := true, status := "Listening...")
  }

  /** `onend`: idle, and the status says so; nothing else changes. */
  function OnEnd(r: Recogniser): (s: Recogniser)
    requires r.available
    ensures !s.recognizing && s.available
    ensures s.status == "Stopped listening"
    ensures s.(recognizing := r.recognizing, status := r.status) == r
  {
    r.(recognizing := false, status := "Stopped listening")
  }

  /** `onerror`: only the status changes. */
  function OnError(r: Recogniser): (s: Recogniser)
    requires r.available
    ensures s.recognizing == r.recognizing && s.available
    ensures s.status == "Speech recognition error"
    ensures s.(status := r.status) == r
  {
    r.(status := "Speech recognition error")
  }

  /** `startSpeech`: start an idle recogniser; otherwise, also when it is
      already listening, report it unavailable. */
  function StartSpeech(r: Recogniser): (res: (Recogniser, Call))
    ensures res.1 == CallStart <==> r.available && !r.recognizing
    ensures res.1 != CallStop
    ensures res.1 == CallStart ==> res.0 == r
    ensures res.1 == NoCall ==> res.0 == r.(status := "Speech recognition not available")
  {
    if r.available && !r.recognizing then (r, CallStart)
    else (r.(status := "Speech recognition not available"), NoCall)
  }

  /** `stopSpeech`: stop a listening recogniser, otherwise nothing. */
  function StopSpeech(r: Recogniser): (res: (Recogniser, Call))
    ensures res.0 == r
    ensures res.1 == CallStop <==> r.available && r.recognizing
    ensures res.1 != CallStart
  {
    if r.available && r.recognizing then (r, CallStop) else (r, NoCall)
  }

  /** The guards never call `start` on a running recogniser nor `stop` on
      an idle one, so the recogniser never sees the call it would reject;
      a start followed by the browser's `onstart` makes the stop guard
      fire. */
  lemma GuardsMatchState(r: Recogniser)
    requires r.available
    ensures StartSpeech(r).1 == CallStart ==> !r.recognizing && StopSpeech(OnStart(r)).1 == CallStop
    ensures StopSpeech(r).1 == CallStop ==> r.recognizing && StartSpeech(OnEnd(r)).1 == CallStart
    ensures StartSpeech(OnStart(r)).1 == NoCall && StopSpeech(OnEnd(r)).1 == NoCall
  {
  }
}
