/** The text translator card, components/text-translator.tsx: four fields
    and a loading flag, a Translate action against the app's own
    `/api/translate` route, and a swap of languages and texts. That route
    answers either `{translatedText}` with the model's text or `{error}`
    with status 500, so the card meets one of the replies below. */
module TextTranslator {
  import Client

  datatype State = State(sourceText: string, translatedText: string, sourceLang: string, targetLang: string, loading: bool)

  /** The state at mount. */
  const Initial := State("", "", "en", "es", false)

  /** How the request to `/api/translate` ends: a JSON reply that has a
      `translatedText` or not, a reply that is not JSON, or a thrown fetch. */
  datatype Reply = Answered(translatedText: string) | AnsweredWithout | Unreadable | FetchThrew

  /** The body the card posts. */
  datatype Request = Request(text: string, sourceLang: string, targetLang: string)

  datatype Outcome = Outcome(state: State, sent: seq<Request>)

  /** `handleTranslate()`: nothing when the source text is blank; otherwise
      the reply's text (or "" when it has none) replaces the translation, a
      failure shows 'Error translating text', and loading ends false. */
  function HandleTranslate(s: State, reply: Reply): (o: Outcome)
    ensures Client.Blank(s.sourceText) <==> o.sent == []
    ensures Client.Blank(s.sourceText) ==> o.state == s
    ensures !Client.Blank(s.sourceText) ==>
      o.sent == [Request(s.sourceText, s.sourceLang, s.targetLang)] && !o.state.loading
      && o.state.(translatedText := s.translatedText, loading := s.loading) == s
    ensures !Client.Blank(s.sourceText) && reply.Answered? ==> o.state.translatedText == reply.translatedText
    ensures !Client.Blank(s.sourceText) && reply.AnsweredWithout? ==> o.state.translatedText == ""
    ensures !Client.Blank(s.sourceText) && (reply.Unreadable? || reply.FetchThrew?) ==>
      o.state.translatedText == "Error translating text"
  {
    if Client.Blank(s.sourceText) then Outcome(s, [])
    else
      var shown :=
        match reply
        case Answered(t) => t
        case AnsweredWithout => ""
        case Unreadable => "Error translating text"
        case FetchThrew => "Error translating text";
      Outcome(s.(translatedText := shown, loading := false), [Request(s.sourceText, s.sourceLang, s.targetLang)])
  }

  /** `handleSwapLanguages()`: the two languages trade places, and so do
      the two texts, each read from the state before the swap. */
  function Swap(s: State): (t: State)
    ensures t.sourceLang == s.targetLang && t.targetLang == s.sourceLang
    ensures t.sourceText == s.translatedText && t.translatedText == s.sourceText
    ensures t.loading == s.loading
  {
    s.(sourceLang := s.targetLang, targetLang := s.sourceLang,
       sourceText := s.translatedText, translatedText := s.sourceText)
  }

  /** Swapping twice restores every field. */
  lemma SwapInvolution(s: State)
    ensures Swap(Swap(s)) == s
  {
  }

  /** `disabled={loading || !sourceText.trim()}`. */
  predicate TranslateEnabled(s: State) {
    !s.loading && !Client.Blank(s.sourceText)
  }

  /** The button is enabled exactly when a click would send a request and
      nothing is in flight; after a request the button is enabled again
      unless the shown source text is blank. */
  lemma EnabledIffSends(s: State, reply: Reply)
    ensures TranslateEnabled(s) <==> !s.loading && HandleTranslate(s, reply).sent != []
    ensures HandleTranslate(s, reply).sent != [] ==> TranslateEnabled(HandleTranslate(s, reply).state)
  {
  }

  /** A swap after a translation puts the translation up for translating
      back: the new source is the old result and the languages are
      reversed. */
  lemma SwapAfterTranslate(s: State, t: string)
    requires !Client.Blank(s.sourceText)
    ensures var u := Swap(HandleTranslate(s, Answered(t)).state);
      u.sourceText == t && u.translatedText == s.sourceText
      && u.sourceLang == s.targetLang && u.targetLang == s.sourceLang && !u.loading
  {
  }
}
