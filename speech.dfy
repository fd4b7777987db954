/**
 * The speech side: which (text, language code) pair is handed to the speech synthesiser,
 * if any. The synthesiser, the temporary audio file and the audio tag are not modelled.
 */
module Speech {
  import opened Wrappers
  import opened Text

  /** What the synthesiser is asked to speak. */
  datatype Utterance = Utterance(text: string, lang: string)

  /** Language code the Listen button passes for the input text. */
  const ListenCode := "en"

  /** Code the Pronounce button falls back to when the target is not in the map. */
  const FallbackCode := "es"

  /** The guard of `autoplay_audio`: blank text asks for nothing; any other text is
      spoken as given, unstripped, in the given language. */
  function SpeechRequest(text: string, lang: string): (r: Option<Utterance>)
    ensures r.None? <==> IsBlank(text)
    ensures r.Some? ==> r.value == Utterance(text, lang)
  {
    if Strip(text) != [] then Some(Utterance(text, lang)) else None
  }

  /** The Listen button: the input text, always in English. */
  function ListenRequest(inputText: string): (r: Option<Utterance>)
    ensures r.None? <==> IsBlank(inputText)
    ensures r.Some? ==> r.value.text == inputText && r.value.lang == ListenCode
  {
    SpeechRequest(inputText, ListenCode)
  }

  /** `lang_map.get(target, 'es')`: the target's code, or Spanish when it has none. */
  function PronounceCode(langMap: map<string, string>, target: string): (code: string)
    ensures target in langMap ==> code == langMap[target]
    ensures target !in langMap ==> code == FallbackCode
  {
    if target in langMap then langMap[target] else FallbackCode
  }
}
