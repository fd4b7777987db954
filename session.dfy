/**
 * The per-session state of the translator page and the actions that change it:
 * filling in defaults at the start of every run, the selectors, the swap button and the
 * Translate button. The session dictionary is modelled as a map from key to value; only
 * the three keys below are this page's own state.
 */
module Session {
  import opened Wrappers
  import opened Text
  import opened Catalogue
  import opened Speech

  const TranslatedKey := "translated_text"
  const SrcKey := "src_lang"
  const TargKey := "targ_lang"

  /** Target language of a fresh session. */
  const DefaultTarget := "Spanish"

  /** Source code handed to the translator for "Auto Detect". */
  const AutoCode := "auto"

  type State = map<string, string>

  /** `if key not in state: state[key] = v`. */
  function SetDefault(s: State, key: string, v: string): State {
    if key in s then s else s[key := v]
  }

  /** The state after the initialisation block: each of the three keys gets its default
      only when it is absent; keys already present keep their values. */
  function Initialised(s: State): (r: State)
    ensures r.Keys == s.Keys + {TranslatedKey, SrcKey, TargKey}
    ensures forall k :: k in s ==> r[k] == s[k]
    ensures TranslatedKey !in s ==> r[TranslatedKey] == ""
    ensures SrcKey !in s ==> r[SrcKey] == AutoDetect
    ensures TargKey !in s ==> r[TargKey] == DefaultTarget
  {
    SetDefault(SetDefault(SetDefault(s, TranslatedKey, ""), SrcKey, AutoDetect), TargKey, DefaultTarget)
  }

  /** Every rerun executes the initialisation block again; after the first it changes nothing. */
  lemma InitialisedIdempotent(s: State)
    ensures Initialised(Initialised(s)) == Initialised(s)
  {
  }

  /** The state after `swap_languages`: nothing when the source is "Auto Detect",
      otherwise source and target exchanged; every other key is untouched. */
  function Swapped(s: State): (r: State)
    requires SrcKey in s && TargKey in s
    ensures r.Keys == s.Keys
    ensures forall k :: k in s && k != SrcKey && k != TargKey ==> r[k] == s[k]
    ensures s[SrcKey] == AutoDetect ==> r == s
    ensures s[SrcKey] != AutoDetect ==> r[SrcKey] == s[TargKey] && r[TargKey] == s[SrcKey]
  {
    if s[SrcKey] != AutoDetect then s[SrcKey := s[TargKey]][TargKey := s[SrcKey]] else s
  }

  /** With a concrete target, swapping twice restores the state. */
  lemma SwappedTwice(s: State)
    requires SrcKey in s && TargKey in s
    requires s[TargKey] != AutoDetect
    ensures Swapped(Swapped(s)) == s
  {
  }

  /** The guard keeps "Auto Detect" out of the target slot. */
  lemma SwappedKeepsTargetConcrete(s: State)
    requires SrcKey in s && TargKey in s
    ensures Swapped(s)[TargKey] != AutoDetect <==> s[TargKey] != AutoDetect || s[SrcKey] != AutoDetect
  {
  }

  /** Without a concrete target the swap would not undo itself: a state whose target is
      "Auto Detect" and whose source is a language is swapped once and then stays put. */
  lemma SwapNeedsConcreteTarget()
    ensures var s := map[SrcKey := "French", TargKey := AutoDetect];
            Swapped(Swapped(s)) != s
  {
  }

  /** The source code: "auto" for "Auto Detect", otherwise the name's code. */
  function SourceCode(langMap: map<string, string>, src: string): (code: string)
    requires src == AutoDetect || src in langMap
    ensures src == AutoDetect ==> code == AutoCode
    ensures src != AutoDetect ==> code == langMap[src]
  {
    if src == AutoDetect then AutoCode else langMap[src]
  }

  /** When no language has the code "auto", the source code is "auto" exactly when the
      source is "Auto Detect". */
  lemma SourceCodeIsAutoIff(langMap: map<string, string>, src: string)
    requires src == AutoDetect || src in langMap
    requires AutoCode !in langMap.Values
    ensures SourceCode(langMap, src) == AutoCode <==> src == AutoDetect
  {
  }

  /** One call of the translator: the text and the two codes. */
  datatype Request = Request(text: string, source: string, target: string)

  /** The call the Translate button makes: none for empty input (whitespace counts as
      input), otherwise the input with the resolved source and target codes. */
  function PlanTranslation(input: string, src: string, targ: string, langMap: map<string, string>): (r: Option<Request>)
    requires src == AutoDetect || src in langMap
    requires targ in langMap
    ensures r.None? <==> input == []
    ensures r.Some? ==> r.value.text == input && r.value.target == langMap[targ]
    ensures r.Some? && src == AutoDetect ==> r.value.source == AutoCode
    ensures r.Some? && src != AutoDetect ==> r.value.source == langMap[src]
  {
    if input != [] then Some(Request(input, SourceCode(langMap, src), langMap[targ])) else None
  }

  /** Whitespace-only input is sent to the translator; only the empty string is not. */
  lemma BlankInputIsTranslated(input: string, src: string, targ: string, langMap: map<string, string>)
    requires src == AutoDetect || src in langMap
    requires targ in langMap
    requires input != [] && IsBlank(input)
    ensures PlanTranslation(input, src, targ, langMap).Some?
    ensures Strip(input) == []
  {
  }

  /** What pressing Translate came to. */
  datatype Outcome = Skipped | Failed(cause: string) | Translated(text: string)

  class Session {
    /** `lang_map` and `language_names`, fixed for the session. */
    const langMap: map<string, string>
    const languageNames: seq<string>
    /** The session dictionary. */
    var state: State

    /** What the catalogue guarantees: every listed name has a code, "Auto Detect" is not a
        language, and the default target is one. */
    ghost predicate CatalogueOk()
    {
      && (forall n :: n in languageNames <==> n in langMap)
      && AutoDetect !in langMap
      && DefaultTarget in langMap
    }

    /** The selectors only ever store one of their options. */
    ghost predicate ChoicesOk()
      reads this
    {
      && (SrcKey in state ==> state[SrcKey] in SourceOptions(languageNames))
      && (TargKey in state ==> state[TargKey] in languageNames)
    }

    ghost predicate Valid()
      reads this
    {
      CatalogueOk() && ChoicesOk() && TranslatedKey in state && SrcKey in state && TargKey in state
    }

    /** A new session over the translator library's table; its dictionary starts empty. */
    constructor (table: Table)
      requires DefaultTarget in LangMap(table)
      ensures langMap == LangMap(table) && languageNames == LanguageNames(table)
      ensures state == map[]
      ensures CatalogueOk() && ChoicesOk()
    {
      langMap := LangMap(table);
      languageNames := LanguageNames(table);
      state := map[];
      AutoDetectIsNotALanguage(table);
    }

    /** The initialisation block run at the top of every script run. */
    method Init()
      requires CatalogueOk() && ChoicesOk()
      modifies this
      ensures state == Initialised(old(state))
      ensures Valid()
    {
      if TranslatedKey !in state {
        state := state[TranslatedKey := ""];
      }
      if SrcKey !in state {
        state := state[SrcKey := AutoDetect];
      }
      if TargKey !in state {
        state := state[TargKey := DefaultTarget];
      }
    }

    /** The source selector stores the chosen option under its key. */
    method SelectSource(name: string)
      requires Valid()
      requires name in SourceOptions(languageNames)
      modifies this
      ensures state == old(state)[SrcKey := name]
      ensures Valid()
    {
      state := state[SrcKey := name];
    }

    /** The target selector stores the chosen option under its key. */
    method SelectTarget(name: string)
      requires Valid()
      requires name in languageNames
      modifies this
      ensures state == old(state)[TargKey := name]
      ensures Valid()
    {
      state := state[TargKey := name];
    }

    /** In a valid session the target is a concrete language with a code. */
    lemma TargetIsConcrete()
      requires Valid()
      ensures state[TargKey] != AutoDetect && state[TargKey] in langMap
    {
    }

    /** The swap button's callback. */
    method Swap()
      requires Valid()
      modifies this
      ensures state == Swapped(old(state))
      ensures Valid()
    {
      if state[SrcKey] != AutoDetect {
        var oldSrc := state[SrcKey];
        state := state[SrcKey := state[TargKey]];
        state := state[TargKey := oldSrc];
      }
    }

    /** The Translate button, with the translator as a function that may fail. Empty input
        does nothing; otherwise the translator is asked once and, when it answers, its answer
        becomes the translated text. The selections never change. */
    method Translate(input: string, translator: Request -> Result<string, string>) returns (outcome: Outcome)
      requires Valid()
      modifies this
      ensures Valid()
      ensures outcome.Skipped? <==> input == []
      ensures outcome.Translated? ==> state == old(state)[TranslatedKey := outcome.text]
      ensures !outcome.Translated? ==> state == old(state)
      ensures input != [] ==>
                var request := Request(input, SourceCode(langMap, old(state)[SrcKey]), langMap[old(state)[TargKey]]);
                match translator(request)
                case Success(text) => outcome == Translated(text)
                case Failure(cause) => outcome == Failed(cause)
    {
      var plan := PlanTranslation(input, state[SrcKey], state[TargKey], langMap);
      match plan {
        case None =>
          outcome := Skipped;
        case Some(request) =>
          match translator(request) {
            case Success(text) =>
              state := state[TranslatedKey := text];
              outcome := Translated(text);
            case Failure(cause) =>
              outcome := Failed(cause);
          }
      }
    }

    /** The Pronounce button: the translated text in the target's code, nothing when the
        translated text is blank. In a valid session the fallback code is never used. */
    function PronounceRequest(): (r: Option<Utterance>)
      reads this
      requires TranslatedKey in state && TargKey in state
      ensures r.None? <==> IsBlank(state[TranslatedKey])
      ensures r.Some? ==> r.value.text == state[TranslatedKey]
      ensures r.Some? && Valid() ==> r.value.lang == langMap[state[TargKey]]
      ensures r.Some? && state[TargKey] !in langMap ==> r.value.lang == FallbackCode
    {
      SpeechRequest(state[TranslatedKey], PronounceCode(langMap, state[TargKey]))
    }
  }

  /** A run through a fresh session: defaults, a swap that does nothing, one translation. */
  method DefaultSessionScenario()
  {
    var table := [("english", "en"), ("spanish", "es")];
    assert Capitalize("spanish") == DefaultTarget;
    assert Capitalize("english") == "English";
    var session := new Session(table);
    session.Init();
    assert session.state[SrcKey] == AutoDetect && session.state[TargKey] == DefaultTarget;
    session.Swap();
    assert session.state[SrcKey] == AutoDetect && session.state[TargKey] == DefaultTarget;
    var stub := (r: Request) => if r == Request("Hello", AutoCode, "es") then Success("Hola") else Failure("unsupported");
    var outcome := session.Translate("Hello", stub);
    assert outcome == Translated("Hola") && session.state[TranslatedKey] == "Hola";
    outcome := session.Translate("", stub);
    assert outcome == Skipped && session.state[TranslatedKey] == "Hola";
  }
}
