# LingoFlow translator page: session model

A Dafny model of the one stateful part of the LingoFlow translator page
(`Translator_App.py`): the per-session dictionary with its three keys
`translated_text`, `src_lang` and `targ_lang`, and the actions that read or change it.

- `Catalogue` builds `lang_map` (capitalised language name to code) and `language_names`
  (its keys, sorted) from the translator library's table, which is an input of the model:
  a sequence of (name, code) pairs in dictionary order.
- `Text` is Python's `str.strip()`, with the whitespace set of `str.isspace`.
- `Speech` is the guard of `autoplay_audio` and the code lookup of the Pronounce button.
- `Session` holds the session dictionary as a `map<string, string>` field of class
  `Session`. Its methods are the initialisation block, the two selectors, the swap callback
  and the Translate button. The translator is a function parameter that returns a
  `Result`, so it may fail. `Valid()` is the session invariant. It says the three keys are
  present, the source is "Auto Detect" or a listed language, and the target is a listed
  language. Every method keeps it, so the target is never "Auto Detect", and both
  `lang_map[...]` lookups of the Translate button always find their key.

Three points of behaviour that are easy to get wrong:
- The Translate guard is `if input_text:`. Empty input is skipped. Whitespace-only input
  is still translated (`BlankInputIsTranslated`).
- The page keeps no translation history. It has no history, restore or clear operations.
- The page does not store the input text in the session. The input is a parameter of
  `Translate`.

Files: `wrappers.dfy`, `text.dfy`, `catalogue.dfy`, `speech.dfy`, `session.dfy`.

## Model

| member | source | states |
|---|---|---|
| `Text.IsSpace` | Translator_App.py:95 | the characters `strip()` removes: the code points for which Python's `str.isspace` holds |
| `Text.TrimStart` | Translator_App.py:95 | result is a suffix of the text, starts with a non-whitespace character if non-empty, and only whitespace was dropped |
| `Text.TrimEnd` | Translator_App.py:95 | result is a prefix of the text, ends with a non-whitespace character if non-empty, and only whitespace was dropped |
| `Text.Strip` | Translator_App.py:95 | `text.strip()` is empty exactly when every character is whitespace, and otherwise starts and ends with a non-whitespace character |
| `Text.StripIsSlice` | Translator_App.py:95 | what `strip()` keeps is one contiguous slice of the text, and everything before and after that slice is whitespace |
| `Catalogue.Capitalize` | Translator_App.py:78 | `capitalize()` keeps the length, upper-cases the first letter and leaves no upper-case letter after it |
| `Catalogue.CapitalizedIsNeverAutoDetect` | Translator_App.py:78 | no capitalised name can equal "Auto Detect" |
| `Catalogue.Names` | Translator_App.py:78 | the capitalised table names, position by position |
| `Catalogue.LangMap` | Translator_App.py:78 | the keys of `lang_map` are exactly the capitalised names, and every value is a code the table pairs with that name |
| `Catalogue.LangMapLastWins` | Translator_App.py:78 | of two names that capitalise alike, the later entry's code is the one kept |
| `Catalogue.AutoDetectIsNotALanguage` | Translator_App.py:78 | "Auto Detect" is never a key of `lang_map` |
| `Catalogue.CodesComeFromTable` | Translator_App.py:78 | a code absent from the table (such as "auto") is not a value of `lang_map` |
| `Catalogue.KeyOrder` | Translator_App.py:78-79 | the dictionary's key order lists each key of `lang_map` exactly once |
| `Catalogue.LexLess` | Translator_App.py:79 | the string order `sorted` uses: lexicographic by code point, with a proper prefix first |
| `Catalogue.LexLessIrreflexive` | Translator_App.py:79 | no name sorts before itself |
| `Catalogue.LexLessTotal` | Translator_App.py:79 | of two different names one sorts first |
| `Catalogue.LexLessTransitive` | Translator_App.py:79 | string order is transitive |
| `Catalogue.Insert` | Translator_App.py:79 | inserting a new name into a sorted list keeps it sorted and adds exactly that name |
| `Catalogue.SortNames` | Translator_App.py:79 | `sorted` of distinct names is strictly increasing, has the same length and the same names |
| `Catalogue.LanguageNames` | Translator_App.py:79 | `language_names` is strictly sorted, repeats nothing and holds exactly the keys of `lang_map` |
| `Catalogue.SourceOptions` | Translator_App.py:123 | the options of the source selector are "Auto Detect" and every language name |
| `Speech.SpeechRequest` | Translator_App.py:94-97 | speech is requested exactly when the text is not blank, with the text unstripped and the given code |
| `Speech.ListenRequest` | Translator_App.py:134-135 | the Listen button speaks the input text in "en", and only when the input is not blank |
| `Speech.PronounceCode` | Translator_App.py:142 | `lang_map.get(target, 'es')`: the target's code when present, otherwise "es" |
| `Session.Initialised` | Translator_App.py:81-86 | the three keys are present afterwards, existing values are kept, and absent keys get "", "Auto Detect" and "Spanish" |
| `Session.InitialisedIdempotent` | Translator_App.py:81-86 | running the initialisation block again changes nothing |
| `Session.Swapped` | Translator_App.py:88-92 | with source "Auto Detect" nothing changes. Otherwise source and target are exchanged. No other key changes. |
| `Session.SwappedTwice` | Translator_App.py:90-92 | with a concrete target, swapping twice restores the state |
| `Session.SwappedKeepsTargetConcrete` | Translator_App.py:89 | after a swap the target is "Auto Detect" only if both the source and the target were "Auto Detect" before it |
| `Session.SwapNeedsConcreteTarget` | Translator_App.py:89 | a concrete example: if the target were "Auto Detect", two swaps would not restore the state |
| `Session.SourceCode` | Translator_App.py:153 | "Auto Detect" resolves to "auto", any other source to its code |
| `Session.SourceCodeIsAutoIff` | Translator_App.py:153 | when no language has the code "auto", the source code is "auto" exactly for "Auto Detect" |
| `Session.PlanTranslation` | Translator_App.py:150-155 | no translator call exactly for empty input, otherwise one call with the input text, the resolved source code and the target's code |
| `Session.BlankInputIsTranslated` | Translator_App.py:151 | whitespace-only input still reaches the translator, although its strip is empty |
| `Session.Session.constructor` | Translator_App.py:78-79 | a new session has an empty dictionary and the catalogue built from the table, with "Spanish" listed and "Auto Detect" not |
| `Session.Session.Init` | Translator_App.py:81-86 | the dictionary becomes its initialised form and the session invariant holds |
| `Session.Session.SelectSource` | Translator_App.py:123 | the chosen source option is stored under `src_lang`, nothing else changes, the invariant is kept |
| `Session.Session.SelectTarget` | Translator_App.py:128 | the chosen target language is stored under `targ_lang`, nothing else changes, the invariant is kept |
| `Session.Session.TargetIsConcrete` | Translator_App.py:128 | in a valid session the target is not "Auto Detect" and has a code |
| `Session.Session.Swap` | Translator_App.py:88-92 | the dictionary becomes its swapped form and the invariant is kept, so the target stays concrete |
| `Session.Session.Translate` | Translator_App.py:150-157 | empty input is skipped with no change. Otherwise the translator is asked with the resolved codes. An answer becomes `translated_text` and the selections are kept. A failure changes nothing. |
| `Session.Session.PronounceRequest` | Translator_App.py:141-143 | Pronounce speaks `translated_text` unless it is blank. The code is the target's code in a valid session, and falls back to "es" for a target without a code. |

## Left out

- Page layout, CSS, the animation header, toasts, the spinner, the Copy button and the output
  box's placeholder text (lines 9-75, 108-149, 158-162): presentation only.
- `st.rerun()` (line 157): the rerun executes the initialisation block again, and
  `InitialisedIdempotent` shows that this changes nothing.
- The Lottie download (lines 13-19): network I/O.
- The translator (line 155): a foreign network call. It is a parameter of `Translate`, and
  an exception it raises is its `Failure`.
- Session.Session.Translate: does not state that the translator is called only once, because
  a function parameter leaves no record of its calls.
- Speech synthesis, the `temp.mp3` file, base64 encoding, the audio tag and the error
  message on failure (lines 96-105): foreign library calls and file I/O. Only the guard is
  modelled.
- The contents of the library's language table (lines 6, 78): external data, an input of the
  model. The session requires that some entry capitalises to "Spanish".
- Catalogue.Capitalize: only ASCII letters change case, because Python's Unicode case
  mapping is not modelled.
- Other keys in the session dictionary, such as widget keys: other parts of the page write
  them, and every operation here leaves them unchanged.
