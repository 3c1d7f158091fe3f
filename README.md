# Continuous dictation engine of `app.js`, modelled in Dafny

`app.js` is a single-page reading and writing aid for Indonesian. Its only
non-trivial logic is the continuous dictation engine built on the browser's
speech recognizer:

- the recognizer's `onresult` handler merges each result event into the
  module globals `finalTranscript` and `interimTranscript`;
- `startRecording`, `stopRecording`, `clearSpeech` and the `onend` / `onerror`
  handlers form a small state machine. It is driven by `isRecording` and
  `recognitionTimeout`, and `onend` restarts the recognizer after a delay;
- an error code or a microphone exception decides whether the session stops;
- a voice is picked for speech synthesis in two tiers;
- the speak and save buttons refuse text that is blank once trimmed.

The project models these parts as follows.

| file | module | what |
|---|---|---|
| `optional.dfy` | `Optional` | the `Option` datatype |
| `jstext.dfy` | `JsText` | the JavaScript `trim` (with its exact whitespace set), `toLowerCase`, `startsWith` and `includes` on `seq<char>` |
| `transcript.dfy` | `Transcript` | the value-level meaning of one `onresult` (`Merge`), of a run of them (`MergeAll`) and of the transcript seed taken when recording starts (`SeedFinal`) |
| `dictation.dfy` | `Dictation` | the error classifiers and the class `DictationSession`, whose fields are the module globals plus the textarea and whose methods are the events |
| `voices.dfy` | `Voices` | the two `voices.find` calls of `textToSpeech` / `readText` |
| `output.dfy` | `Output` | the blank-text guards of the speak and save buttons and what each button then does |
| `scenarios.dfy` | `Scenarios` | event sequences run against a `DictationSession`, each with the outcome its contracts force |

`DictationSession` sees the timers as explicit "timer fires" events:

- `pendingRestart` is a restart timer that `recognitionTimeout` still holds;
- `strayRestarts` counts restart timers whose handle a later `onend`
  overwrote, so `clearTimeout` can no longer reach them;
- `pendingFlushes` counts the 300 ms display timers of `stopRecording`.

The recognizer is observed through how many `start()` and `stop()` calls it
receives. Whether the permission request succeeds, and whether `start()`
throws, are inputs of the events.

Three behaviours of the code are worth knowing before reading the proofs:

- The code has no restart epoch and no record of how much final text it has
  already taken from an event. A result event that arrives twice appends its
  final text twice (`Transcript.RedeliveryAppendsTwice`). Results numbered
  from 0 again after a restart are simply appended
  (`Transcript.RestartAppendsNextRun`).
- `onend` overwrites the textarea with the trimmed final transcript, and
  the interim transcript is not part of it. A final result that arrives
  between `stop()` and `onend` is still appended by `onresult` and survives.
  But if the utterance is still interim when `onend` fires, its text is lost:
  the textarea ends up empty when there was no final text
  (`Scenarios.InterimTailLostAtEnd`).
- The result handler is not gated on `isRecording`, so a final result that
  arrives after "clear" puts text back (`Scenarios.ResultAfterClear`).

## Model

| member | source | states |
|---|---|---|
| JsText.TrimStartDropsLeadingWhitespace | app.js:89 | the start-trim keeps a suffix; every character it drops is whitespace, and what it keeps does not start with whitespace |
| JsText.TrimEndDropsTrailingWhitespace | app.js:89 | the end-trim keeps a prefix; every character it drops is whitespace, and what it keeps does not end with whitespace |
| JsText.TrimIsInnerSlice | app.js:386 | `trim` returns a contiguous slice of its input, with only whitespace cut at either end and no whitespace left at either end |
| JsText.BlankIffAllWhitespace | app.js:201-206 | a text trims to the empty string exactly when all of its characters are whitespace |
| JsText.TrimOfTrimmed | app.js:386 | a text with no whitespace at either end is its own trim |
| JsText.TrimIdempotent | app.js:386-388 | trimming twice gives the same result as trimming once |
| JsText.TrimDropsAddedSpace | app.js:334-336 | a trimmed non-empty text followed by one space trims back to itself |
| JsText.Trim | app.js:89 | definition: `trim` is the end-trim of the start-trim; its properties are the lemmas below |
| JsText.ToLower | app.js:226 | lower-casing keeps the length; which characters change is stated by `ToLowerChangesOnlyAsciiUpper` |
| JsText.ToLowerChangesOnlyAsciiUpper | app.js:226 | lower-casing turns each upper-case ASCII letter into its lower-case letter, keeps every other character, and leaves no upper-case ASCII letter |
| JsText.StartsWith | app.js:225 | definition: `startsWith(p)` holds when the first `|p|` characters are `p` |
| JsText.Contains | app.js:226 | definition: `includes(p)` holds when `p` is a prefix of the string or of one of its suffixes; `ContainsAt` and `ContainsHasPosition` give both directions of "occurs at some position" |
| JsText.ContainsAt | app.js:226 | `includes` holds when the pattern occurs at some position |
| JsText.ContainsHasPosition | app.js:226 | conversely, when `includes` holds, the lemma returns a position where the pattern occurs |
| JsText.AbsentPair | app.js:226 | `includes` fails when the pattern's first two characters never occur next to each other |
| Voices.IsIndonesian | app.js:235 | definition: the second-tier `find` predicate, lang starts with "id" |
| Voices.IsPreferred | app.js:224-228 | definition: the first-tier `find` predicate, an Indonesian voice whose lower-cased name contains "google" or "indonesia" |
| Voices.FindIndex | app.js:224-228 | the position `find` stops at is the first one satisfying the predicate; no position means none satisfies it |
| Voices.Find | app.js:224-228 | `find` returns the voice at the first satisfying position, and returns nothing exactly when no voice satisfies the predicate |
| Voices.SelectVoice | app.js:223-240 | the first voice whose lang starts with "id" and whose lower-cased name contains "google" or "indonesia"; failing that, the first voice whose lang starts with "id"; nothing exactly when there is no such voice. The same code is at app.js:417-433 |
| Voices.PreferredWinsOverEarlierIndonesian | app.js:230-240 | a preferred voice is picked over a plain Indonesian voice listed before it |
| Voices.GenericNotPreferred | app.js:224-228 | "Generic id-ID" is Indonesian but not preferred |
| Voices.GoogleIsPreferred | app.js:224-228 | "Premium Google id-ID Female" is preferred |
| Voices.GoogleVoiceExample | app.js:223-240 | with the generic voice listed first, the Google voice is picked |
| Transcript.Merge | app.js:52-74 | definition: one `onresult` appends the final text of the entries from `resultIndex` on and rebuilds the interim text from them; `DictationSession.OnResult` is proved equal to it and the lemmas below state its properties |
| Transcript.MergeAll | app.js:52-74 | definition: a run of `onresult` events, applied in delivery order |
| Transcript.SeedFinal | app.js:334-339 | definition: the trimmed textarea text plus one space, or nothing when it is blank; its properties are in `SeedKeepsText` |
| Transcript.SeedKeepsText | app.js:334-340 | the seed trims back to the trimmed existing text; it is empty exactly when that text is blank, and otherwise it is that trimmed text plus one space |
| Transcript.FinalTextAppend | app.js:56-61 | the final text of two runs of entries, one after the other, is the final text of the first followed by that of the second |
| Transcript.InterimTextAppend | app.js:56-64 | the same split for the interim text |
| Transcript.VisitOneMore | app.js:56-66 | one more loop step appends exactly the visited entry's final piece or interim piece |
| Transcript.FinalTextEndsWithSpace | app.js:61 | appended final text, when there is any, ends with the separating space |
| Transcript.NoFinalEntriesNoFinalText | app.js:59-65 | an event with no final entry appends nothing to the final transcript |
| Transcript.AllFinalEntriesNoInterimText | app.js:59-65 | final entries never reach the interim transcript |
| Transcript.MergeExtendsFinalAndReplacesInterim | app.js:54-66 | after an event the old final transcript is a prefix of the new one; the old interim transcript is discarded, so it does not affect the result |
| Transcript.EntriesBeforeResultIndexIgnored | app.js:56 | entries before `resultIndex` contribute nothing: two events that agree from `resultIndex` on have the same effect |
| Transcript.MergeAllExtendsFinal | app.js:52-74 | over any run of events, the final transcript the run started from stays a prefix |
| Transcript.MergeAllInterimIsLast | app.js:54-64 | after a run of events, the interim transcript is the one the last event rebuilt |
| Transcript.RedeliveryAppendsTwice | app.js:61 | an event with final text that is delivered twice appends that text twice; there is no re-delivery guard |
| Transcript.SingleEntry | app.js:56-65 | an event with one entry appends that entry's text and a space if it is final, or shows the text as the interim transcript if it is not |
| Transcript.RestartAppendsNextRun | app.js:56-61 | "halo" finalized in one run and "dunia" in the next, both numbered from 0, give "halo dunia " |
| Transcript.InterimIsReplaced | app.js:54-64 | interim events "a" then "ab" leave "ab", not "aab" |
| Transcript.ResumeKeepsOldText | app.js:334-340 | when recording resumes over non-blank text, the trimmed text and one space stay a prefix of the final transcript whatever results follow |
| Dictation.ClassifyMicrophoneError | app.js:497-506 | "NotAllowedError" or "PermissionDeniedError" means permission denied; "NotFoundError" means no microphone; anything else is another failure |
| Dictation.HandleRecognitionError | app.js:512-523 | "not-allowed" and "permission-denied" stop the session; "no-speech" is only logged; "aborted" does nothing; any other code only warns |
| Dictation.RespondToError | app.js:76-82 | "no-speech" and "audio-capture" are dropped before classification, so the "no-speech" branch of the classifier is never reached; the permission codes stop the session; "aborted" does nothing |
| Dictation.DictationSession.constructor | app.js:2-8 | at page load nothing is recorded, scheduled or called, and the transcripts and the textarea are empty |
| Dictation.DictationSession.UserEdit | app.js:334 | what the user types is the textarea text that `startRecording` later reads |
| Dictation.DictationSession.OnResult | app.js:52-74 | the new transcript pair is `Merge` of the old pair and the event; the old final transcript is a prefix of the new one; the textarea shows final text followed by interim text |
| Dictation.DictationSession.OnEnd | app.js:84-105 | the textarea shows the trimmed final transcript; a restart is scheduled exactly when recording; a restart timer that is still pending loses its handle and becomes a stray |
| Dictation.DictationSession.FireRestartTimer | app.js:93-103 | `start()` is called exactly when the session is still recording; a `start()` that throws stops the session (one `stop()`, one display timer) |
| Dictation.DictationSession.StopRecording | app.js:362-382 | recording ends, the restart timer still reachable is cancelled, `stop()` is called when a recognizer exists, and one display timer is scheduled |
| Dictation.DictationSession.FireStopFlush | app.js:384-391 | the textarea gets the trimmed final transcript when that is not blank, and is otherwise left as it was |
| Dictation.DictationSession.StartRecording | app.js:306-360 | without a recognizer nothing changes; a refused microphone is classified and ends in `stopRecording`; on a grant the final transcript is the seed taken from the textarea, the interim one is empty and `start()` is called once; a throwing `start()` is classified and ends with no recording and no pending restart |
| Dictation.DictationSession.ClearSpeech | app.js:485-494 | unconfirmed, nothing changes; confirmed, the session is stopped and both transcripts and the textarea are empty |
| Dictation.DictationSession.OnError | app.js:76-82 | the response is `RespondToError`; only a permission code stops the session, and every other code leaves the whole state unchanged |
| Dictation.DictationSession.StopAllAudio | app.js:530-533 | a recording in progress is stopped; otherwise nothing changes |
| Output.SpeakText | app.js:200-258 | blank text is refused first and a missing synthesizer second; otherwise the trimmed text is spoken in "id-ID" with the selected voice, after a cancel. `readText` at app.js:394-452 is the same |
| Output.RepeatAudio | app.js:261-268 | pressing "repeat" does exactly what pressing "listen" does |
| Output.Export | app.js:270-295 | blank text is refused; a throwing export fails; otherwise the trimmed text is saved as `<prefix><date>.txt` |
| Output.SaveText | app.js:270-295 | the editor's text is refused exactly when blank; non-blank text fails exactly when the export throws, and is otherwise saved trimmed as `teks-saya-<date>.txt` |
| Output.SaveSpeechText | app.js:458-483 | the speech text is refused exactly when blank; non-blank text fails exactly when the export throws, and is otherwise saved trimmed as `rekaman-saya-<date>.txt` |
| Output.PortTextIsClean | app.js:201-216 | text handed to the synthesizer, or written by either save button, is non-empty and already trimmed |
| Output.WhitespaceOnlyIsEmpty | app.js:201-206 | whitespace-only text is refused by every speak and save button |
| Scenarios.StopBeforeRestartFires | app.js:362-369 | after two `onend` events and a stop, the restart timer whose handle was lost fires without calling `start()` |
| Scenarios.NoStartAfterStop | app.js:93-101 | from any state, after `stopRecording` a firing restart timer calls no `start()`, and the session stays stopped |
| Scenarios.DictationAcrossRestart | app.js:84-105 | "apa kabar", then an automatic restart, then "lagi" shows "apa kabar lagi ", with two `start()` calls |
| Scenarios.ResumeExistingText | app.js:333-340 | recording over the text "halo" and finalizing "apa" shows "halo apa " |
| Scenarios.InterimTailLostAtEnd | app.js:89 | "testing", still interim when recording stops, is shown until `onend` fires, then lost; it never becomes final |
| Scenarios.ResultAfterClear | app.js:485-494 | a final result that arrives after "clear" puts its text back into the textarea |
| Scenarios.MicrophoneRefused | app.js:355-358 | a refused microphone is reported as permission denied; `stop()` is called once and `start()` never |

## Left out

- DOM and UI are not modelled: screen switching, showing and hiding buttons, the `alert` / `confirm` texts, status-bar messages and auto-scroll. Only the outcome kinds are kept (`StartOutcome`, `ErrorResponse`, `SpeakOutcome`, `SaveOutcome`); `confirm` becomes the `confirmed` parameter of `ClearSpeech`.
- The PWA install prompt and the service-worker registration are platform plumbing.
- `getUserMedia` and the stopping of its tracks are asynchronous browser I/O. Only the outcome (granted, or an exception name) is an input of `StartRecording`, and the event is taken to complete before the next one.
- The `Blob` / object-URL / anchor-click download is browser I/O. `Export` returns the file name and contents it would write, and a flag says whether the export throws. The date is a parameter standing for the clock.
- `speechSynthesis.speak` / `cancel` and the utterance event handlers are foreign calls. `rate`, `pitch` and `volume` are floating-point constants and are not modelled. `clearText` (`textEditor` emptied and speech cancelled) only touches those.
- Timer durations (100 ms, 300 ms) are replaced by explicit fire events in any order the caller chooses. The 500 ms status timer of `startRecording` only writes the status bar.
- The `microphonePermissionGranted` flag is written but never read, and `currentUtterance` only holds the synthesizer's utterance.
- `repeatSpeech` is exactly `readText`, which is `Output.SpeakText` on the speech textarea.
- The `onvoiceschanged` logging and the `beforeunload` hook only log, or only call `stopAllAudio`.
- `recognition.onstart` only writes the status bar.
- An exception from `recognition.stop()` is swallowed by `stopRecording` and changes no state, so `stop()` is counted whether or not it throws.
- JsText.ToLower: only ASCII letters are lower-cased. The full Unicode case mapping of `toLowerCase` is not modelled; the substrings searched for ("google", "indonesia") are ASCII.
- Strings are `seq<char>`, whose elements are Unicode scalar values, not JavaScript's UTF-16 code units: a character outside the Basic Multilingual Plane is one element here and two code units in JavaScript, and a lone surrogate cannot be represented. Every whitespace character and every searched substring lies in the Basic Multilingual Plane, so `trim`, `startsWith` and `includes` are unaffected. `trim` removes the ECMAScript WhiteSpace and LineTerminator characters, with the Unicode space separators listed one by one.
