/** The speak and save buttons: each trims its textarea and refuses blank text
    before touching the synthesizer or the file export. The browser calls
    themselves are not modelled; each function returns the call it would make. */
module Output {
  import opened JsText
  import opened Optional
  import opened Voices

  /** The locale every utterance is given. */
  const Locale := "id-ID"

  /** The parts of a `SpeechSynthesisUtterance` that are not floats. */
  datatype Utterance = Utterance(text: string, lang: string, voice: Option<Voice>)

  /** What pressing a speak button does. */
  datatype SpeakOutcome =
    | NothingToSpeak                        // "no text" alert; no synthesizer call
    | SynthesisUnsupported                  // "not supported" alert; no synthesizer call
    | CancelThenSpeak(utterance: Utterance) // `speechSynthesis.cancel()`, then `speak(utterance)`

  /** What pressing a save button does. */
  datatype SaveOutcome =
    | NothingToSave                                // "no text" alert; no file
    | Download(fileName: string, contents: string) // a plain-text download
    | SaveFailed                                   // the export threw; "failed" alert

  /** `textToSpeech` on the editor text (and, line for line, `readText` on the
      speech text): blank text is refused before anything else, then a
      missing synthesizer; otherwise the trimmed text is spoken in Indonesian
      with the selected voice. */
  function SpeakText(text: string, synthesisSupported: bool, voices: seq<Voice>): (r: SpeakOutcome)
    ensures r == NothingToSpeak <==> IsBlank(text)
    ensures r == SynthesisUnsupported <==> !IsBlank(text) && !synthesisSupported
    ensures r.CancelThenSpeak? <==> !IsBlank(text) && synthesisSupported
    ensures r.CancelThenSpeak? ==>
      r.utterance.text == Trim(text) && r.utterance.lang == Locale &&
      r.utterance.voice == SelectVoice(voices)
  {
    var t := Trim(text);
    if t == [] then NothingToSpeak
    else if !synthesisSupported then SynthesisUnsupported
    else CancelThenSpeak(Utterance(t, Locale, SelectVoice(voices)))
  }

  /** `repeatAudio`: its own blank check only repeats the one `textToSpeech`
      makes, so pressing "repeat" is the same as pressing "listen". */
  function RepeatAudio(text: string, synthesisSupported: bool, voices: seq<Voice>): (r: SpeakOutcome)
    ensures r == SpeakText(text, synthesisSupported, voices)
  {
    if IsBlank(text) then NothingToSpeak else SpeakText(text, synthesisSupported, voices)
  }

  /** The download both save buttons trigger: `<prefix><date>.txt` holding the
      trimmed text, unless the text is blank or the export throws. `date` is
      the first ten characters of the ISO timestamp, taken from the clock. */
  function Export(text: string, prefix: string, date: string, exportSucceeds: bool): (r: SaveOutcome)
    ensures r == NothingToSave <==> IsBlank(text)
    ensures r == SaveFailed <==> !IsBlank(text) && !exportSucceeds
    ensures r.Download? ==>
      r.contents == Trim(text) && r.fileName == prefix + date + ".txt"
  {
    var t := Trim(text);
    if t == [] then NothingToSave
    else if !exportSucceeds then SaveFailed
    else Download(prefix + date + ".txt", t)
  }

  /** `saveText`: the editor text, saved as `teks-saya-<date>.txt`. */
  function SaveText(text: string, date: string, exportSucceeds: bool): (r: SaveOutcome)
    ensures r == NothingToSave <==> IsBlank(text)
    ensures r == SaveFailed <==> !IsBlank(text) && !exportSucceeds
    ensures r.Download? ==> r.contents == Trim(text) && r.fileName == "teks-saya-" + date + ".txt"
  {
    Export(text, "teks-saya-", date, exportSucceeds)
  }

  /** `saveSpeechText`: the speech text, saved as `rekaman-saya-<date>.txt`. */
  function SaveSpeechText(text: string, date: string, exportSucceeds: bool): (r: SaveOutcome)
    ensures r == NothingToSave <==> IsBlank(text)
    ensures r == SaveFailed <==> !IsBlank(text) && !exportSucceeds
    ensures r.Download? ==> r.contents == Trim(text) && r.fileName == "rekaman-saya-" + date + ".txt"
  {
    Export(text, "rekaman-saya-", date, exportSucceeds)
  }

  /** Whatever reaches a port is clean: non-empty, with no whitespace at
      either end, and trimming it again changes nothing. */
  lemma {:induction false} PortTextIsClean(text: string, synthesisSupported: bool, voices: seq<Voice>,
                                           date: string, exportSucceeds: bool)
    ensures var r := SpeakText(text, synthesisSupported, voices);
      r.CancelThenSpeak? ==> r.utterance.text != [] && Trim(r.utterance.text) == r.utterance.text
    ensures var r := SaveText(text, date, exportSucceeds);
      r.Download? ==> r.contents != [] && Trim(r.contents) == r.contents
    ensures var r := SaveSpeechText(text, date, exportSucceeds);
      r.Download? ==> r.contents != [] && Trim(r.contents) == r.contents
  {
    TrimIdempotent(text);
  }

  /** Whitespace-only text is text of no characters as far as the buttons go:
      every guard treats it like the empty string. */
  lemma {:induction false} WhitespaceOnlyIsEmpty(text: string, synthesisSupported: bool, voices: seq<Voice>,
                                                 date: string, exportSucceeds: bool)
    requires AllWhitespace(text)
    ensures SpeakText(text, synthesisSupported, voices) == NothingToSpeak
    ensures RepeatAudio(text, synthesisSupported, voices) == NothingToSpeak
    ensures SaveText(text, date, exportSucceeds) == NothingToSave
    ensures SaveSpeechText(text, date, exportSucceeds) == NothingToSave
  {
    BlankIffAllWhitespace(text);
  }
}
