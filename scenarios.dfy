/** Event sequences run against `Dictation.DictationSession`, each with the
    outcome the session's contracts force. */
module Scenarios {
  import opened Optional
  import opened JsText
  import opened Transcript
  import opened Dictation

  /** Stop pressed right after the recognizer ended, before the restart timer
      fired. Two `onend` events in a row leave one timer out of
      `clearTimeout`'s reach; when it fires it finds the flag cleared and does
      not call `start()`. */
  method StopBeforeRestartFires() returns (startsAfterStop: int, recording: bool, cancellable: bool)
    ensures startsAfterStop == 0 && !recording && !cancellable
  {
    var s := new DictationSession(true);
    var outcome := s.StartRecording(Granted, None);
    s.OnEnd();
    s.OnEnd();
    s.StopRecording();
    var before := s.startCalls;
    s.FireRestartTimer(true, true);
    startsAfterStop := s.startCalls - before;
    recording := s.isRecording;
    cancellable := s.pendingRestart;
  }

  /** Whatever state the session is in, once `stopRecording` has run a
      restart timer that fires, even one whose handle was lost, does not call
      `start()`, and the session stays stopped. */
  method NoStartAfterStop(s: DictationSession, startSucceeds: bool)
    requires s.Valid() && s.strayRestarts > 0
    modifies s
    ensures s.startCalls == old(s.startCalls)
    ensures !s.isRecording && !s.pendingRestart
  {
    s.StopRecording();
    s.FireRestartTimer(startSucceeds, true);
  }

  /** Dictation across an automatic restart: the recognizer ends, the timer
      restarts it, and the new run's results, numbered from 0 again, are
      appended to what the first run finalized. */
  method DictationAcrossRestart() returns (shown: string, starts: nat)
    ensures shown == "apa kabar lagi " && starts == 2
  {
    var s := new DictationSession(true);
    var outcome := s.StartRecording(Granted, None);
    assert s.finalTranscript == SeedFinal("");
    SingleEntry(s.Current(), ResultEntry("apa kabar", true));
    s.OnResult(ResultBatch(0, [ResultEntry("apa kabar", true)]));
    s.OnEnd();
    s.FireRestartTimer(true, false);
    SingleEntry(s.Current(), ResultEntry("lagi", true));
    s.OnResult(ResultBatch(0, [ResultEntry("lagi", true)]));
    shown := s.display;
    starts := s.startCalls;
    assert shown == "" + ("apa kabar" + " ") + ("lagi" + " ") + "";
    RestartText();
  }

  /** Recording resumes the text already in the textarea: the old text, one
      space, then the new final text. */
  method ResumeExistingText() returns (shown: string)
    ensures shown == "halo apa "
  {
    var s := new DictationSession(true);
    s.UserEdit("halo");
    SeedOfHalo();
    var outcome := s.StartRecording(Granted, None);
    SingleEntry(s.Current(), ResultEntry("apa", true));
    s.OnResult(ResultBatch(0, [ResultEntry("apa", true)]));
    shown := s.display;
    assert shown == "halo " + ("apa" + " ") + "";
    ResumeText();
  }

  // The three lemmas below only fix the literal strings the scenarios above
  // end with. Proved on their own, each costs the solver little; asserted
  // inside a scenario, next to the session's whole state, they are expensive.

  lemma RestartText()
    ensures "" + ("apa kabar" + " ") + ("lagi" + " ") + "" == "apa kabar lagi "
  {
  }

  lemma ResumeText()
    ensures "halo " + ("apa" + " ") + "" == "halo apa "
  {
  }

  lemma SeedOfHalo()
    ensures SeedFinal("halo") == "halo "
  {
    TrimOfTrimmed("halo");
  }

  /** Stop in the middle of an utterance: the interim text is shown until the
      recognizer's `onend` replaces it with the (empty) trimmed final
      transcript, and the delayed display update, finding no final text,
      leaves the textarea empty. Nothing is made final by stopping. */
  method InterimTailLostAtEnd() returns (beforeEnd: string, afterEnd: string, final: string)
    ensures beforeEnd == "testing" && afterEnd == "" && final == ""
  {
    var s := new DictationSession(true);
    var outcome := s.StartRecording(Granted, None);
    s.OnResult(ResultBatch(0, [ResultEntry("testing", false)]));
    s.StopRecording();
    beforeEnd := s.display;
    s.OnEnd();
    s.FireStopFlush();
    afterEnd := s.display;
    final := s.finalTranscript;
  }

  /** The result handler is not gated on the recording flag: a final result the
      recognizer delivers after "clear" puts text back into the textarea. */
  method ResultAfterClear() returns (shown: string)
    ensures shown == "halo "
  {
    var s := new DictationSession(true);
    var outcome := s.StartRecording(Granted, None);
    s.OnResult(ResultBatch(0, [ResultEntry("halo", false)]));
    s.ClearSpeech(true);
    s.OnResult(ResultBatch(0, [ResultEntry("halo", true)]));
    shown := s.display;
  }

  /** A refused microphone: the error is classified, `stopRecording` still
      calls the recognizer's `stop()`, and `start()` is never called. */
  method MicrophoneRefused() returns (outcome: StartOutcome, starts: nat, stops: nat)
    ensures outcome == MicrophoneError(PermissionDenied) && starts == 0 && stops == 1
  {
    var s := new DictationSession(true);
    outcome := s.StartRecording(Refused("NotAllowedError"), None);
    starts := s.startCalls;
    stops := s.stopCalls;
  }
}
