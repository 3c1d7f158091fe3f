/** The continuous dictation engine: the module globals `isRecording`,
    `finalTranscript`, `interimTranscript` and `recognitionTimeout`, the
    recognizer's `onresult` / `onerror` / `onend` handlers and the
    `startRecording` / `stopRecording` / `clearSpeech` buttons, as one object
    whose methods are the events. Timers become explicit "timer fires" events;
    the recognizer is observed through the number of `start()` and `stop()`
    calls it receives. */
module Dictation {
  import opened JsText
  import opened Optional
  import opened Transcript

  /** Outcome of the microphone permission request. */
  datatype MicrophoneAccess = Granted | Refused(errorName: string)

  /** The three messages `handleMicrophoneError` can show. */
  datatype MicrophoneFailure = PermissionDenied | MicrophoneNotFound | OtherMicrophoneFailure

  /** `handleMicrophoneError`: sorts an exception by its `name`. */
  function ClassifyMicrophoneError(name: string): (k: MicrophoneFailure)
    ensures k == PermissionDenied <==> name == "NotAllowedError" || name == "PermissionDeniedError"
    ensures k == MicrophoneNotFound <==> name == "NotFoundError"
  {
    if name == "NotAllowedError" || name == "PermissionDeniedError" then PermissionDenied
    else if name == "NotFoundError" then MicrophoneNotFound
    else OtherMicrophoneFailure
  }

  /** What `onerror` does with a recognizer error code. */
  datatype ErrorResponse =
    | Filtered            // dropped by `onerror` before any handling
    | StopSession         // permission alert, then `stopRecording`
    | NoSpeechLogged      // logged only
    | Silent              // nothing at all
    | WarnStillRecording  // "still recording" status, nothing else

  /** `handleRecognitionError`: permission codes stop the session, `no-speech`
      is logged, `aborted` is ignored, anything else only warns. */
  function HandleRecognitionError(code: string): (r: ErrorResponse)
    ensures r == StopSession <==> code == "not-allowed" || code == "permission-denied"
    ensures r == NoSpeechLogged <==> code == "no-speech"
    ensures r == Silent <==> code == "aborted"
    ensures r != Filtered
  {
    if code == "not-allowed" || code == "permission-denied" then StopSession
    else if code == "no-speech" then NoSpeechLogged
    else if code != "aborted" then WarnStillRecording
    else Silent
  }

  /** `onerror`: `no-speech` and `audio-capture` are dropped, every other code
      goes to `handleRecognitionError` (so its `no-speech` branch is dead). */
  function RespondToError(code: string): (r: ErrorResponse)
    ensures r == Filtered <==> code == "no-speech" || code == "audio-capture"
    ensures r == StopSession <==> code == "not-allowed" || code == "permission-denied"
    ensures r == Silent <==> code == "aborted"
    ensures r != NoSpeechLogged
  {
    if code != "no-speech" && code != "audio-capture" then HandleRecognitionError(code) else Filtered
  }

  /** What `startRecording` reports. */
  datatype StartOutcome =
    | RecognitionUnsupported                  // no recognizer: alert only
    | Recording                               // recording has begun
    | MicrophoneError(kind: MicrophoneFailure) // permission or `start()` threw

  class DictationSession {
    /** `recognition != null`: the browser has a speech recognizer. */
    const recognizerAvailable: bool
    var isRecording: bool
    var finalTranscript: string
    var interimTranscript: string
    /** The value of the speech textarea. */
    var display: string
    /** `recognitionTimeout` holds a restart timer that has neither fired nor
        been cleared. */
    var pendingRestart: bool
    /** Restart timers whose handle a later `onend` overwrote: still scheduled,
        but out of `clearTimeout`'s reach. */
    var strayRestarts: nat
    /** The 300 ms display timers `stopRecording` scheduled that have not fired. */
    var pendingFlushes: nat
    /** Calls of the recognizer's `start()` and `stop()`. */
    var startCalls: nat
    var stopCalls: nat

    /** A cancellable restart only exists while recording, and only a present
        recognizer is ever recording or called. */
    ghost predicate Valid()
      reads this
    {
      (pendingRestart ==> isRecording) &&
      (isRecording ==> recognizerAvailable) &&
      (!recognizerAvailable ==> startCalls == 0 && stopCalls == 0 && strayRestarts == 0)
    }

    /** The transcript pair the result handler works on. */
    function Current(): Transcript
      reads this
    {
      Transcript(finalTranscript, interimTranscript)
    }

    /** Page load: nothing recorded, nothing scheduled, an empty textarea. */
    constructor (recognizerAvailable: bool)
      ensures Valid()
      ensures this.recognizerAvailable == recognizerAvailable
      ensures !isRecording && finalTranscript == [] && interimTranscript == [] && display == []
      ensures !pendingRestart && strayRestarts == 0 && pendingFlushes == 0
      ensures startCalls == 0 && stopCalls == 0
    {
      this.recognizerAvailable := recognizerAvailable;
      isRecording := false;
      finalTranscript, interimTranscript, display := "", "", "";
      pendingRestart, strayRestarts, pendingFlushes := false, 0, 0;
      startCalls, stopCalls := 0, 0;
    }

    /** The user types into the speech textarea. */
    method UserEdit(text: string)
      modifies this`display
      ensures display == text
    {
      display := text;
    }

    /** `recognition.onresult`: visits the entries from `resultIndex` on,
        appending each final one and a space to the final transcript and
        rebuilding the interim transcript from the others; then shows both.
        It runs whether or not a recording is in progress. */
    method OnResult(batch: ResultBatch)
      requires recognizerAvailable
      modifies this`finalTranscript, this`interimTranscript, this`display
      ensures Current() == Merge(old(Current()), batch)
      ensures StartsWith(finalTranscript, old(finalTranscript))
      ensures display == Current().Displayed()
    {
      interimTranscript := "";
      var i := batch.resultIndex;
      while i < |batch.results|
        invariant batch.resultIndex <= i
        invariant i <= |batch.results| || i == batch.resultIndex
        invariant finalTranscript == old(finalTranscript) + FinalText(Visited(batch, i))
        invariant interimTranscript == InterimText(Visited(batch, i))
        decreases |batch.results| - i
      {
        VisitOneMore(batch, i);
        var entry := batch.results[i];
        if entry.isFinal {
          AppendAssociates(old(finalTranscript), FinalText(Visited(batch, i)), entry.text + " ");
          finalTranscript := finalTranscript + (entry.text + " ");
        } else {
          interimTranscript := interimTranscript + entry.text;
        }
        i := i + 1;
      }
      assert Visited(batch, i) == Unread(batch);
      display := finalTranscript + interimTranscript;
    }

    /** `recognition.onend`: the textarea is reset to the trimmed final
        transcript (the interim tail is not shown), and while recording a
        restart timer is scheduled. A timer still pending is not cleared: its
        handle is overwritten and it becomes a stray. */
    method OnEnd()
      requires Valid() && recognizerAvailable
      modifies this`display, this`pendingRestart, this`strayRestarts
      ensures Valid()
      ensures display == Trim(finalTranscript)
      ensures pendingRestart == isRecording
      ensures strayRestarts == old(strayRestarts) + (if old(pendingRestart) then 1 else 0)
    {
      display := Trim(finalTranscript);
      if isRecording {
        if pendingRestart {
          strayRestarts := strayRestarts + 1;
        }
        pendingRestart := true;
      }
    }

    /** The restart timer fires (`stray` says which one: the one
        `recognitionTimeout` holds or one whose handle was lost). It calls
        `start()` only if still recording; if `start()` throws
        (`startSucceeds` false) the recording is stopped. */
    method FireRestartTimer(startSucceeds: bool, stray: bool)
      requires Valid()
      requires if stray then strayRestarts > 0 else pendingRestart
      modifies this`isRecording, this`pendingRestart, this`strayRestarts, this`startCalls,
               this`stopCalls, this`pendingFlushes
      ensures Valid()
      ensures strayRestarts == old(strayRestarts) - (if stray then 1 else 0)
      ensures startCalls == old(startCalls) + (if old(isRecording) then 1 else 0)
      ensures isRecording == (old(isRecording) && startSucceeds)
      ensures pendingRestart == (stray && old(pendingRestart) && startSucceeds)
      ensures var stopped := old(isRecording) && !startSucceeds;
        stopCalls == old(stopCalls) + (if stopped then 1 else 0) &&
        pendingFlushes == old(pendingFlushes) + (if stopped then 1 else 0)
    {
      if stray {
        strayRestarts := strayRestarts - 1;
      } else {
        pendingRestart := false;
      }
      if isRecording {
        startCalls := startCalls + 1;
        if !startSucceeds {
          StopRecording();
        }
      }
    }

    /** `stopRecording`: clears the flag, cancels the restart timer the handle
        still reaches, calls `stop()` (an exception from it is swallowed) and
        schedules the 300 ms display timer. */
    method StopRecording()
      requires Valid()
      modifies this`isRecording, this`pendingRestart, this`stopCalls, this`pendingFlushes
      ensures Valid()
      ensures !isRecording && !pendingRestart
      ensures stopCalls == old(stopCalls) + (if recognizerAvailable then 1 else 0)
      ensures pendingFlushes == old(pendingFlushes) + 1
    {
      isRecording := false;
      if pendingRestart {
        pendingRestart := false;
      }
      if recognizerAvailable {
        stopCalls := stopCalls + 1;
      }
      pendingFlushes := pendingFlushes + 1;
    }

    /** `stopRecording`'s delayed display update: the textarea gets the trimmed
        final transcript as it is when the timer fires, unless that is empty,
        in which case the textarea is left alone. */
    method FireStopFlush()
      requires pendingFlushes > 0
      modifies this`display, this`pendingFlushes
      ensures pendingFlushes == old(pendingFlushes) - 1
      ensures !IsBlank(finalTranscript) ==> display == Trim(finalTranscript)
      ensures IsBlank(finalTranscript) ==> display == old(display)
    {
      pendingFlushes := pendingFlushes - 1;
      var saved := Trim(finalTranscript);
      if saved != [] {
        display := saved;
      }
    }

    /** `startRecording`, once the permission request has settled (`access`)
        and with `startError` the name of the exception `start()` throws, if
        any. A success seeds the final transcript from the textarea, empties
        the interim one and calls `start()` once; any exception is classified
        and ends in `stopRecording`. */
    method StartRecording(access: MicrophoneAccess, startError: Option<string>) returns (outcome: StartOutcome)
      requires Valid()
      modifies this`isRecording, this`finalTranscript, this`interimTranscript, this`pendingRestart,
               this`startCalls, this`stopCalls, this`pendingFlushes
      ensures Valid()
      ensures !recognizerAvailable ==>
        outcome == RecognitionUnsupported && Current() == old(Current()) &&
        startCalls == old(startCalls) && pendingFlushes == old(pendingFlushes)
      ensures recognizerAvailable && access.Refused? ==>
        outcome == MicrophoneError(ClassifyMicrophoneError(access.errorName)) &&
        Current() == old(Current()) && startCalls == old(startCalls) &&
        !isRecording && !pendingRestart &&
        stopCalls == old(stopCalls) + 1 && pendingFlushes == old(pendingFlushes) + 1
      ensures recognizerAvailable && access.Granted? ==>
        finalTranscript == SeedFinal(display) && interimTranscript == [] &&
        startCalls == old(startCalls) + 1
      ensures recognizerAvailable && access.Granted? && startError.None? ==>
        outcome == Recording && isRecording && pendingRestart == old(pendingRestart) &&
        stopCalls == old(stopCalls) && pendingFlushes == old(pendingFlushes)
      ensures recognizerAvailable && access.Granted? && startError.Some? ==>
        outcome == MicrophoneError(ClassifyMicrophoneError(startError.value)) &&
        !isRecording && !pendingRestart &&
        stopCalls == old(stopCalls) + 1 && pendingFlushes == old(pendingFlushes) + 1
    {
      if !recognizerAvailable {
        return RecognitionUnsupported;
      }
      match access {
        case Refused(name) =>
          outcome := MicrophoneError(ClassifyMicrophoneError(name));
          StopRecording();
        case Granted =>
          isRecording := true;
          finalTranscript := SeedFinal(display);
          interimTranscript := "";
          startCalls := startCalls + 1;
          match startError {
            case None =>
              outcome := Recording;
            case Some(name) =>
              outcome := MicrophoneError(ClassifyMicrophoneError(name));
              StopRecording();
          }
      }
    }

    /** `clearSpeech`, after the confirmation dialog: stops the recording and
        empties both transcripts and the textarea. */
    method ClearSpeech(confirmed: bool)
      requires Valid()
      modifies this`isRecording, this`pendingRestart, this`stopCalls, this`pendingFlushes,
               this`display, this`finalTranscript, this`interimTranscript
      ensures Valid()
      ensures !confirmed ==> unchanged(this)
      ensures confirmed ==>
        !isRecording && !pendingRestart &&
        display == [] && finalTranscript == [] && interimTranscript == [] &&
        stopCalls == old(stopCalls) + (if recognizerAvailable then 1 else 0) &&
        pendingFlushes == old(pendingFlushes) + 1
    {
      if confirmed {
        StopRecording();
        display := "";
        finalTranscript := "";
        interimTranscript := "";
      }
    }

    /** `recognition.onerror`: only a permission code stops the recording;
        every other code leaves the session exactly as it was. */
    method OnError(code: string) returns (response: ErrorResponse)
      requires Valid() && recognizerAvailable
      modifies this`isRecording, this`pendingRestart, this`stopCalls, this`pendingFlushes
      ensures Valid()
      ensures response == RespondToError(code)
      ensures response == StopSession ==>
        !isRecording && !pendingRestart &&
        stopCalls == old(stopCalls) + 1 && pendingFlushes == old(pendingFlushes) + 1
      ensures response != StopSession ==> unchanged(this)
    {
      response := RespondToError(code);
      if response == StopSession {
        StopRecording();
      }
    }

    /** `stopAllAudio` (leaving the speech screen, closing the page): stops a
        recording in progress, and only then. */
    method StopAllAudio()
      requires Valid()
      modifies this`isRecording, this`pendingRestart, this`stopCalls, this`pendingFlushes
      ensures Valid()
      ensures !old(isRecording) ==> unchanged(this)
      ensures old(isRecording) ==>
        !isRecording && !pendingRestart &&
        stopCalls == old(stopCalls) + 1 && pendingFlushes == old(pendingFlushes) + 1
    {
      if isRecording {
        StopRecording();
      }
    }
  }
}
