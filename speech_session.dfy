/** The voice-to-text recording session of Elementa/src/lib/infra/messenger.js: one process-wide
    session over the browser's speech recognizer, driven by `startRecording`/`stopRecording` and
    by the recognizer's `onresult`, `onend` and `onerror` events. Browser capabilities, the
    connectivity flag and whether the recognizer's `start()` throws are parameters. */
module SpeechSession {
  import opened Common
  import opened JsText

  /** One entry of `event.results`: the first alternative's text and whether it is final. */
  datatype SpeechResult = SpeechResult(transcript: string, isFinal: bool)

  /** One call of the transcript callback: `onTranscriptUpdate(text, isFinal)`. */
  datatype Update = Update(text: string, isFinal: bool)

  const NotSupported := "Speech recognition not supported. Use Chrome, Edge, or Safari 14.1+"
  const NeedsConnection := "Voice-to-text requires an internet connection."
  const StartFailed := "Failed to start voice recognition."

  /** Error codes after which the session halts and does not restart. */
  const CriticalErrors: set<string> := {"not-allowed", "audio-capture", "service-not-allowed", "network"}

  /** What one result adds to the final transcript: its text and a space if it is final. */
  function Piece(r: SpeechResult): string
  {
    if r.isFinal then r.transcript + " " else ""
  }

  /** The text the `onresult` loop appends to the final transcript while it walks the results
      from index `lo` up to `hi`. */
  function Committed(b: seq<SpeechResult>, lo: nat, hi: nat): string
    requires hi <= |b|
    decreases hi
  {
    if hi <= lo then "" else Committed(b, lo, hi - 1) + Piece(b[hi - 1])
  }

  /** The interim text the loop gathers from index `lo` up to `hi`. */
  function Interim(b: seq<SpeechResult>, lo: nat, hi: nat): string
    requires hi <= |b|
    decreases hi
  {
    if hi <= lo then ""
    else Interim(b, lo, hi - 1) + (if b[hi - 1].isFinal then "" else b[hi - 1].transcript)
  }

  /** The cursor (`lastProcessedIndex`) after the loop walked from `lo` up to `hi`: one past the
      last final result seen, or `lo` if there was none. */
  function Cursor(b: seq<SpeechResult>, lo: nat, hi: nat): nat
    requires hi <= |b|
    decreases hi
  {
    if hi <= lo then lo else if b[hi - 1].isFinal then hi else Cursor(b, lo, hi - 1)
  }

  /** The cursor never moves backwards, passes every final result it walked over, and stops
      before no final result: everything from the cursor on is interim. */
  lemma {:induction false} CursorSpec(b: seq<SpeechResult>, lo: nat, hi: nat)
    requires hi <= |b|
    ensures lo <= Cursor(b, lo, hi)
    ensures lo <= hi ==> Cursor(b, lo, hi) <= hi
    ensures forall j :: lo <= j < hi && b[j].isFinal ==> j < Cursor(b, lo, hi)
    ensures forall j :: Cursor(b, lo, hi) <= j < hi ==> !b[j].isFinal
  {
    if hi > lo && !b[hi - 1].isFinal {
      CursorSpec(b, lo, hi - 1);
    }
  }

  /** Walking over interim results only commits nothing. */
  lemma {:induction false} InterimOnlyCommitsNothing(b: seq<SpeechResult>, lo: nat, hi: nat)
    requires hi <= |b|
    requires forall j :: lo <= j < hi ==> !b[j].isFinal
    ensures Committed(b, lo, hi) == ""
  {
    if hi > lo {
      InterimOnlyCommitsNothing(b, lo, hi - 1);
    }
  }

  /** A batch delivered again from the cursor its first delivery left commits nothing more:
      no final text is appended twice. */
  lemma RedeliveryCommitsNothing(b: seq<SpeechResult>, lo: nat)
    ensures Committed(b, Cursor(b, lo, |b|), |b|) == ""
    ensures Cursor(b, Cursor(b, lo, |b|), |b|) == Cursor(b, lo, |b|)
  {
    var c := Cursor(b, lo, |b|);
    CursorSpec(b, lo, |b|);
    InterimOnlyCommitsNothing(b, c, |b|);
    CursorSpec(b, c, |b|);
    NoFinalKeepsCursor(b, c, |b|);
  }

  /** Walking over interim results only leaves the cursor where it was. */
  lemma {:induction false} NoFinalKeepsCursor(b: seq<SpeechResult>, lo: nat, hi: nat)
    requires hi <= |b|
    requires forall j :: lo <= j < hi ==> !b[j].isFinal
    ensures Cursor(b, lo, hi) == lo
  {
    if hi > lo {
      NoFinalKeepsCursor(b, lo, hi - 1);
    }
  }

  /** The text is empty or its last character is a space (see `EndsWithSpaceMeaning`). */
  predicate EndsWithSpace(t: string)
    decreases |t|
  {
    if |t| <= 1 then t == "" || t == " " else EndsWithSpace(t[1..])
  }

  /** `EndsWithSpace` means what its name says. */
  lemma {:induction false} EndsWithSpaceMeaning(t: string)
    ensures EndsWithSpace(t) <==> t == "" || t[|t| - 1] == ' '
  {
    if |t| > 1 {
      EndsWithSpaceMeaning(t[1..]);
    }
  }

  /** A text followed by a space ends with a space. */
  lemma {:induction false} SpaceEnds(t: string)
    ensures EndsWithSpace(t + " ")
  {
    if t != "" {
      assert (t + " ")[1..] == t[1..] + " ";
      SpaceEnds(t[1..]);
    }
  }

  /** Two texts that are each empty or end with a space still do so when joined. */
  lemma {:induction false} EndsWithSpaceAppend(a: string, b: string)
    requires EndsWithSpace(a) && EndsWithSpace(b)
    ensures EndsWithSpace(a + b)
  {
    if b == "" {
      assert a + b == a;
    } else if a == "" {
      assert a + b == b;
    } else if |a| == 1 {
      assert (a + b)[1..] == b;
    } else {
      assert (a + b)[1..] == a[1..] + b;
      EndsWithSpaceAppend(a[1..], b);
    }
  }

  /** Every committed text is empty or ends with the separating space. */
  lemma {:induction false} CommittedEndsWithSpace(b: seq<SpeechResult>, lo: nat, hi: nat)
    requires hi <= |b|
    ensures EndsWithSpace(Committed(b, lo, hi))
  {
    if hi > lo {
      CommittedEndsWithSpace(b, lo, hi - 1);
      if b[hi - 1].isFinal {
        SpaceEnds(b[hi - 1].transcript);
      }
      EndsWithSpaceAppend(Committed(b, lo, hi - 1), Piece(b[hi - 1]));
    }
  }

  /** Interim text never reaches the final transcript: two batches that agree on which results
      are final and on the text of the final ones commit the same text and leave the same
      cursor, whatever their interim texts. */
  lemma {:induction false} InterimTextNeverCommitted(b: seq<SpeechResult>, b': seq<SpeechResult>,
                                                     lo: nat, hi: nat)
    requires hi <= |b| && hi <= |b'|
    requires forall j :: lo <= j < hi ==> b'[j].isFinal == b[j].isFinal
    requires forall j :: lo <= j < hi && b[j].isFinal ==> b'[j].transcript == b[j].transcript
    ensures Committed(b', lo, hi) == Committed(b, lo, hi)
    ensures Cursor(b', lo, hi) == Cursor(b, lo, hi)
  {
    if hi > lo {
      InterimTextNeverCommitted(b, b', lo, hi - 1);
    }
  }

  /** The walk from `lo` to `hi` commits what the walk to `mid` commits, then what the walk from
      `mid` commits. */
  lemma {:induction false} CommittedSplit(b: seq<SpeechResult>, lo: nat, mid: nat, hi: nat)
    requires lo <= mid <= hi <= |b|
    ensures Committed(b, lo, hi) == Committed(b, lo, mid) + Committed(b, mid, hi)
  {
    if hi > mid {
      CommittedSplit(b, lo, mid, hi - 1);
    }
  }

  /** The cursor after walking from `lo` to `hi` is that of the walk from `mid` if the latter
      met a final result, and that of the walk up to `mid` otherwise. */
  lemma {:induction false} CursorSplit(b: seq<SpeechResult>, lo: nat, mid: nat, hi: nat)
    requires lo <= mid <= hi <= |b|
    ensures Cursor(b, lo, hi) == if Cursor(b, mid, hi) == mid then Cursor(b, lo, mid)
                                 else Cursor(b, mid, hi)
  {
    if hi > mid && !b[hi - 1].isFinal {
      CursorSplit(b, lo, mid, hi - 1);
    }
  }

  /** The cursor, when it moved, sits just past a final result, so walking again up to the
      cursor alone lands on it and commits what the whole walk commits. */
  lemma {:induction false} CursorLandsOnFinal(b: seq<SpeechResult>, lo: nat, hi: nat)
    requires lo <= hi <= |b|
    ensures Cursor(b, lo, hi) <= hi
    ensures Cursor(b, lo, Cursor(b, lo, hi)) == Cursor(b, lo, hi)
    ensures Committed(b, lo, Cursor(b, lo, hi)) == Committed(b, lo, hi)
  {
    if hi > lo && !b[hi - 1].isFinal {
      CursorLandsOnFinal(b, lo, hi - 1);
    }
  }

  /** The recognizer re-sends a growing result list in which results it has finalised stay as
      they were. Handling a first list from cursor `c` and then the grown list from the cursor
      the first left commits each final text exactly once: the same transcript and cursor as
      handling the grown list alone from `c`. */
  lemma GrowingResultsCommitOnce(b1: seq<SpeechResult>, b2: seq<SpeechResult>, c: nat)
    requires c <= |b1| <= |b2|
    requires forall j :: c <= j < Cursor(b1, c, |b1|) && j < |b1| ==> b2[j] == b1[j]
    ensures Committed(b1, c, |b1|) + Committed(b2, Cursor(b1, c, |b1|), |b2|)
            == Committed(b2, c, |b2|)
    ensures Cursor(b2, Cursor(b1, c, |b1|), |b2|) == Cursor(b2, c, |b2|)
  {
    var c' := Cursor(b1, c, |b1|);
    CursorSpec(b1, c, |b1|);
    CursorLandsOnFinal(b1, c, |b1|);
    InterimTextNeverCommitted(b1, b2, c, c');
    CommittedSplit(b2, c, c', |b2|);
    CursorSplit(b2, c, c', |b2|);
  }

  /** The process-wide session state of the module. */
  class Session {
    /** `recognition !== null`: a recognizer object is held. */
    var recognizer: bool
    var isRecording: bool
    /** Set by `stopRecording` so that the end event does not restart. */
    var userStopped: bool
    var finalTranscript: string
    var hasError: bool
    /** The first index of the current result list not yet committed. */
    var lastProcessedIndex: nat
    /** `onTranscriptUpdate !== null`. */
    var hasCallback: bool
    /** Every call of the transcript callback so far, oldest first. */
    var updates: seq<Update>

    /** A recording session holds a recognizer and has neither been stopped by the user nor
        halted by an error; the transcript is empty or ends with a separating space. */
    ghost predicate Valid()
      reads this
    {
      && (isRecording ==> recognizer && !userStopped && !hasError)
      && EndsWithSpace(finalTranscript)
    }

    /** The module's initial state. */
    constructor ()
      ensures Valid()
      ensures !recognizer && !isRecording && !userStopped && !hasError && !hasCallback
      ensures finalTranscript == "" && lastProcessedIndex == 0 && updates == []
    {
      recognizer, isRecording, userStopped := false, false, false;
      finalTranscript, hasError, lastProcessedIndex := "", false, 0;
      hasCallback, updates := false, [];
    }

    /** `startRecording`. While recording it is a no-op. Without a speech recognizer, or when
        offline, it rejects before changing anything. Otherwise it resets the session and
        starts the recognizer; if `start()` throws (`startOk` false) it drops the recognizer,
        stops recording and rejects. */
    method Start(supported: bool, online: bool, startOk: bool, withCallback: bool)
      returns (r: Outcome)
      requires Valid()
      modifies this
      ensures Valid()
      ensures old(isRecording) ==> r == Done && unchanged(this)
      ensures !old(isRecording) && !supported ==> r == Failed(NotSupported) && unchanged(this)
      ensures !old(isRecording) && supported && !online ==>
                r == Failed(NeedsConnection) && unchanged(this)
      ensures !old(isRecording) && supported && online ==>
                && !userStopped && !hasError && finalTranscript == "" && lastProcessedIndex == 0
                && hasCallback == withCallback && updates == old(updates)
                && isRecording == startOk && recognizer == startOk
                && r == (if startOk then Done else Failed(StartFailed))
    {
      if isRecording {
        r := Done;
        return;
      }
      if !supported {
        r := Failed(NotSupported);
        return;
      }
      if !online {
        r := Failed(NeedsConnection);
        return;
      }
      recognizer := true;
      isRecording := true;
      userStopped := false;
      finalTranscript := "";
      hasError := false;
      lastProcessedIndex := 0;
      hasCallback := withCallback;
      if !startOk {
        isRecording := false;
        recognizer := false;
        r := Failed(StartFailed);
        return;
      }
      r := Done;
    }

    /** `recognition.onresult`: walks the results from the cursor, appends each final text and
        a space to the transcript and moves the cursor past it, gathers the interim texts, and
        hands the transcript followed by the interim text to the callback as not final. */
    method OnResult(batch: seq<SpeechResult>)
      requires Valid()
      modifies this`finalTranscript, this`lastProcessedIndex, this`updates
      ensures Valid()
      ensures finalTranscript == old(finalTranscript) + Committed(batch, old(lastProcessedIndex), |batch|)
      ensures lastProcessedIndex == Cursor(batch, old(lastProcessedIndex), |batch|)
      ensures updates == old(updates) +
                if hasCallback then [Update(finalTranscript + Interim(batch, old(lastProcessedIndex), |batch|), false)]
                else []
    {
      ghost var c0 := lastProcessedIndex;
      var transcriptSoFar, cursor, interimTranscript := finalTranscript, lastProcessedIndex, "";
      if cursor < |batch| {
        var i := cursor;
        while i < |batch|
          invariant c0 <= i <= |batch|
          invariant transcriptSoFar == old(finalTranscript) + Committed(batch, c0, i)
          invariant cursor == Cursor(batch, c0, i)
          invariant interimTranscript == Interim(batch, c0, i)
        {
          var transcript := batch[i].transcript;
          if batch[i].isFinal {
            transcriptSoFar := transcriptSoFar + transcript + " ";
            cursor := i + 1;
          } else {
            interimTranscript := interimTranscript + transcript;
          }
          assert Committed(batch, c0, i + 1) == Committed(batch, c0, i) + Piece(batch[i]);
          i := i + 1;
        }
      } else {
        assert transcriptSoFar + Committed(batch, c0, |batch|) == transcriptSoFar;
      }
      CommittedEndsWithSpace(batch, c0, |batch|);
      EndsWithSpaceAppend(old(finalTranscript), Committed(batch, c0, |batch|));
      finalTranscript, lastProcessedIndex := transcriptSoFar, cursor;
      if hasCallback {
        updates := updates + [Update(finalTranscript + interimTranscript, false)];
      }
    }

    /** `recognition.onerror`: a critical code halts the session (error flag set, recording off,
        recognizer dropped) so that no restart follows; any other code changes nothing. */
    method OnError(code: string)
      requires Valid()
      modifies this`hasError, this`isRecording, this`recognizer
      ensures Valid()
      ensures code in CriticalErrors ==> hasError && !isRecording && !recognizer
      ensures code !in CriticalErrors ==> unchanged(this)
    {
      if code in CriticalErrors {
        hasError := true;
        isRecording := false;
        recognizer := false;
      }
    }

    /** `recognition.onend`: when the user has not stopped, the session is recording, no
        critical error occurred and the browser is online, it resets the cursor and restarts the
        recognizer (if that `start()` throws, recording stops); in every other case recording
        stops and the recognizer is dropped. */
    method OnEnd(online: bool, restartOk: bool)
      requires Valid()
      modifies this`isRecording, this`recognizer, this`lastProcessedIndex
      ensures Valid()
      ensures old(!userStopped && isRecording && !hasError) && online ==>
                lastProcessedIndex == 0 && isRecording == restartOk && recognizer == restartOk
      ensures !(old(!userStopped && isRecording && !hasError) && online) ==>
                !isRecording && !recognizer && lastProcessedIndex == old(lastProcessedIndex)
    {
      if !userStopped && isRecording && !hasError && online {
        lastProcessedIndex := 0;
        if !restartOk {
          isRecording := false;
          recognizer := false;
        }
      } else {
        isRecording := false;
        recognizer := false;
      }
    }

    /** `stopRecording`. When not recording it returns "" and changes nothing. Otherwise it marks
        the stop as the user's before stopping the recognizer, drops the recognizer, returns the
        trimmed transcript and passes it to the callback as final when it is not empty. */
    method Stop() returns (result: string)
      requires Valid()
      modifies this`userStopped, this`isRecording, this`recognizer, this`updates
      ensures Valid()
      ensures !old(isRecording) ==> result == "" && unchanged(this)
      ensures old(isRecording) ==> userStopped && !isRecording && !recognizer
      ensures old(isRecording) ==> result == Trim(finalTranscript)
      ensures old(isRecording) ==>
                updates == old(updates) + if hasCallback && result != "" then [Update(result, true)] else []
    {
      if !isRecording {
        result := "";
        assert unchanged(this);
        return;
      }
      userStopped := true;
      isRecording := false;
      result := Trim(finalTranscript);
      if recognizer {
        recognizer := false;
      }
      if hasCallback && result != "" {
        updates := updates + [Update(result, true)];
      }
    }

    /** `isRecordingActive`: an active session holds a recognizer, was not stopped by the user
        and has not failed. */
    function IsRecordingActive(): (active: bool)
      reads this
      requires Valid()
      ensures active ==> recognizer && !userStopped && !hasError
      ensures !recognizer ==> !active
    {
      isRecording
    }

    /** `getCurrentTranscript`: the committed final text, each final result followed by a space,
        so it is empty or ends with a space. */
    function CurrentTranscript(): (t: string)
      reads this
      requires Valid()
      ensures EndsWithSpace(t)
    {
      finalTranscript
    }
  }

  /** A result list holding only an interim "hello" commits nothing, leaves the cursor and
      shows "hello" as interim text. */
  lemma InterimOnlyDelivery()
    ensures var first := [SpeechResult("hello", false)];
            Committed(first, 0, 1) == "" && Cursor(first, 0, 1) == 0 && Interim(first, 0, 1) == "hello"
  {
    var first := [SpeechResult("hello", false)];
    assert Interim(first, 0, 1) == "" + "hello";
  }

  /** The same list delivered again with "hello" now final and an interim "world" commits
      "hello " once, moves the cursor past it and shows "world" as interim text. */
  lemma FinalThenInterimDelivery()
    ensures var second := [SpeechResult("hello", true), SpeechResult("world", false)];
            && Committed(second, 0, 2) == "hello " && Cursor(second, 0, 2) == 1
            && Interim(second, 0, 2) == "world"
  {
    var second := [SpeechResult("hello", true), SpeechResult("world", false)];
    assert Committed(second, 0, 1) == "" + "hello ";
    assert Committed(second, 0, 2) == Committed(second, 0, 1) + "";
    assert Interim(second, 0, 1) == "";
    assert Interim(second, 0, 2) == "" + "world";
  }

  /** A critical error ends the session, and the end event that follows does not restart it. */
  method CriticalErrorScenario() returns (activeAfterEnd: bool)
    ensures !activeAfterEnd
  {
    var s := new Session();
    var r := s.Start(true, true, true, false);
    s.OnError("not-allowed");
    assert !s.IsRecordingActive();
    s.OnEnd(true, true);
    activeAfterEnd := s.IsRecordingActive();
  }

  /** The end event that follows a user's stop does not restart the session, because the stop
      marks itself before stopping the recognizer. */
  method StopThenEndScenario() returns (activeAfterEnd: bool)
    ensures !activeAfterEnd
  {
    var s := new Session();
    var r := s.Start(true, true, true, true);
    var result := s.Stop();
    s.OnEnd(true, true);
    activeAfterEnd := s.IsRecordingActive();
  }
}
