/** The audio-capture recording session of client/js/infra/messenger.js: one process-wide
    session over a microphone stream and a `MediaRecorder`, driven by `startRecording` and
    `stopRecording` and by the recorder's `ondataavailable`, `onstop` and `onerror` events.
    Browser capabilities, codec support and the point at which starting fails are parameters. */
module AudioSession {
  import opened Common

  /** The bytes of one recorded `Blob`. */
  type Chunk = seq<bv8>

  /** A `DOMException` as the start path sees it: its `name` and its `message`. */
  datatype DomError = DomError(name: string, message: string)

  /** Where starting fails, if it does: acquiring the microphone (`getUserMedia` rejects),
      constructing the recorder, or starting it. */
  datatype StartFault = NoFault | AcquireFault(e: DomError) | RecorderFault(e: DomError) | BeginFault(e: DomError)

  /** How a failed start is reported to the user. */
  datatype StartErrorKind = PermissionDenied | NoMicrophone | MicrophoneBusy | OtherFailure

  const NoMediaDevices := "Audio recording is not supported in this browser."
  const NoRecorderApi := "MediaRecorder API is not available in this browser."
  const PermissionMessage := "Microphone permission denied. " + "Please allow microphone access in your browser settings."
  const NoMicrophoneMessage := "No microphone found. " + "Please connect a microphone and try again."
  const BusyMessage := "Microphone is already in use " + "by another application."
  const GenericPrefix := "Failed to start recording: "

  /** The class a start error falls into, by its name (current and legacy spellings). */
  function StartErrorClass(e: DomError): (k: StartErrorKind)
    ensures k == PermissionDenied <==> e.name in {"NotAllowedError", "PermissionDeniedError"}
    ensures k == NoMicrophone <==> e.name in {"NotFoundError", "DevicesNotFoundError"}
    ensures k == MicrophoneBusy <==> e.name in {"NotReadableError", "TrackStartError"}
  {
    if e.name == "NotAllowedError" || e.name == "PermissionDeniedError" then PermissionDenied
    else if e.name == "NotFoundError" || e.name == "DevicesNotFoundError" then NoMicrophone
    else if e.name == "NotReadableError" || e.name == "TrackStartError" then MicrophoneBusy
    else OtherFailure
  }

  /** The message a failed start rejects with: a fixed text for each recognised class, and the
      generic prefix followed by the error's own message otherwise. */
  function StartErrorMessage(e: DomError): (m: string)
    ensures StartErrorClass(e) == PermissionDenied ==> m == PermissionMessage
    ensures StartErrorClass(e) == NoMicrophone ==> m == NoMicrophoneMessage
    ensures StartErrorClass(e) == MicrophoneBusy ==> m == BusyMessage
    ensures StartErrorClass(e) == OtherFailure ==> m == GenericPrefix + e.message
  {
    match StartErrorClass(e)
    case PermissionDenied => PermissionMessage
    case NoMicrophone => NoMicrophoneMessage
    case MicrophoneBusy => BusyMessage
    case OtherFailure => GenericPrefix + e.message
  }

  /** The message tells the user which class of failure occurred: two errors with the same
      message fall into the same class, and a generic message carries the error's own text. */
  lemma StartErrorMessageIdentifiesClass(e1: DomError, e2: DomError)
    ensures StartErrorMessage(e1) == StartErrorMessage(e2) ==> StartErrorClass(e1) == StartErrorClass(e2)
    ensures StartErrorClass(e1) == OtherFailure ==>
              StartErrorMessage(e1)[|GenericPrefix|..] == e1.message
  {
    var m1, m2 := StartErrorMessage(e1), StartErrorMessage(e2);
    // The messages differ in their first character, except the two "Microphone ..." ones,
    // which differ in their twelfth.
    assert PermissionMessage[0] == 'M' && PermissionMessage[11] == 'p';
    assert BusyMessage[0] == 'M' && BusyMessage[11] == 'i';
    assert NoMicrophoneMessage[0] == 'N';
    assert (GenericPrefix + e1.message)[0] == 'F' && (GenericPrefix + e2.message)[0] == 'F';
    if m1 == m2 {
      assert m1[0] == m2[0];
    }
  }

  /** The requested recording format: WebM when supported, else MP4 when supported, else the
      empty type, which lets the browser choose. */
  function ChooseMimeType(webmOk: bool, mp4Ok: bool): (t: string)
    ensures t == "audio/webm" <==> webmOk
    ensures t == "audio/mp4" <==> !webmOk && mp4Ok
    ensures t == "" <==> !webmOk && !mp4Ok
  {
    if webmOk then "audio/webm" else if mp4Ok then "audio/mp4" else ""
  }

  /** The bytes of a `Blob` built from the chunks, in order. */
  function Joined(chunks: seq<Chunk>): (bytes: Chunk)
    ensures chunks == [] ==> bytes == []
  {
    if chunks == [] then [] else Joined(chunks[..|chunks| - 1]) + chunks[|chunks| - 1]
  }

  /** Appending a chunk appends its bytes to the joined recording. */
  lemma JoinedAppend(chunks: seq<Chunk>, c: Chunk)
    ensures Joined(chunks + [c]) == Joined(chunks) + c
  {
    assert (chunks + [c])[..|chunks|] == chunks;
  }

  /** Every kept chunk carries at least one byte, so the recording is at least as many bytes
      long as there are chunks. */
  lemma {:induction false} JoinedSize(chunks: seq<Chunk>)
    requires forall i :: 0 <= i < |chunks| ==> |chunks[i]| > 0
    ensures |Joined(chunks)| >= |chunks|
  {
    if chunks != [] {
      JoinedSize(chunks[..|chunks| - 1]);
    }
  }

  /** The process-wide session state of the module. */
  class Capture {
    /** `mediaRecorder !== null`: a recorder has been constructed. */
    var hasRecorder: bool
    /** The format the current recorder was asked for ("" when the browser chooses). */
    var requestedType: string
    /** `audioChunks`: the data the current recorder delivered, oldest first. */
    var chunks: seq<Chunk>
    /** `stream !== null`: a microphone stream is held and not yet released. */
    var streamOpen: bool
    var isRecording: bool
    /** Microphone streams that were still open when `stream` was overwritten by a new one:
        nothing refers to them any more, so nothing releases them. */
    var leakedStreams: nat

    /** A recording session holds a recorder and an open stream, and only chunks with data are
        kept. */
    ghost predicate Valid()
      reads this
    {
      && (isRecording ==> hasRecorder && streamOpen)
      && (forall i :: 0 <= i < |chunks| ==> |chunks[i]| > 0)
    }

    /** The module's initial state. */
    constructor ()
      ensures Valid()
      ensures !hasRecorder && requestedType == "" && chunks == [] && !streamOpen && !isRecording
      ensures leakedStreams == 0
    {
      hasRecorder, requestedType, chunks := false, "", [];
      streamOpen, isRecording, leakedStreams := false, false, 0;
    }

    /** `startRecording`. While recording it is a no-op. Without media devices or without the
        recorder API it rejects before changing anything. Otherwise it acquires the stream,
        constructs a recorder for the chosen format, empties the chunks and starts; on a fault
        at any of these steps the stream is released, recording is off and the start rejects
        with the message of the error's class. A stream still open when a new one is acquired
        (the stop event of the previous session has not come yet) is overwritten and leaks. */
    method Start(hasMediaDevices: bool, hasMediaRecorder: bool, webmOk: bool, mp4Ok: bool,
                 fault: StartFault)
      returns (r: Outcome)
      requires Valid()
      modifies this
      ensures Valid()
      ensures old(isRecording) ==> r == Done && unchanged(this)
      ensures !old(isRecording) && !hasMediaDevices ==> r == Failed(NoMediaDevices) && unchanged(this)
      ensures !old(isRecording) && hasMediaDevices && !hasMediaRecorder ==>
                r == Failed(NoRecorderApi) && unchanged(this)
      ensures !old(isRecording) && hasMediaDevices && hasMediaRecorder ==>
                && (fault.NoFault? <==> isRecording)
                && streamOpen == fault.NoFault?
                && r == (if fault.NoFault? then Done else Failed(StartErrorMessage(fault.e)))
      ensures !old(isRecording) && hasMediaDevices && hasMediaRecorder &&
              (fault.AcquireFault? || fault.RecorderFault?) ==>
                && hasRecorder == old(hasRecorder) && requestedType == old(requestedType)
                && chunks == old(chunks)
      ensures !old(isRecording) && hasMediaDevices && hasMediaRecorder &&
              (fault.NoFault? || fault.BeginFault?) ==>
                hasRecorder && requestedType == ChooseMimeType(webmOk, mp4Ok) && chunks == []
      ensures !old(isRecording) && hasMediaDevices && hasMediaRecorder && fault.AcquireFault? ==>
                leakedStreams == old(leakedStreams)
      ensures !old(isRecording) && hasMediaDevices && hasMediaRecorder && !fault.AcquireFault? ==>
                leakedStreams == old(leakedStreams) + if old(streamOpen) then 1 else 0
    {
      if isRecording {
        r := Done;
        return;
      }
      if !hasMediaDevices {
        r := Failed(NoMediaDevices);
        return;
      }
      if !hasMediaRecorder {
        r := Failed(NoRecorderApi);
        return;
      }
      if fault.AcquireFault? {
        // The stream of an earlier session that has not stopped yet is released as well.
        streamOpen := false;
        isRecording := false;
        r := Failed(StartErrorMessage(fault.e));
        return;
      }
      if streamOpen {
        leakedStreams := leakedStreams + 1;
      }
      streamOpen := true;
      var mimeType := ChooseMimeType(webmOk, mp4Ok);
      if fault.RecorderFault? {
        streamOpen := false;
        isRecording := false;
        r := Failed(StartErrorMessage(fault.e));
        return;
      }
      hasRecorder, requestedType := true, mimeType;
      chunks := [];
      if fault.BeginFault? {
        streamOpen := false;
        isRecording := false;
        r := Failed(StartErrorMessage(fault.e));
        return;
      }
      isRecording := true;
      r := Done;
    }

    /** `ondataavailable`: a chunk with data is appended; an empty one is dropped. */
    method OnDataAvailable(data: Chunk)
      requires Valid()
      modifies this`chunks
      ensures Valid()
      ensures chunks == old(chunks) + if |data| > 0 then [data] else []
      ensures Joined(chunks) == old(Joined(chunks)) + data
    {
      if |data| > 0 {
        JoinedAppend(chunks, data);
        chunks := chunks + [data];
      }
    }

    /** `onstop`: builds the recording from the chunks (returned here; the source only logs its
        size), releases the stream and ends recording. */
    method OnStop() returns (recording: Chunk)
      requires Valid()
      modifies this`streamOpen, this`isRecording
      ensures Valid()
      ensures recording == Joined(chunks) && |recording| >= |chunks|
      ensures !streamOpen && !isRecording
    {
      JoinedSize(chunks);
      recording := Joined(chunks);
      streamOpen := false;
      isRecording := false;
    }

    /** `onerror`: releases the stream and ends recording. */
    method OnError()
      requires Valid()
      modifies this`streamOpen, this`isRecording
      ensures Valid()
      ensures !streamOpen && !isRecording
    {
      streamOpen := false;
      isRecording := false;
    }

    /** `stopRecording`. Without an active recording or a recorder it changes nothing.
        Otherwise recording is off afterwards; when `stop()` succeeds (`stopOk`) the stream
        stays open until the stop event, and when it throws the stream is released at once. */
    method Stop(stopOk: bool)
      requires Valid()
      modifies this`streamOpen, this`isRecording
      ensures Valid()
      ensures !old(isRecording) || !hasRecorder ==> unchanged(this)
      ensures old(isRecording) && hasRecorder ==> !isRecording
      ensures old(isRecording) && hasRecorder ==> streamOpen == (stopOk && old(streamOpen))
    {
      if !isRecording || !hasRecorder {
        return;
      }
      if stopOk {
        isRecording := false;
      } else {
        streamOpen := false;
        isRecording := false;
      }
    }

    /** `isRecordingActive`: an active session holds a recorder and an open stream. */
    function IsRecordingActive(): (active: bool)
      reads this
      requires Valid()
      ensures active ==> hasRecorder && streamOpen
      ensures !streamOpen ==> !active
    {
      isRecording
    }
  }

  /** Stopping and starting again before the stop event arrives loses the first stream: the
      second start overwrites it while it is still open. */
  method RestartBeforeStopEventLeaks() returns (leaked: nat)
    ensures leaked == 1
  {
    var c := new Capture();
    var first := c.Start(true, true, true, false, NoFault);
    c.Stop(true);
    var second := c.Start(true, true, true, false, NoFault);
    leaked := c.leakedStreams;
  }
}
