/** The practice app's state machine: four session fields that survive
    reruns of the page, the button handlers that change them, and the
    question generator the app carries its own copy of. Rendering, reruns and
    the pause inside the simulated recording are not modelled; the hosted chat
    call and the random topic pick are parameters, as for the stand-alone
    generator. */
module StreamlitApp {
  import opened Wrappers
  import opened Text
  import opened QuestionGenerator

  /** `generate_question_with_hf`: the same prompt and post-processing as the
      stand-alone generator, but a failure of any kind gives None (after an
      error banner) instead of an exception. */
  function GenerateQuestionWithHf(choice: nat, chat: string -> Result<Option<string>, string>)
    : (q: Option<string>)
    requires choice < |Topics|
    ensures q.Some? ==> EndsWithQuestionMark(q.value) && |q.value| >= MinQuestionLength
    ensures var reply := chat(Prompt(Topics[choice]));
      q.Some? <==> reply.Success? && reply.value.Some? && |Strip(reply.value.value)| >= MinQuestionLength
  {
    match chat(Prompt(Topics[choice]))
    case Success(Some(content)) =>
      (match Polish(content)
       case Success(question) => Some(question)
       case Failure(_) => None)
    case _ => None
  }

  /** The app's copy of the generator agrees with the stand-alone one: it
      returns the question that one returns, and None where that one raises. */
  lemma AgreesWithGenerator(choice: nat, chat: string -> Result<Option<string>, string>)
    requires choice < |Topics|
    ensures var g := GenerateQuestion(choice, chat);
      GenerateQuestionWithHf(choice, chat) == if g.Success? then Some(g.value) else None
  {
    var g := GenerateQuestion(choice, chat);
    var q := GenerateQuestionWithHf(choice, chat);
    if g.Success? {
      assert q.Some?;
    }
  }

  /** The names of the session fields. */
  datatype Key = SessionStarted | CurrentQuestion | RecordedResponse | IsRecording

  const AllKeys: set<Key> := {SessionStarted, CurrentQuestion, RecordedResponse, IsRecording}

  const RecordingNotice := "Recording in progress..."
  const SampleResponse := "Sample recorded response: I believe that..."

  /** `st.session_state`: the fields present so far and their values. The
      current question is None after a failed generation. */
  class Session {
    var present: set<Key>
    var sessionStarted: bool
    var currentQuestion: Option<string>
    var recordedResponse: string
    var isRecording: bool

    ghost predicate Initialized()
      reads this
    {
      present == AllKeys
    }

    /** A new browser session: no field is set yet. */
    constructor ()
      ensures present == {}
    {
      present := {};
      sessionStarted := false;
      currentQuestion := Some("");
      recordedResponse := "";
      isRecording := false;
    }

    /** The start of every run of the page: each field missing so far gets its
        default (False, "", "", False); a field already there keeps its value. */
    method InitDefaults()
      modifies this
      ensures Initialized()
      ensures sessionStarted == if SessionStarted in old(present) then old(sessionStarted) else false
      ensures currentQuestion == if CurrentQuestion in old(present) then old(currentQuestion) else Some("")
      ensures recordedResponse == if RecordedResponse in old(present) then old(recordedResponse) else ""
      ensures isRecording == if IsRecording in old(present) then old(isRecording) else false
    {
      if SessionStarted !in present {
        sessionStarted := false;
        present := present + {SessionStarted};
      }
      if CurrentQuestion !in present {
        currentQuestion := Some("");
        present := present + {CurrentQuestion};
      }
      if RecordedResponse !in present {
        recordedResponse := "";
        present := present + {RecordedResponse};
      }
      if IsRecording !in present {
        isRecording := false;
        present := present + {IsRecording};
      }
      assert SessionStarted in present && CurrentQuestion in present;
      assert RecordedResponse in present && IsRecording in present;
      forall k: Key ensures k in AllKeys {
        match k
        case SessionStarted =>
        case CurrentQuestion =>
        case RecordedResponse =>
        case IsRecording =>
      }
    }

    /** "Start Session", shown on the welcome page. */
    method StartSession(choice: nat, chat: string -> Result<Option<string>, string>)
      requires Initialized() && !sessionStarted
      requires choice < |Topics|
      modifies this
      ensures Initialized()
      ensures sessionStarted && currentQuestion == GenerateQuestionWithHf(choice, chat)
      ensures recordedResponse == old(recordedResponse) && isRecording == old(isRecording)
    {
      sessionStarted := true;
      currentQuestion := GenerateQuestionWithHf(choice, chat);
    }

    /** "Back": to the welcome page, keeping the question and the response. */
    method Back()
      requires Initialized() && sessionStarted
      modifies this
      ensures Initialized() && !sessionStarted
      ensures currentQuestion == old(currentQuestion) && recordedResponse == old(recordedResponse)
      ensures isRecording == old(isRecording)
    {
      sessionStarted := false;
    }

    /** "Generate New Question": a new question, and the old answer dropped. */
    method NewQuestion(choice: nat, chat: string -> Result<Option<string>, string>)
      requires Initialized() && sessionStarted
      requires choice < |Topics|
      modifies this
      ensures Initialized() && sessionStarted
      ensures currentQuestion == GenerateQuestionWithHf(choice, chat) && recordedResponse == ""
      ensures isRecording == old(isRecording)
    {
      currentQuestion := GenerateQuestionWithHf(choice, chat);
      recordedResponse := "";
    }

    /** `record_audio`: the simulated recording. It sets the flag and a notice,
        then (after a pause) the sample answer, and clears the flag again, all
        within one run of the page. */
    method RecordAudio()
      modifies this
      ensures present == old(present) && sessionStarted == old(sessionStarted)
      ensures currentQuestion == old(currentQuestion)
      ensures recordedResponse == SampleResponse && !isRecording
    {
      isRecording := true;
      recordedResponse := RecordingNotice;
      recordedResponse := SampleResponse;
      isRecording := false;
    }

    /** "Start Recording", disabled while a recording is in progress. */
    method StartRecording()
      requires Initialized() && sessionStarted && !isRecording
      modifies this
      ensures Initialized() && sessionStarted && currentQuestion == old(currentQuestion)
      ensures recordedResponse == SampleResponse && !isRecording
    {
      RecordAudio();
    }

    /** "Stop Recording", enabled only while a recording is in progress. Since
        every handler leaves the flag false, no page ever enables it. */
    method StopRecording()
      requires Initialized() && sessionStarted && isRecording
      modifies this
      ensures Initialized() && sessionStarted && !isRecording
      ensures currentQuestion == old(currentQuestion) && recordedResponse == old(recordedResponse)
    {
      isRecording := false;
    }

    /** "Submit Response": accepted when either the recorded or the typed
        answer is non-empty, and the typed one wins; nothing in the session
        changes. None stands for the "please record or type" error. */
    method Submit(manualResponse: string) returns (submitted: Option<string>)
      requires RecordedResponse in present
      ensures submitted.Some? <==> recordedResponse != "" || manualResponse != ""
      ensures manualResponse != "" ==> submitted == Some(manualResponse)
      ensures manualResponse == "" && submitted.Some? ==> submitted.value == recordedResponse
    {
      if recordedResponse != "" || manualResponse != "" {
        var submittedText := if manualResponse != "" then manualResponse else recordedResponse;
        return Some(submittedText);
      }
      return None;
    }
  }
}
