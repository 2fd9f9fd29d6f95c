/** Properties of one run of `process_note_generation` (main.py lines
    203-282): the order of the steps the task document shows, the document a
    run leaves behind, the error texts a failed run stores, and the note it
    saves when it completes. */
module TaskRuns {
  import opened Results
  import opened Strings
  import VideoIds
  import Transcripts
  import Prompts
  import Providers
  import opened Tasks

  /** The step label an update writes, or "" when it writes none. */
  function Label(u: Update): string
  {
    if "step" in u.result then u.result["step"] else ""
  }

  function Labels(us: seq<Update>): (ls: seq<string>)
    ensures |ls| == |us|
    ensures forall i :: 0 <= i < |us| ==> ls[i] == Label(us[i])
  {
    seq(|us|, i requires 0 <= i < |us| => Label(us[i]))
  }

  /** The steps every run that reaches the generator goes through. */
  const CommonSteps := [ExtractingVideoId, FetchingTranscript, GeneratingAiNotes]
  /** The three complete step sequences: the Qwen model, Gemini answering,
      and Gemini failing over to Qwen. */
  const QwenPath := CommonSteps + [GeneratingWithQwen, SavingHistory]
  const GeminiPath := CommonSteps + [GeneratingWithGemini, SavingHistory]
  const FallbackPath := CommonSteps + [GeneratingWithGemini, FallbackToQwen, SavingHistory]

  /** The document of a task `generate_notes` has just queued. */
  function QueuedDocument(queuedAt: string): TaskRecord
  {
    TaskRecord(Queued, queuedAt, map[], None)
  }

  lemma LabelsOfSteps(labels: seq<string>)
    ensures Labels(StepUpdates(labels)) == labels
  {
  }

  lemma LabelsAppend(a: seq<Update>, b: seq<Update>)
    ensures Labels(a + b) == Labels(a) + Labels(b)
  {
  }

  // ---------------------------------------------------------------------
  // The generator

  /** The steps the generator writes: one for Qwen; one for Gemini, and a
      second when Gemini produced nothing. The Qwen model never calls
      Gemini and calls Qwen at most once. */
  lemma GenerateSteps(model: string, job: Providers.Job, s: Providers.Services)
    ensures GeneratorShape(Generate(model, job, s).steps, model)
    ensures var g := Generate(model, job, s);
            model == QwenModel ==> |g.calls| <= 1 && forall i :: 0 <= i < |g.calls| ==> g.calls[i].QwenRequest?
    ensures var g := Generate(model, job, s);
            model != QwenModel ==> g.calls != [] && g.calls[0].GeminiRequest?
  {
    if model != QwenModel {
      Providers.GeminiAsksQwenAtMostOnce(job, s);
    }
  }

  /** Qwen, when Gemini produced nothing, is asked once more even if the
      Gemini generator already asked it: a Gemini error that is not a rate
      limit followed by an empty Qwen reply and then a Qwen answer makes two
      Qwen requests, and the second answer becomes the notes. */
  lemma QwenAskedTwice(model: string, job: Providers.Job, s: Providers.Services, message: string, content: string)
    requires model != QwenModel
    requires s.gemini(0) == Providers.GeminiError(message) && !Providers.IsRateLimit(message)
    requires s.hfToken != ""
    requires s.qwen(0) == Providers.QwenContent("")
    requires s.qwen(1) == Providers.QwenContent(content) && content != ""
    ensures var p := Providers.Prompt(job);
            Generate(model, job, s)
            == Generation([GeneratingWithGemini, FallbackToQwen], Some(content),
                          [Providers.GeminiRequest(0, p), Providers.QwenRequest(p), Providers.QwenRequest(p)])
  {
    var p := Providers.Prompt(job);
    Providers.GeminiHardErrorHandsOff(job, s, 0);
    var r := Providers.GenerateNotesWithGeminiSpec(job, s);
    assert r == Providers.Reply(None, [Providers.GeminiRequest(0, p), Providers.QwenRequest(p)]);
    assert Providers.QwenRequests(r.calls) == 1 by {
      Providers.QwenRequestsAppend([Providers.GeminiRequest(0, p)], [Providers.QwenRequest(p)]);
      assert [Providers.GeminiRequest(0, p)][..0] == [];
      assert [Providers.QwenRequest(p)][..0] == [];
    }
  }

  // ---------------------------------------------------------------------
  // The steps of a run

  /** The writes of a run: at least two; every one but the last a step
      label; the last marking the task completed or failed, a failure with
      a non-empty error and no result. */
  predicate Terminated(us: seq<Update>)
  {
    |us| >= 2
    && (us[|us| - 1].status == Completed || us[|us| - 1].status == Failed)
    && (forall i :: 0 <= i < |us| - 1 ==> us[i] == Step(Label(us[i])))
    && (us[|us| - 1].status == Failed ==> us[|us| - 1].result == map[] && us[|us| - 1].error != "")
  }

  /** Step labels that are a prefix of one of the three step sequences (of
      the Qwen one when the Qwen model runs), and all of one when the run
      completed. */
  predicate OnPath(labels: seq<string>, qwen: bool, completed: bool)
  {
    (labels <= QwenPath || labels <= GeminiPath || labels <= FallbackPath)
    && (qwen ==> labels <= QwenPath)
    && (completed ==> labels == QwenPath || labels == GeminiPath || labels == FallbackPath)
  }

  /** Each complete step sequence ends with the saving step. */
  lemma PathsEndSaving(ls: seq<string>)
    requires ls == QwenPath || ls == GeminiPath || ls == FallbackPath
    ensures |ls| >= 5 && ls[|ls| - 1] == SavingHistory
  {
  }

  /** The writes of a run that fails before the generator: the first one or
      two steps, then the failure. */
  lemma EarlyFailureSteps(steps: seq<Update>, error: string, qwen: bool)
    requires steps == [Step(ExtractingVideoId)] || steps == [Step(ExtractingVideoId)] + [Step(FetchingTranscript)]
    requires error != ""
    ensures Terminated(steps + [Fail(error)])
    ensures OnPath(Labels((steps + [Fail(error)])[..|steps|]), qwen, false)
  {
    var us := steps + [Fail(error)];
    assert us[..|steps|] == steps;
    if |steps| == 1 {
      assert Labels(steps) == [ExtractingVideoId];
    } else {
      assert Labels(steps) == [ExtractingVideoId, FetchingTranscript];
    }
  }

  /** The common steps followed by the generator's. */
  function GeneratorUpdates(steps: seq<string>): seq<Update>
  {
    [Step(ExtractingVideoId)] + [Step(FetchingTranscript)] + [Step(GeneratingAiNotes)] + StepUpdates(steps)
  }

  /** The step sequence a generator's steps complete. */
  function PathOf(steps: seq<string>): seq<string>
  {
    CommonSteps + steps + [SavingHistory]
  }

  predicate GeneratorShape(steps: seq<string>, model: string)
  {
    if model == QwenModel then steps == [GeneratingWithQwen]
    else steps == [GeneratingWithGemini] || steps == [GeneratingWithGemini, FallbackToQwen]
  }

  lemma GeneratorLabels(steps: seq<string>, model: string)
    requires GeneratorShape(steps, model)
    ensures Labels(GeneratorUpdates(steps)) == CommonSteps + steps
    ensures forall i :: 0 <= i < |GeneratorUpdates(steps)| ==> GeneratorUpdates(steps)[i] == Step(Label(GeneratorUpdates(steps)[i]))
    ensures PathOf(steps) == QwenPath || PathOf(steps) == GeminiPath || PathOf(steps) == FallbackPath
    ensures model == QwenModel ==> PathOf(steps) == QwenPath
  {
    var pre := [Step(ExtractingVideoId)] + [Step(FetchingTranscript)] + [Step(GeneratingAiNotes)];
    LabelsAppend(pre, StepUpdates(steps));
    LabelsOfSteps(steps);
    assert Labels(pre) == CommonSteps;
  }

  /** The writes of a run whose generator produced nothing: the common
      steps and the generator's, then the failure. */
  lemma GeneratorFailedSteps(steps: seq<string>, model: string)
    requires GeneratorShape(steps, model)
    ensures var us := GeneratorUpdates(steps) + [Fail(GenerationFailed)];
            Terminated(us) && OnPath(Labels(us[..|us| - 1]), model == QwenModel, false)
  {
    var stepped := GeneratorUpdates(steps);
    var us := stepped + [Fail(GenerationFailed)];
    GeneratorLabels(steps, model);
    assert us[..|us| - 1] == stepped;
    assert Labels(stepped) <= PathOf(steps);
  }

  /** The writes of a run whose generator produced notes: the common steps
      and the generator's, the saving step, then the completion. */
  lemma GeneratorCompletedSteps(steps: seq<string>, model: string, payload: map<string, string>)
    requires GeneratorShape(steps, model)
    ensures var us := GeneratorUpdates(steps) + [Step(SavingHistory)] + [Update(Completed, payload, "")];
            Terminated(us) && OnPath(Labels(us[..|us| - 1]), model == QwenModel, true)
  {
    var stepped := GeneratorUpdates(steps);
    var us := stepped + [Step(SavingHistory)] + [Update(Completed, payload, "")];
    GeneratorLabels(steps, model);
    assert us[..|us| - 1] == stepped + [Step(SavingHistory)];
    LabelsAppend(stepped, [Step(SavingHistory)]);
    assert Labels(us[..|us| - 1]) == PathOf(steps);
  }

  /** A run's writes end in a terminal write after a path of step labels,
      and it completes exactly when it saves a note. */
  predicate WellStepped(run: Run, qwen: bool)
  {
    var us := run.updates;
    Terminated(us)
    && OnPath(Labels(us[..|us| - 1]), qwen, us[|us| - 1].status == Completed)
    && (us[|us| - 1].status == Completed <==> run.saved.Some?)
  }

  /** Every run is well stepped. */
  lemma RunSteps(req: GenerateRequest, modifier: string, env: Environment)
    ensures WellStepped(RunSpec(req, modifier, env), req.model == QwenModel)
  {
    var u0 := [Step(ExtractingVideoId)];
    var u1 := u0 + [Step(FetchingTranscript)];
    var qwen := req.model == QwenModel;
    match VideoIds.ExtractVideoId(req.youtubeUrl)
    case Err(e) =>
      EarlyFailureSteps(u0, HttpText(e), qwen);
      assert RunSpec(req, modifier, env) == Run(u0 + [Fail(HttpText(e))], [], None);
    case Ok(videoId) =>
      var fetched := Transcripts.GetTranscript(env.transcripts(videoId));
      if fetched.Err? {
        EarlyFailureSteps(u1, HttpText(fetched.error), qwen);
        assert RunSpec(req, modifier, env) == Run(u1 + [Fail(HttpText(fetched.error))], [], None);
      } else if Transcripts.GateTranscript(fetched.value).Err? {
        EarlyFailureSteps(u1, Transcripts.TooShortMessage, qwen);
        assert RunSpec(req, modifier, env) == Run(u1 + [Fail(Transcripts.TooShortMessage)], [], None);
      } else {
        var transcript := Transcripts.GateTranscript(fetched.value).value;
        RunSpecReachesGeneration(req, modifier, env, videoId, fetched.value, transcript);
        RunFromTranscriptSteps(videoId, transcript, req, modifier, env);
      }
  }

  /** A run that reaches the generator is well stepped. */
  lemma RunFromTranscriptSteps(videoId: string, transcript: string, req: GenerateRequest, modifier: string, env: Environment)
    ensures WellStepped(RunFromTranscript(videoId, transcript, req, modifier, env, FirstSteps),
                        req.model == QwenModel)
  {
    var u1 := [Step(ExtractingVideoId)] + [Step(FetchingTranscript)];
    var job := Providers.Job(env.template, transcript, req.outputLanguage, modifier);
    var gen := Generate(req.model, job, env.services);
    GenerateSteps(req.model, job, env.services);
    assert u1 + [Step(GeneratingAiNotes)] + StepUpdates(gen.steps) == GeneratorUpdates(gen.steps);
    if gen.notes.Some? {
      RunCompleted(videoId, transcript, req, modifier, env, u1, gen.notes.value);
      GeneratorCompletedSteps(gen.steps, req.model, NotesPayload(gen.notes.value, videoId, env.noteId, Prompts.NoteTitle(gen.notes.value)));
    } else {
      GeneratorFailedSteps(gen.steps, req.model);
      assert RunFromTranscript(videoId, transcript, req, modifier, env, u1)
          == Run(GeneratorUpdates(gen.steps) + [Fail(GenerationFailed)], gen.calls, None);
    }
  }

  // ---------------------------------------------------------------------
  // The document a run leaves behind

  /** The result and the error a document had before a write. */
  function ResultBefore(prev: Option<TaskRecord>): map<string, string>
  {
    if prev.Some? then prev.value.result else map[]
  }

  function ErrorBefore(prev: Option<TaskRecord>): Option<string>
  {
    if prev.Some? then prev.value.error else None
  }

  /** One step write. */
  lemma StepWrite(prev: Option<TaskRecord>, step: string, now: string)
    ensures Write(prev, Step(step), now) == TaskRecord(Processing, now, ResultBefore(prev) + map["step" := step], ErrorBefore(prev))
  {
  }

  /** A later step label replaces an earlier one. */
  lemma StepOverride(base: map<string, string>, a: string, b: string)
    ensures (base + map["step" := a]) + map["step" := b] == base + map["step" := b]
  {
  }

  /** Step writes keep the document's error and merge the step label into
      its result: after any run of them the result holds the last label. */
  lemma {:induction false} WriteSteps(prev: Option<TaskRecord>, us: seq<Update>, now: string)
    requires us != []
    requires forall i :: 0 <= i < |us| ==> us[i] == Step(Label(us[i]))
    ensures WriteAll(prev, us, now)
         == Some(TaskRecord(Processing, now, ResultBefore(prev) + map["step" := Label(us[|us| - 1])], ErrorBefore(prev)))
  {
    var init := us[..|us| - 1];
    var u := us[|us| - 1];
    assert u == Step(Label(u));
    if init == [] {
      StepWrite(prev, Label(u), now);
    } else {
      assert forall i :: 0 <= i < |init| ==> init[i] == us[i];
      WriteSteps(prev, init, now);
      var d := WriteAll(prev, init, now);
      assert init[|init| - 1] == us[|us| - 2];
      StepWrite(d, Label(u), now);
      StepOverride(ResultBefore(prev), Label(us[|us| - 2]), Label(u));
    }
  }

  /** The document of a queued task after the writes of a run: the status
      of the last write; the last step label in `result`, with the last
      write's result merged over it; its error text, if any, in `error`. */
  lemma WrittenDocument(us: seq<Update>, queuedAt: string, now: string)
    requires Terminated(us)
    ensures var doc := WriteAll(Some(QueuedDocument(queuedAt)), us, now).value;
            var last := us[|us| - 1];
            doc.status == last.status && doc.updatedAt == now
            && doc.result == map["step" := Label(us[|us| - 2])] + last.result
            && doc.error == (if last.error == "" then None else Some(last.error))
  {
    var init := us[..|us| - 1];
    var last := us[|us| - 1];
    var start := Some(QueuedDocument(queuedAt));
    WriteSteps(start, init, now);
    var d := WriteAll(start, init, now).value;
    assert WriteAll(start, us, now) == Some(Write(Some(d), last, now));
    assert init[|init| - 1] == us[|us| - 2];
    var stepped := map["step" := Label(us[|us| - 2])];
    assert d.result == stepped by {
      assert map[] + stepped == stepped;
    }
    assert stepped + map[] == stepped;
  }

  /** What a run leaves in its task document: a failed run leaves the last
      step label in `result` and its error text in `error`; a completed run
      leaves the four payload keys merged over the "saving_history" step
      label, and no error. */
  predicate LeftBehind(run: Run, doc: TaskRecord, now: string)
    requires |run.updates| >= 2
  {
    doc.updatedAt == now
    && (doc.status == Completed || doc.status == Failed)
    && (doc.status == Failed ==>
          run.saved.None? && doc.error.Some? && doc.error.value != ""
          && doc.error.value == run.updates[|run.updates| - 1].error
          && doc.result == map["step" := Label(run.updates[|run.updates| - 2])])
    && (doc.status == Completed ==>
          run.saved.Some? && doc.error.None?
          && doc.result == map["step" := SavingHistory]
                           + NotesPayload(run.saved.value.notes, run.saved.value.videoId, run.saved.value.id, run.saved.value.title))
  }

  /** A well-stepped run whose completion write carries the payload of the
      note it saves leaves that behind in a queued document. */
  lemma WellSteppedLeavesBehind(run: Run, qwen: bool, queuedAt: string, now: string)
    requires WellStepped(run, qwen)
    requires run.saved.Some? ==>
               var e := run.saved.value;
               run.updates[|run.updates| - 1] == Update(Completed, NotesPayload(e.notes, e.videoId, e.id, e.title), "")
    ensures LeftBehind(run, WriteAll(Some(QueuedDocument(queuedAt)), run.updates, now).value, now)
  {
    var us := run.updates;
    WrittenDocument(us, queuedAt, now);
    var last := us[|us| - 1];
    if last.status == Failed {
      assert map["step" := Label(us[|us| - 2])] + map[] == map["step" := Label(us[|us| - 2])];
    } else {
      var ls := Labels(us[..|us| - 1]);
      PathsEndSaving(ls);
      assert ls[|ls| - 1] == Label(us[|us| - 2]);
    }
  }

  /** The document of a queued task after its run. */
  lemma FinalDocument(req: GenerateRequest, modifier: string, env: Environment, queuedAt: string)
    ensures var run := RunSpec(req, modifier, env);
            LeftBehind(run, WriteAll(Some(QueuedDocument(queuedAt)), run.updates, env.now).value, env.now)
  {
    RunSteps(req, modifier, env);
    RunSaves(req, modifier, env);
    WellSteppedLeavesBehind(RunSpec(req, modifier, env), req.model == QwenModel, queuedAt, env.now);
  }

  // ---------------------------------------------------------------------
  // The saved note

  /** A completed run saves exactly one note, made of the generated notes,
      their title, the id of the video the URL names and the length of the
      gated transcript; the completion write carries the same notes, video
      id, note id and title. A run that fails saves nothing. */
  lemma RunSaves(req: GenerateRequest, modifier: string, env: Environment)
    ensures var run := RunSpec(req, modifier, env);
            run.saved.Some? ==>
              var e := run.saved.value;
              run.updates != []
              && run.updates[|run.updates| - 1] == Update(Completed, NotesPayload(e.notes, e.videoId, e.id, e.title), "")
              && e.id == env.noteId && e.createdAt == env.now
              && e.youtubeUrl == req.youtubeUrl && e.language == req.outputLanguage
              && e.notes != "" && e.title == Prompts.NoteTitle(e.notes)
              && VideoIds.ExtractVideoId(req.youtubeUrl) == Ok(e.videoId) && VideoIds.IsVideoId(e.videoId)
              && Prepare(req, env).Prepared? && e.transcriptLength == |Prepare(req, env).transcript|
              && Transcripts.MinLength <= e.transcriptLength <= Transcripts.MaxLength + |Transcripts.TruncationMarker|
    ensures var run := RunSpec(req, modifier, env);
            run.saved.None? ==> run.updates != [] && run.updates[|run.updates| - 1].status == Failed
  {
    match VideoIds.ExtractVideoId(req.youtubeUrl)
    case Err(e) =>
    case Ok(videoId) =>
      match Transcripts.GetTranscript(env.transcripts(videoId))
      case Err(e) =>
      case Ok(raw) =>
        if Transcripts.GateTranscript(raw).Ok? {
          Transcripts.GateBounds(raw);
        }
  }

  // ---------------------------------------------------------------------
  // Runs that fail

  /** The status codes the runner's errors carry, as `str` renders them. */
  lemma StatusTexts()
    ensures NatText(400) == "400" && NatText(404) == "404" && NatText(500) == "500"
  {
    assert NatText(4) == "4" && NatText(5) == "5";
    assert NatText(40) == "40" && NatText(50) == "50";
  }

  /** A URL no pattern matches fails the run right after its first step,
      with the text of the 400 error and no generator call. */
  lemma InvalidUrlRun(req: GenerateRequest, modifier: string, env: Environment)
    requires VideoIds.ExtractVideoId(req.youtubeUrl).Err?
    ensures RunSpec(req, modifier, env)
         == Run([Step(ExtractingVideoId), Fail("400: " + VideoIds.InvalidUrl.detail)], [], None)
  {
    StatusTexts();
    var e := VideoIds.ExtractVideoId(req.youtubeUrl).error;
    assert e == VideoIds.InvalidUrl;
    assert HttpText(e) == "400: " + VideoIds.InvalidUrl.detail;
    assert RunSpec(req, modifier, env) == Run([Step(ExtractingVideoId)] + [Fail(HttpText(e))], [], None);
  }

  /** A video whose captions cannot be retrieved, and which has no
      subtitles, fails the run after its second step with the text of the
      404 error. */
  lemma NoCaptionsRun(req: GenerateRequest, modifier: string, env: Environment, videoId: string, message: string)
    requires VideoIds.ExtractVideoId(req.youtubeUrl) == Ok(videoId)
    requires env.transcripts(videoId) == Transcripts.Failure(message, false)
    requires Contains(message, Transcripts.NoCaptionsMarker)
    ensures RunSpec(req, modifier, env)
         == Run([Step(ExtractingVideoId), Step(FetchingTranscript), Fail("404: " + Transcripts.NoCaptions.detail)], [], None)
  {
    StatusTexts();
    var e := Transcripts.GetTranscript(env.transcripts(videoId)).error;
    assert e == Transcripts.NoCaptions;
    assert HttpText(e) == "404: " + Transcripts.NoCaptions.detail;
    assert RunSpec(req, modifier, env) == Run([Step(ExtractingVideoId)] + [Step(FetchingTranscript)] + [Fail(HttpText(e))], [], None);
  }

  /** A transcript shorter than 50 characters fails the run after its second
      step, before any generator is called. */
  lemma TooShortRun(req: GenerateRequest, modifier: string, env: Environment, videoId: string, raw: string)
    requires VideoIds.ExtractVideoId(req.youtubeUrl) == Ok(videoId)
    requires Transcripts.GetTranscript(env.transcripts(videoId)) == Ok(raw)
    requires |raw| < Transcripts.MinLength
    ensures RunSpec(req, modifier, env)
         == Run([Step(ExtractingVideoId), Step(FetchingTranscript), Fail("Transcript is too short")], [], None)
  {
  }

  /** A run whose generator produces nothing fails with the generation
      error after the generator's steps, and saves nothing. */
  lemma GenerationFailedRun(videoId: string, transcript: string, req: GenerateRequest, modifier: string, env: Environment, before: seq<Update>)
    requires Generate(req.model, Providers.Job(env.template, transcript, req.outputLanguage, modifier), env.services).notes.None?
    ensures var run := RunFromTranscript(videoId, transcript, req, modifier, env, before);
            run.saved.None? && run.updates[|run.updates| - 1] == Fail("AI generation failed with selected model")
  {
  }

  /** The Qwen model never calls Gemini: its run makes at most one request,
      to Qwen. */
  lemma QwenRunNeverCallsGemini(req: GenerateRequest, modifier: string, env: Environment)
    requires req.model == QwenModel
    ensures var calls := RunSpec(req, modifier, env).calls;
            |calls| <= 1 && forall i :: 0 <= i < |calls| ==> calls[i].QwenRequest?
  {
    match VideoIds.ExtractVideoId(req.youtubeUrl)
    case Err(e) =>
    case Ok(videoId) =>
      match Transcripts.GetTranscript(env.transcripts(videoId))
      case Err(e) =>
      case Ok(raw) =>
        match Transcripts.GateTranscript(raw)
        case Err(m) =>
        case Ok(transcript) =>
          GenerateSteps(req.model, Providers.Job(env.template, transcript, req.outputLanguage, modifier), env.services);
  }
}
