/** The note-generation task engine of main.py: the task documents written
    by `update_task_status` (lines 192-201), the task created by
    `generate_notes` (lines 651-680), the polling read `get_task_status`
    (lines 682-692) and the background runner `process_note_generation`
    (lines 203-282). The document store is an in-memory map; the services
    the runner depends on are inputs. */
module Tasks {
  import opened Results
  import opened Strings
  import VideoIds
  import Transcripts
  import Prompts
  import Providers

  datatype Status = Queued | Processing | Completed | Failed

  /** The status as the document stores it. */
  function StatusName(status: Status): string
  {
    match status
    case Queued => "queued"
    case Processing => "processing"
    case Completed => "completed"
    case Failed => "failed"
  }

  /** A task document: its status, the time of its last write, its `result`
      map (empty when the document has none) and its `error` text. */
  datatype TaskRecord = TaskRecord(status: Status, updatedAt: string, result: map<string, string>, error: Option<string>)

  /** The fields one `update_task_status` call writes: `status` and
      `updated_at` always, `result` and `error` only when given. */
  datatype Patch = Patch(status: Status, updatedAt: string, result: Option<map<string, string>>, error: Option<string>)

  /** A merging write: the patch's fields replace the document's, and a
      `result` map is merged key by key into the one already stored. */
  function MergeWrite(prev: Option<TaskRecord>, patch: Patch): TaskRecord
  {
    var oldResult := if prev.Some? then prev.value.result else map[];
    var oldError := if prev.Some? then prev.value.error else None;
    TaskRecord(
      patch.status,
      patch.updatedAt,
      if patch.result.Some? then oldResult + patch.result.value else oldResult,
      if patch.error.Some? then patch.error else oldError)
  }

  /** The arguments of one `update_task_status` call. */
  datatype Update = Update(status: Status, result: map<string, string>, error: string)

  /** The patch `update_task_status` builds: `result` only when it is a
      non-empty map, `error` only when it is a non-empty text. */
  function PatchOf(u: Update, now: string): Patch
  {
    Patch(u.status, now, if u.result != map[] then Some(u.result) else None, if u.error != "" then Some(u.error) else None)
  }

  /** The document after an `update_task_status` call. */
  function Write(prev: Option<TaskRecord>, u: Update, now: string): (r: TaskRecord)
    ensures r.status == u.status && r.updatedAt == now
    ensures u.result == map[] ==> r.result == (if prev.Some? then prev.value.result else map[])
    ensures forall key :: key in u.result ==> key in r.result && r.result[key] == u.result[key]
    ensures forall key :: key in r.result && key !in u.result ==> prev.Some? && key in prev.value.result && r.result[key] == prev.value.result[key]
    ensures u.error != "" ==> r.error == Some(u.error)
    ensures u.error == "" ==> r.error == (if prev.Some? then prev.value.error else None)
  {
    MergeWrite(prev, PatchOf(u, now))
  }

  /** The document after a sequence of writes, all made at `now`. */
  function WriteAll(prev: Option<TaskRecord>, us: seq<Update>, now: string): (r: Option<TaskRecord>)
    ensures us != [] ==> r.Some? && r.value.status == us[|us| - 1].status
  {
    if us == [] then prev
    else Some(Write(WriteAll(prev, us[..|us| - 1], now), us[|us| - 1], now))
  }

  function Lookup(tasks: map<string, TaskRecord>, id: string): Option<TaskRecord>
  {
    if id in tasks then Some(tasks[id]) else None
  }

  /** A step label, written inside `result`. */
  function Step(step: string): Update
  {
    Update(Processing, map["step" := step], "")
  }

  function Fail(error: string): Update
  {
    Update(Failed, map[], error)
  }

  /** The result of a completed task. */
  function NotesPayload(notes: string, videoId: string, noteId: string, title: string): map<string, string>
  {
    map["notes" := notes, "video_id" := videoId, "note_id" := noteId, "title" := title]
  }

  /** `str(e)` of an `HTTPException`: the status code, a colon and the
      detail. */
  function HttpText(e: HttpError): string
  {
    NatText(e.status) + ": " + e.detail
  }

  const ExtractingVideoId := "extracting_video_id"
  const FetchingTranscript := "fetching_transcript"
  const GeneratingAiNotes := "generating_ai_notes"
  const GeneratingWithQwen := "generating_with_qwen"
  const GeneratingWithGemini := "generating_with_gemini"
  const FallbackToQwen := "fallback_to_qwen"
  const SavingHistory := "saving_history"

  const QwenModel := "qwen"
  const GenerationFailed := "AI generation failed with selected model"
  const UrlRequired := HttpError(400, "URL required")
  const TaskNotFound := HttpError(404, "Task not found")

  /** The body of a generation request. */
  datatype GenerateRequest = GenerateRequest(youtubeUrl: string, outputLanguage: string, model: string)

  /** A saved note, as stored in the user's history. */
  datatype HistoryEntry = HistoryEntry(
    id: string, title: string, videoId: string, youtubeUrl: string, language: string,
    notes: string, transcriptLength: nat, createdAt: string)

  /** What a run depends on besides its request: the transcript services'
      answer for each video id, the generators' services, the prompt
      template, the note id the run draws and the clock reading. */
  datatype Environment = Environment(
    transcripts: string -> Transcripts.Fetch, services: Providers.Services,
    template: string, noteId: string, now: string)

  // ---------------------------------------------------------------------
  // The runner, as a specification

  /** Lines 233-249: the generator the request selects, and the Qwen
      fallback when Gemini produced nothing. */
  datatype Generation = Generation(steps: seq<string>, notes: Option<string>, calls: seq<Providers.Call>)

  function Generate(model: string, job: Providers.Job, s: Providers.Services): (g: Generation)
    ensures g.notes.Some? ==> g.notes.value != ""
  {
    if model == QwenModel then
      var q := Providers.GenerateNotesWithQwen(job, s, 0);
      Generation([GeneratingWithQwen], q.notes, q.calls)
    else
      var r := Providers.GenerateNotesWithGeminiSpec(job, s);
      Providers.GeminiNotesTruthy(job, s);
      if r.notes.Some? then Generation([GeneratingWithGemini], r.notes, r.calls)
      else
        var q := Providers.GenerateNotesWithQwen(job, s, Providers.QwenRequests(r.calls));
        Generation([GeneratingWithGemini, FallbackToQwen], q.notes, r.calls + q.calls)
  }

  /** What a run did: the writes to its task document, the generator calls,
      and the history entry it saved. */
  datatype Run = Run(updates: seq<Update>, calls: seq<Providers.Call>, saved: Option<HistoryEntry>)

  /** The runner from the generation step on, once the transcript is known,
      with `modifier` as the audience text appended to the prompt. */
  function RunFromTranscript(videoId: string, transcript: string, req: GenerateRequest, modifier: string, env: Environment, before: seq<Update>): Run
  {
    var steps := before + [Step(GeneratingAiNotes)];
    var job := Providers.Job(env.template, transcript, req.outputLanguage, modifier);
    var gen := Generate(req.model, job, env.services);
    var stepped := steps + StepUpdates(gen.steps);
    match gen.notes
    case None => Run(stepped + [Fail(GenerationFailed)], gen.calls, None)
    case Some(notes) =>
      var title := Prompts.NoteTitle(notes);
      var entry := HistoryEntry(env.noteId, title, videoId, req.youtubeUrl, req.outputLanguage, notes, |transcript|, env.now);
      Run(stepped + [Step(SavingHistory)] + [Update(Completed, NotesPayload(notes, videoId, env.noteId, title), "")], gen.calls, Some(entry))
  }

  /** The run once generation produced `notes`: the saving step, the
      completed write with the payload, and the saved entry. */
  lemma RunCompleted(videoId: string, transcript: string, req: GenerateRequest, modifier: string, env: Environment, before: seq<Update>, notes: string)
    requires Generate(req.model, Providers.Job(env.template, transcript, req.outputLanguage, modifier), env.services).notes == Some(notes)
    ensures var gen := Generate(req.model, Providers.Job(env.template, transcript, req.outputLanguage, modifier), env.services);
            var title := Prompts.NoteTitle(notes);
            RunFromTranscript(videoId, transcript, req, modifier, env, before)
            == Run(before + [Step(GeneratingAiNotes)] + StepUpdates(gen.steps)
                     + [Step(SavingHistory)] + [Update(Completed, NotesPayload(notes, videoId, env.noteId, title), "")],
                   gen.calls,
                   Some(HistoryEntry(env.noteId, title, videoId, req.youtubeUrl, req.outputLanguage, notes, |transcript|, env.now)))
  {
  }

  function StepUpdates(steps: seq<string>): (us: seq<Update>)
    ensures |us| == |steps|
    ensures forall i :: 0 <= i < |steps| ==> us[i] == Step(steps[i])
  {
    if steps == [] then [] else [Step(steps[0])] + StepUpdates(steps[1..])
  }

  /** Steps 1 and 2 of the runner: the video id and the gated transcript,
      or the writes of a run that fails there. */
  datatype Prepared = Prepared(videoId: string, transcript: string) | Stopped(updates: seq<Update>)

  /** The two step writes a run makes before the generation step. */
  const FirstSteps := [Step(ExtractingVideoId)] + [Step(FetchingTranscript)]

  function Prepare(req: GenerateRequest, env: Environment): Prepared
  {
    var u0 := [Step(ExtractingVideoId)];
    match VideoIds.ExtractVideoId(req.youtubeUrl)
    case Err(e) => Stopped(u0 + [Fail(HttpText(e))])
    case Ok(videoId) =>
      match Transcripts.GetTranscript(env.transcripts(videoId))
      case Err(e) => Stopped(FirstSteps + [Fail(HttpText(e))])
      case Ok(raw) =>
        match Transcripts.GateTranscript(raw)
        case Err(message) => Stopped(FirstSteps + [Fail(message)])
        case Ok(transcript) => Prepared(videoId, transcript)
  }

  /** `process_note_generation`, with `modifier` as the audience text the
      user's role selects: every exception ends the run with a `failed`
      write carrying its text. */
  function RunSpec(req: GenerateRequest, modifier: string, env: Environment): (run: Run)
    ensures |run.updates| >= 2
  {
    match Prepare(req, env)
    case Stopped(updates) => Run(updates, [], None)
    case Prepared(videoId, transcript) => RunFromTranscript(videoId, transcript, req, modifier, env, FirstSteps)
  }

  /** A run whose URL, transcript and gate all succeed continues with the
      generation step after the two step writes. */
  lemma RunSpecReachesGeneration(req: GenerateRequest, modifier: string, env: Environment, videoId: string, raw: string, transcript: string)
    requires VideoIds.ExtractVideoId(req.youtubeUrl) == Ok(videoId)
    requires Transcripts.GetTranscript(env.transcripts(videoId)) == Ok(raw)
    requires Transcripts.GateTranscript(raw) == Ok(transcript)
    ensures Prepare(req, env) == Prepared(videoId, transcript)
    ensures RunSpec(req, modifier, env) == RunFromTranscript(videoId, transcript, req, modifier, env, FirstSteps)
  {
  }

  /** `generate_notes`: the role the run is given, from the user's document
      (the default "student" when there is no document, an empty one, or no
      role in it). */
  function UserRole(user: Option<map<string, string>>): string
  {
    if user.Some? && user.value != map[] && "role" in user.value then user.value["role"] else "student"
  }

  // ---------------------------------------------------------------------
  // The store and the runner

  class TaskStore {
    /** The task documents, by task id. */
    var tasks: map<string, TaskRecord>
    /** The saved notes, by user email and then by note id. */
    var history: map<string, map<string, HistoryEntry>>

    constructor ()
      ensures tasks == map[] && history == map[]
    {
      tasks := map[];
      history := map[];
    }

    /** `update_task_status`: builds the patch field by field and merges it
        into the task's document. */
    method UpdateTaskStatus(taskId: string, status: Status, result: map<string, string>, error: string, now: string)
      modifies this
      ensures tasks == old(tasks)[taskId := Write(Lookup(old(tasks), taskId), Update(status, result, error), now)]
      ensures history == old(history)
    {
      var data := Patch(status, now, None, None);
      if result != map[] {
        data := data.(result := Some(result));
      }
      if error != "" {
        data := data.(error := Some(error));
      }
      tasks := tasks[taskId := MergeWrite(Lookup(tasks, taskId), data)];
    }

    /** `save_history_item`: the entry replaces any entry with its id. */
    method SaveHistoryItem(email: string, entry: HistoryEntry)
      modifies this
      ensures history == old(history)[email := (if email in old(history) then old(history)[email] else map[])[entry.id := entry]]
      ensures tasks == old(tasks)
    {
      var notes := if email in history then history[email] else map[];
      history := history[email := notes[entry.id := entry]];
    }

    /** `get_task_status`: the document, or a 404. */
    method GetTaskStatus(taskId: string) returns (r: Result<TaskRecord, HttpError>)
      ensures taskId in tasks ==> r == Ok(tasks[taskId])
      ensures taskId !in tasks ==> r == Err(TaskNotFound)
    {
      if taskId !in tasks {
        return Err(TaskNotFound);
      }
      return Ok(tasks[taskId]);
    }

    /** `generate_notes` after authentication: refuses an empty URL,
        otherwise writes the `queued` document of the new task and returns
        its id together with the role the run will use. */
    method GenerateNotes(req: GenerateRequest, user: Option<map<string, string>>, taskId: string, now: string)
      returns (r: Result<(string, string), HttpError>)
      modifies this
      ensures req.youtubeUrl == "" ==> r == Err(UrlRequired) && tasks == old(tasks)
      ensures req.youtubeUrl != "" ==> r == Ok((taskId, UserRole(user)))
      ensures req.youtubeUrl != "" ==> tasks == old(tasks)[taskId := Write(Lookup(old(tasks), taskId), Update(Queued, map[], ""), now)]
      ensures history == old(history)
    {
      if req.youtubeUrl == "" {
        return Err(UrlRequired);
      }
      var role := UserRole(user);
      UpdateTaskStatus(taskId, Queued, map[], "", now);
      return Ok((taskId, role));
    }

    /** `process_note_generation`: the writes, the generator calls and the
        saved entry are those of `RunSpec`. */
    method ProcessNoteGeneration(taskId: string, req: GenerateRequest, userEmail: string, userRole: string, env: Environment)
      returns (calls: seq<Providers.Call>)
      modifies this
      ensures var run := RunSpec(req, Prompts.RoleModifier(userRole), env);
              tasks == old(tasks)[taskId := WriteAll(Lookup(old(tasks), taskId), run.updates, env.now).value]
      ensures var run := RunSpec(req, Prompts.RoleModifier(userRole), env);
              history == if run.saved.Some? then Saved(old(history), userEmail, run.saved.value) else old(history)
      ensures calls == RunSpec(req, Prompts.RoleModifier(userRole), env).calls
    {
      ghost var base := tasks;
      ghost var start := Lookup(tasks, taskId);
      calls := [];
      var prepared := ExtractAndFetch(taskId, req, env, base, start);
      if prepared.Stopped? {
        return;
      }
      // Steps 3 and 4
      var roleModifier := Prompts.RoleModifier(userRole);
      calls := GenerateAndSave(taskId, prepared.videoId, prepared.transcript, req, userEmail, roleModifier, env, base, start, FirstSteps);
    }

    /** Steps 1 and 2 of `process_note_generation`: the video id, then the
        transcript, refused below 50 characters and clamped above 30000. */
    method ExtractAndFetch(taskId: string, req: GenerateRequest, env: Environment,
                           ghost base: map<string, TaskRecord>, ghost start: Option<TaskRecord>)
      returns (prepared: Prepared)
      requires tasks == base && start == Lookup(base, taskId)
      modifies this
      ensures prepared == Prepare(req, env)
      ensures prepared.Stopped? ==> prepared.updates != [] && Tracked(tasks, base, taskId, start, prepared.updates, env.now)
      ensures prepared.Prepared? ==> Tracked(tasks, base, taskId, start, FirstSteps, env.now)
      ensures history == old(history)
    {
      ghost var t := tasks;

      // Step 1: the video id
      UpdateTaskStatus(taskId, Processing, map["step" := ExtractingVideoId], "", env.now);
      Tracking(base, taskId, start, [], Step(ExtractingVideoId), env.now, t, tasks);
      t := tasks;
      var extracted := VideoIds.ExtractVideoId(req.youtubeUrl);
      if extracted.Err? {
        UpdateTaskStatus(taskId, Failed, map[], HttpText(extracted.error), env.now);
        Tracking(base, taskId, start, [Step(ExtractingVideoId)], Fail(HttpText(extracted.error)), env.now, t, tasks);
        return Stopped([Step(ExtractingVideoId)] + [Fail(HttpText(extracted.error))]);
      }
      var videoId := extracted.value;

      // Step 2: the transcript, gated and clamped
      UpdateTaskStatus(taskId, Processing, map["step" := FetchingTranscript], "", env.now);
      Tracking(base, taskId, start, [Step(ExtractingVideoId)], Step(FetchingTranscript), env.now, t, tasks);
      t := tasks;
      var fetched := Transcripts.GetTranscript(env.transcripts(videoId));
      if fetched.Err? {
        UpdateTaskStatus(taskId, Failed, map[], HttpText(fetched.error), env.now);
        Tracking(base, taskId, start, FirstSteps, Fail(HttpText(fetched.error)), env.now, t, tasks);
        return Stopped(FirstSteps + [Fail(HttpText(fetched.error))]);
      }
      var transcript := fetched.value;
      if |transcript| < Transcripts.MinLength {
        UpdateTaskStatus(taskId, Failed, map[], Transcripts.TooShortMessage, env.now);
        Tracking(base, taskId, start, FirstSteps, Fail(Transcripts.TooShortMessage), env.now, t, tasks);
        return Stopped(FirstSteps + [Fail(Transcripts.TooShortMessage)]);
      }
      if |transcript| > Transcripts.MaxLength {
        transcript := transcript[..Transcripts.MaxLength] + Transcripts.TruncationMarker;
      }
      assert Transcripts.GateTranscript(fetched.value) == Ok(transcript);
      return Prepared(videoId, transcript);
    }

    /** `process_note_generation` from the generation step on, with the
        audience text of the user's role. */
    method GenerateAndSave(taskId: string, videoId: string, transcript: string, req: GenerateRequest, userEmail: string, roleModifier: string, env: Environment,
                           ghost base: map<string, TaskRecord>, ghost start: Option<TaskRecord>, ghost before: seq<Update>)
      returns (calls: seq<Providers.Call>)
      requires before != [] && Tracked(tasks, base, taskId, start, before, env.now)
      modifies this
      ensures var run := RunFromTranscript(videoId, transcript, req, roleModifier, env, before);
              Tracked(tasks, base, taskId, start, run.updates, env.now)
      ensures var run := RunFromTranscript(videoId, transcript, req, roleModifier, env, before);
              history == if run.saved.Some? then Saved(old(history), userEmail, run.saved.value) else old(history)
      ensures calls == RunFromTranscript(videoId, transcript, req, roleModifier, env, before).calls
    {
      ghost var t := tasks;
      UpdateTaskStatus(taskId, Processing, map["step" := GeneratingAiNotes], "", env.now);
      Tracking(base, taskId, start, before, Step(GeneratingAiNotes), env.now, t, tasks);
      ghost var written := before + [Step(GeneratingAiNotes)];
      var job := Providers.Job(env.template, transcript, req.outputLanguage, roleModifier);
      var notes: Option<string>;
      ghost var generated: seq<Update>;
      notes, calls, generated := SelectAndGenerate(taskId, req.model, job, env.services, env.now, base, start, written);
      ghost var gen := Generate(req.model, job, env.services);
      written := written + generated;
      assert written == before + [Step(GeneratingAiNotes)] + StepUpdates(gen.steps);
      t := tasks;
      if notes.None? {
        UpdateTaskStatus(taskId, Failed, map[], GenerationFailed, env.now);
        Tracking(base, taskId, start, written, Fail(GenerationFailed), env.now, t, tasks);
        assert RunFromTranscript(videoId, transcript, req, roleModifier, env, before) == Run(written + [Fail(GenerationFailed)], gen.calls, None);
        return;
      }
      var text := notes.value;

      UpdateTaskStatus(taskId, Processing, map["step" := SavingHistory], "", env.now);
      Tracking(base, taskId, start, written, Step(SavingHistory), env.now, t, tasks);
      written := written + [Step(SavingHistory)];
      t := tasks;
      var title := Prompts.NoteTitle(text);
      var noteId := env.noteId;
      var entry := HistoryEntry(noteId, title, videoId, req.youtubeUrl, req.outputLanguage, text, |transcript|, env.now);
      SaveHistoryItem(userEmail, entry);
      var payload := NotesPayload(text, videoId, noteId, title);
      UpdateTaskStatus(taskId, Completed, payload, "", env.now);
      Tracking(base, taskId, start, written, Update(Completed, payload, ""), env.now, t, tasks);
      RunCompleted(videoId, transcript, req, roleModifier, env, before, text);
    }

    /** Lines 233-249: the selected generator, then Qwen when Gemini
        produced nothing; returns the notes, the calls and the step writes. */
    method SelectAndGenerate(taskId: string, model: string, job: Providers.Job, services: Providers.Services, now: string,
                             ghost base: map<string, TaskRecord>, ghost start: Option<TaskRecord>, ghost before: seq<Update>)
      returns (notes: Option<string>, calls: seq<Providers.Call>, ghost steps: seq<Update>)
      requires before != [] && Tracked(tasks, base, taskId, start, before, now)
      modifies this
      ensures var gen := Generate(model, job, services);
              notes == gen.notes && calls == gen.calls && steps == StepUpdates(gen.steps)
      ensures Tracked(tasks, base, taskId, start, before + steps, now)
      ensures history == old(history)
    {
      ghost var t := tasks;
      if model == QwenModel {
        UpdateTaskStatus(taskId, Processing, map["step" := GeneratingWithQwen], "", now);
        Tracking(base, taskId, start, before, Step(GeneratingWithQwen), now, t, tasks);
        steps := [Step(GeneratingWithQwen)];
        var q := Providers.GenerateNotesWithQwen(job, services, 0);
        notes := q.notes;
        calls := q.calls;
        assert StepUpdates([GeneratingWithQwen]) == steps;
      } else {
        UpdateTaskStatus(taskId, Processing, map["step" := GeneratingWithGemini], "", now);
        Tracking(base, taskId, start, before, Step(GeneratingWithGemini), now, t, tasks);
        steps := [Step(GeneratingWithGemini)];
        t := tasks;
        var g := Providers.GenerateNotesWithGemini(job, services);
        notes := g.notes;
        calls := g.calls;
        assert StepUpdates([GeneratingWithGemini]) == steps;
        if notes.None? {
          UpdateTaskStatus(taskId, Processing, map["step" := FallbackToQwen], "", now);
          Tracking(base, taskId, start, before + steps, Step(FallbackToQwen), now, t, tasks);
          assert before + steps + [Step(FallbackToQwen)] == before + (steps + [Step(FallbackToQwen)]);
          steps := steps + [Step(FallbackToQwen)];
          var q := Providers.GenerateNotesWithQwen(job, services, Providers.QwenRequests(calls));
          notes := q.notes;
          calls := calls + q.calls;
          assert StepUpdates([GeneratingWithGemini, FallbackToQwen]) == steps;
        }
      }
    }
  }

  /** The history after saving `entry` for `email`. */
  ghost function Saved(h: map<string, map<string, HistoryEntry>>, email: string, entry: HistoryEntry): map<string, map<string, HistoryEntry>>
  {
    h[email := (if email in h then h[email] else map[])[entry.id := entry]]
  }

  /** The task documents `tasks` are `base` with the document of `taskId`
      replaced by the one the writes `written` leave behind. */
  ghost predicate Tracked(tasks: map<string, TaskRecord>, base: map<string, TaskRecord>, taskId: string, start: Option<TaskRecord>, written: seq<Update>, now: string)
  {
    start == Lookup(base, taskId)
    && if written == [] then tasks == base else tasks == base[taskId := WriteAll(start, written, now).value]
  }

  /** One more `update_task_status` call on the tracked task extends the
      tracked writes. */
  lemma Tracking(base: map<string, TaskRecord>, taskId: string, start: Option<TaskRecord>, written: seq<Update>, u: Update, now: string,
                 before: map<string, TaskRecord>, after: map<string, TaskRecord>)
    requires Tracked(before, base, taskId, start, written, now)
    requires after == before[taskId := Write(Lookup(before, taskId), u, now)]
    ensures Tracked(after, base, taskId, start, written + [u], now)
  {
    assert (written + [u])[..|written|] == written;
    assert Lookup(before, taskId) == WriteAll(start, written, now);
    assert after == base[taskId := WriteAll(start, written + [u], now).value];
  }
}
