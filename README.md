# YouTube Transcripter: the note-generation engine, in Dafny

This project models the core of YouTube Transcripter, a web application that
turns a YouTube video into study notes. It covers the server in `main.py` and
three browser scripts:

- **Tasks.** `generate_notes` queues a task and `process_note_generation`
  runs it in the background. The run extracts the video id, fetches and
  gates the transcript, asks Gemini or Qwen for notes, saves a history entry,
  and writes every step into the task's document with `update_task_status`.
  The dashboard polls that document through `get_task_status`.
- **Generators.** `generate_notes_with_gemini` retries on rate limits and
  hands off to Qwen. `generate_notes_with_qwen3` returns `None` without a
  token or on any error.
- **Pure helpers.** `extract_video_id`, the transcript gate and clamp, the
  audience text of each role, prompt composition, the note title, the salted
  password hash and the profile merge of `update_profile`.
- **Dashboard (`static/js/app.js`).** `extractVideoId`,
  `getSelectedLanguage`, the escape and table stages of `markdownToHtml`, the
  form's checks and the polling loop with its `isFinished` flag.
- **History page (`static/js/history.js`).** `escapeHtml`, `parseMarkdown`
  with the `parseTables` callback, the `historyData` list with its delete
  filter, and the modal's current note.
- **Profile page (`static/js/profile.js`).** `calculateAge` and the body the
  profile form sends.

Modules, one file each:

- `Results`: Option and Result.
- `Strings`: literal search, split and join, replacement, trimming, decimal
  text.
- `VideoIds`, `Transcripts`, `Prompts`: the pure helpers of `main.py`.
- `Providers`: the two generators.
- `Tasks`: the task store as a class over a map, and the runner as a method
  proved against the function `RunSpec`.
- `TaskRuns`: properties of whole runs.
- `Accounts`: passwords and the profile merge.
- `Html`: escaping.
- `Dashboard`, `History`, `Profile`: the three scripts.

Where the source updates state in place, the model does too:

- the task documents and saved notes (`Tasks.TaskStore`);
- the user documents (`Accounts.UserStore`);
- the history page's variables (`History.HistoryPage`);
- the age field (`Profile.ProfilePage`);
- the Gemini retry loop, the polling loop and the table builders, as
  methods with loop invariants.

Each method is proved equal to a specification function, and the
properties are proved about those functions.

The services the server calls are inputs. These include:

- the transcript services' answer for each video;
- each Gemini and Qwen answer, by request number;
- the Hugging Face token;
- the prompt template;
- the note id drawn by `secrets.token_hex`;
- the clock reading.

Every Gemini request, wait and Qwen request is recorded in a call log instead
of being performed.

## Model

| member | source | states |
|---|---|---|
| VideoIds.SearchFrom | main.py:313 | `re.search` for one pattern: the leftmost index from which the prefix and an 11-character id match, and no match before it; `None` exactly when nothing matches from there on |
| VideoIds.FirstMatch | main.py:312-319 | patterns are tried in list order: the hit is the leftmost match of the first pattern that matches at all, every earlier pattern matches nowhere, and there is no hit exactly when no pattern matches |
| VideoIds.Capture | main.py:315 | the captured group is 11 characters of `[A-Za-z0-9_-]` |
| VideoIds.ExtractVideoId | main.py:303-319 | the result is a valid id; the 400 "Invalid YouTube URL" error is returned exactly when none of the five patterns matches |
| VideoIds.FirstMatchUnique | main.py:312-315 | a first match is determined by its description (pattern k matches at i, no earlier pattern anywhere, pattern k nowhere before i) |
| VideoIds.ExtractVideoIdFirstPattern | main.py:303-319 | the extracted id is exactly the capture after the first of the five prefixes, in list order, at its leftmost match |
| VideoIds.WatchUrlRoundTrip | main.py:333 | extracting from the watch URL built for an id gives the id back |
| Transcripts.GetTranscript | main.py:321-357 | the fragments joined by single spaces; on failure the fixed placeholder when subtitles exist, else 404 exactly when the error text holds "Could not retrieve a transcript", else 500 with "Failed to fetch transcript: " and the error text |
| Transcripts.CaptionsRoundTrip | main.py:326 | splitting the joined transcript at spaces gives the fragments back when none holds a space |
| Transcripts.GateTranscript | main.py:214-218 | refused with "Transcript is too short" exactly when shorter than 50; longer than 30000 becomes the first 30000 characters and "... [truncated]"; otherwise unchanged |
| Transcripts.GateBounds | main.py:214-218 | a gated transcript is between 50 and 30000 plus the marker long and starts with the original text |
| Transcripts.GateIdempotent | main.py:214-218 | gating a gated transcript again changes nothing |
| Transcripts.PlaceholderPassesGate | main.py:348 | the fallback placeholder is 55 characters long and passes the `< 50` gate unchanged |
| Prompts.RoleModifier | main.py:223-231 | the fixed text of child, student, teacher or industry; the student text for every other role |
| Prompts.ChildOpening | main.py:225 | the child text opens with a blank line and the child emoji |
| Prompts.StudentOpening | main.py:226 | the student text opens with a blank line and the graduation-cap emoji |
| Prompts.TeacherOpening | main.py:227 | the teacher text opens with a blank line and the teacher emoji |
| Prompts.IndustryOpening | main.py:228 | the industry text opens with a blank line and the briefcase emoji |
| Prompts.RoleMarkOf | main.py:223-231 | every role's text, the default included, opens with a blank line and its audience's emoji, so it is never empty |
| Prompts.RoleModifierShape | main.py:224-229 | two different known roles never get the same text |
| Prompts.PlaceholderBorderFree | main.py:430 | no occurrence of `TRANSCRIPT_PLACEHOLDER` can start before the placeholder and overlap it |
| Prompts.TranscriptInsertedVerbatim | main.py:430-432 | with one placeholder left after the language substitution, the prompt is the text around it with the transcript in its place, then the modifier, whatever the transcript contains |
| Prompts.ModifierAlwaysAppended | main.py:431-432 | the role text is always appended, since it is never empty |
| Prompts.NoteTitle | main.py:256 | at most 80 characters; a piece of the first line cut to 80; no white space at either end; "Untitled Notes" only for empty notes |
| Prompts.TitleIsOneLine | main.py:256 | a title never holds a line break |
| Prompts.TitleOfHeading | main.py:256 | notes opening with `# text` get the heading's text as their title |
| Prompts.TitleMayBeEmpty | main.py:256 | a first line of only `#` gives the empty title, not the fallback |
| Providers.Truthy | main.py:448-450 | a response text is returned when non-empty and becomes `None` when empty |
| Providers.GenerateNotesWithQwen | main.py:468-506 | without a token, `None` and no request; otherwise one request with the composed prompt, and notes exactly when the answer is non-empty content |
| Providers.GeminiFromStep | main.py:426-463 | one attempt: a response ends the run; a rate limit before the last attempt records the wait `2 * 2 ** attempt` and continues; any other error hands off to Qwen |
| Providers.GenerateNotesWithGemini | main.py:421-465 | the retry loop returns exactly the notes and call log of the recursive specification `GenerateNotesWithGeminiSpec` |
| Providers.GeminiShape | main.py:426-465 | every run is a number of attempts within the budget, each but the last a rate limit, with the waits between them, then the last response or the Qwen hand-off |
| Providers.GeminiAttemptsBounded | main.py:423-459 | between one and three attempts, and the log opens with the attempts and their waits |
| Providers.GeminiNotesTruthy | main.py:448-450 | the Gemini generator never returns empty notes |
| Providers.GeminiRateLimitedThrice | main.py:453-459 | three rate limits give three attempts with waits of 2 s and then 4 s, then the Qwen hand-off |
| Providers.GeminiHardErrorHandsOff | main.py:460-463 | an error that is not a rate limit stops the attempts at once and hands off to Qwen |
| Providers.GeminiEmptyResponse | main.py:448-450 | an empty response returns `None` without asking Qwen |
| Providers.LoopExitUnreachable | main.py:465 | with at least one attempt the return after the loop is never reached |
| Providers.NoAttemptsReachesLoopExit | main.py:465 | only a budget of zero attempts reaches it |
| Providers.GeminiAsksQwenAtMostOnce | main.py:421-465 | a Gemini run makes at most one Qwen request, and its first call is a Gemini request |
| Providers.ScheduleHasNoQwen | main.py:426-459 | n attempts make 2n-1 calls, none of them a Qwen request |
| Tasks.Write | main.py:192-201 | a write sets the status and time; merges a non-empty `result` key by key over the stored one; sets a non-empty `error`; keeps everything else |
| Tasks.WriteAll | main.py:192-201 | after a sequence of writes the document has the last write's status |
| Tasks.Generate | main.py:233-249 | the selected generator, then Qwen once more when Gemini produced nothing; the notes are never empty |
| Tasks.RunCompleted | main.py:254-278 | a run whose generator produced notes writes the saving step and then `completed` with notes, video id, note id and title, and saves the entry built from them |
| Tasks.RunSpec | main.py:203-282 | every run writes at least two updates |
| Tasks.RunSpecReachesGeneration | main.py:206-218 | a run whose URL, transcript and gate succeed goes on to generation after the two step writes |
| Tasks.Tracking | main.py:192-201 | one more write on the task extends the tracked writes; other documents are untouched |
| Tasks.TaskStore.UpdateTaskStatus | main.py:192-201 | the task's document becomes `Write` of the old one; nothing else changes |
| Tasks.TaskStore.SaveHistoryItem | main.py:174-184 | the entry replaces any entry with its id under the user; tasks are untouched |
| Tasks.TaskStore.GetTaskStatus | main.py:682-692 | the stored document, or 404 "Task not found" |
| Tasks.TaskStore.GenerateNotes | main.py:651-680 | 400 "URL required" for an empty URL with no write; otherwise the `queued` write and the role from the user's document, "student" by default |
| Tasks.TaskStore.ExtractAndFetch | main.py:206-218 | steps 1 and 2 write their step labels, stop with a `failed` write carrying the error text, and otherwise yield `Prepare`'s id and gated transcript |
| Tasks.TaskStore.SelectAndGenerate | main.py:233-249 | the generator step writes and the notes and calls of `Generate` |
| Tasks.TaskStore.GenerateAndSave | main.py:220-282 | steps 3 and 4 leave the writes, the saved entry and the calls of `RunFromTranscript` |
| Tasks.TaskStore.ProcessNoteGeneration | main.py:203-282 | the task's document is the merge of all the writes of `RunSpec` for the role's text; the history gains exactly its saved entry; the calls are its calls |
| TaskRuns.GenerateSteps | main.py:236-249 | the step labels are `generating_with_qwen`, `generating_with_gemini`, or those two with `fallback_to_qwen`; the Qwen model makes at most one request, all to Qwen; Gemini is asked first otherwise |
| TaskRuns.QwenAskedTwice | main.py:243-249 | a hard Gemini error, then an empty Qwen reply, then Qwen content: Qwen is asked twice in one task and the second answer becomes the notes |
| TaskRuns.EarlyFailureSteps | main.py:206-218 | a run that fails before generation writes one or two step labels and then the failure |
| TaskRuns.GeneratorLabels | main.py:220-249 | the labels of a run that reaches the generator follow one of the three step sequences, the Qwen one for the Qwen model |
| TaskRuns.GeneratorFailedSteps | main.py:251-252 | a generator without notes ends the run with the failure after the step labels |
| TaskRuns.GeneratorCompletedSteps | main.py:254-278 | a generator with notes ends the run with a full step sequence and the completion |
| TaskRuns.RunSteps | main.py:203-282 | every run ends in `completed` or `failed` after a prefix of one step sequence (all of it when completed); a failure carries a non-empty error and no result; it completes exactly when it saves a note |
| TaskRuns.RunFromTranscriptSteps | main.py:220-282 | the same for a run that reaches the generator |
| TaskRuns.StepWrite | main.py:192-201 | a step write merges the label into `result` and keeps `error` |
| TaskRuns.WriteSteps | main.py:192-201 | after step writes the result holds the last label over the previous result, and the error is kept |
| TaskRuns.WrittenDocument | main.py:192-201 | a queued task's document after a run: the last status, the last step label with the last result merged over it, and the error text if any |
| TaskRuns.WellSteppedLeavesBehind | main.py:270-282 | a well-stepped run leaves a terminal document: a failure keeps the last step label and its error; a completion holds the four payload keys over `saving_history` and no error |
| TaskRuns.FinalDocument | main.py:203-282 | every run leaves its queued task's document in that terminal form |
| TaskRuns.RunSaves | main.py:254-278 | a completed run saves one entry: non-empty notes, their title, the URL's video id, the length of the transcript as gated in steps 1-2 (between 50 and 30000 plus the marker), the drawn note id and the clock reading, matching the payload; a run that saves nothing failed |
| TaskRuns.InvalidUrlRun | main.py:207-208 | an unmatched URL fails after the first step with "400: Invalid YouTube URL..." and calls no generator |
| TaskRuns.NoCaptionsRun | main.py:211-212 | a video without captions or subtitles fails after the second step with "404: No transcript available (Captions disabled)." |
| TaskRuns.TooShortRun | main.py:214-215 | a transcript under 50 characters fails after the second step with "Transcript is too short" |
| TaskRuns.GenerationFailedRun | main.py:251-252 | no notes: the run ends with "AI generation failed with selected model" and saves nothing |
| TaskRuns.QwenRunNeverCallsGemini | main.py:236-238 | the Qwen model never calls Gemini and makes at most one request |
| Accounts.HashPassword | main.py:99-103 | the stored form is the salt, a colon, then the digest |
| Accounts.VerifyPassword | main.py:105-108 | as written: raises (unpacking error) exactly when the form does not split into two parts; otherwise compares the salted digest |
| Accounts.VerifyHashed | main.py:99-108 | checking against a stored form answers exactly whether the salted digests agree |
| Accounts.VerifyOwnHash | main.py:99-108 | every password verifies against its own stored form |
| Accounts.EmptyStoredFormRaises | main.py:107 | the empty form of a Google account makes the check raise |
| Accounts.CheckPassword | main.py:105-108 | corrected check: agrees with `verify_password` wherever that answers, and refuses a form without a colon |
| Accounts.CheckPasswordRoundTrip | main.py:99-108 | with the corrected check the round trip holds and the empty form refuses every password |
| Accounts.MergeProfileFields | main.py:747-751 | a field with a non-empty value takes it; every other key keeps its value or stays absent |
| Accounts.MergeProfileIdempotent | main.py:747-751 | merging the same request twice changes nothing more |
| Accounts.EmptyRequestKeepsProfile | main.py:747-751 | a request with every field empty changes nothing |
| Accounts.DefaultRoleOverwrites | main.py:140-145 | a request that leaves the role at its default resets it to "student" |
| Accounts.UserStore.UpdateProfile | main.py:735-754 | 404 "User not found" for a missing or empty document; otherwise the merged document is stored and the reply echoes the role |
| Html.EscapeMarkupChar | static/js/app.js:354-356 | one character through the chain gives its entity: `&` is replaced first, so later entities are not escaped twice |
| Html.EscapeMarkupConcat | static/js/app.js:354-356 | the chain distributes over concatenation |
| Html.EscapeMarkupEach | static/js/app.js:354-356 | the chain equals escaping each character on its own |
| Html.EscapeHtmlChar | static/js/history.js:164-166 | one character through `escapeHtml` gives its entity, quotes included |
| Html.EscapeHtmlConcat | static/js/history.js:164-166 | `escapeHtml` distributes over concatenation |
| Html.EscapeHtmlEach | static/js/history.js:164-166 | `escapeHtml` equals escaping each character on its own, every other character unchanged |
| Html.EscapeEachNoRaw | static/js/history.js:164-166 | no raw `<` or `>` is left, and no `"` when quotes are escaped |
| Html.UnescapeEscape | static/js/history.js:164-166 | reading the entities back gives the original text |
| Dashboard.ExtractVideoIdJs | static/js/app.js:113-129 | `null` for an empty link; otherwise a valid id, and `null` exactly when none of the five patterns matches |
| Dashboard.ExtractorsAgree | static/js/app.js:116-128 | browser and server extract the same id unless the link matches both the embed and the short-link pattern |
| Dashboard.DotsOfTwoLinks | static/js/app.js:116-128 | where `.` and `?` can occur in a link made of a short link and an embed link |
| Dashboard.ExtractorsDisagree | static/js/app.js:116-128 | a short link followed by an embed link: the server takes the first id, the browser the second |
| Dashboard.EmbedUrlRoundTrip | static/js/app.js:102 | the preview's embed URL for an id gives the id back |
| Dashboard.SelectedLanguage | static/js/app.js:150-157 | a non-custom selection is returned unchanged; a custom one is never empty |
| Dashboard.CustomLanguageTrimmed | static/js/app.js:152-155 | a custom language is "English" exactly when the text is blank (or trims to "English"); otherwise it is a trimmed piece of the typed text |
| Dashboard.MarkdownToHtml | static/js/app.js:348-356 | '' for empty input; otherwise the later stages receive every character escaped on its own |
| Dashboard.EscapedForLaterStages | static/js/app.js:354-356 | what the later stages receive has no raw angle brackets and reads back as the original |
| Dashboard.NonBlank | static/js/app.js:379 | the kept pieces are all non-blank |
| Dashboard.NonBlankKeeps | static/js/app.js:383 | every non-blank piece is kept |
| Dashboard.RemoveTableMarksEmpty | static/js/app.js:382 | the separator test holds exactly for rows of bars, dashes, colons and white space |
| Dashboard.TableHtml | static/js/app.js:378-389 | the table callback emits, in order, each non-separator row's trimmed cells, as `th` in row 0 and `td` after |
| Dashboard.RowHasCells | static/js/app.js:382-385 | a row that is not a separator has at least one cell, and every cell is non-blank |
| Dashboard.Submit | static/js/app.js:169-198 | a toast exactly for an empty link, another exactly for a link without a video id; otherwise the request with the trimmed link, the selected language and the model selector's value unchanged |
| Dashboard.SubmittedLinkAccepted | static/js/app.js:176-180 | a link the browser lets through is accepted by the server too, unless it holds both an embed and a short link |
| Dashboard.Effects | static/js/app.js:234-256 | at most one effect; it is terminal (notes rendered or failure toast) exactly when the answer is `failed`, or `completed` with a `result` map; a `completed` answer without one throws after setting the flag, and the `catch` leaves nothing shown |
| Dashboard.PollSpec | static/js/app.js:217-254 | polling stops right after the first finishing answer; earlier answers do not finish; without one every answer is fetched |
| Dashboard.PollEffectsTerminal | static/js/app.js:217-256 | notes are rendered or the failure reported at most once, as the last effect, and exactly when the polling finished on an answer whose handler does not throw |
| Dashboard.PollFrom | static/js/app.js:220-254 | polling from an answer handles it and, unless it finishes, the rest |
| Dashboard.Poll | static/js/app.js:217-259 | the interval callback with its `isFinished` flag gives exactly `PollSpec` |
| Dashboard.ReplaceFirstUnderscore | static/js/app.js:252 | only the first underscore of a label becomes a space |
| Dashboard.StepTextFirstUnderscore | static/js/app.js:252 | the step line shows the text before the first underscore, a space and the rest unchanged |
| History.ParseMarkdown | static/js/history.js:31-59 | '' for empty input; otherwise the escaped text goes through the line stages and is wrapped in `<p>...</p>` before the table stage |
| History.TrimmedCells | static/js/history.js:64 | the cells are trimmed and non-empty |
| History.CellOf | static/js/history.js:64 | one piece gives at most its trimmed text, never blank |
| History.WithBars | static/js/history.js:65 | the body rows kept all hold a bar |
| History.CellTagsSnoc | static/js/history.js:68 | one more cell appends one more tag |
| History.AppendCells | static/js/history.js:68 | the `forEach` over cells appends exactly their tags, in order |
| History.AppendRow | static/js/history.js:72-77 | one body row appends its `td` cells, or nothing when it has no cell or its first cell is a rule |
| History.AppendRows | static/js/history.js:71-78 | the body loop appends every row's output, in order |
| History.BuildTable | static/js/history.js:63-82 | the callback builds the header's `th` cells and the body rows, as `TableSpec` |
| History.CellsAreClean | static/js/history.js:64-72 | every header cell and every body row's cell is non-empty with no white space at either end, and every body row holds a bar |
| History.SplitChars | static/js/history.js:72 | the pieces of a split hold only the text's other characters |
| History.TrimmedCellsChars | static/js/history.js:72 | trimmed cells hold only characters of the pieces |
| History.RuleRowDropped | static/js/history.js:72-73 | a body row of bars, dashes and colons emits nothing |
| History.Without | static/js/history.js:243 | the kept entries come from the list and none has the id |
| History.Kept | static/js/history.js:243 | one entry is kept exactly when its id differs |
| History.WithoutConcat | static/js/history.js:243 | the filter keeps the order: it filters the parts of a list separately |
| History.WithoutRemovesExactly | static/js/history.js:243 | every other entry stays, and the list shrinks by the number of entries with the id |
| History.WithoutAbsent | static/js/history.js:243 | a list without the id is unchanged |
| History.Find | static/js/history.js:180 | the found note is in the list with the id; nothing is found exactly when no entry has it |
| History.FindWithout | static/js/history.js:180 | after the delete filter nothing with the id is found |
| History.HistoryPage.LoadHistory | static/js/history.js:89-114 | a failed request shows the empty state; otherwise the list is the answer's history (`[]` when absent) and an empty list shows the empty state |
| History.HistoryPage.DeleteNote | static/js/history.js:232-257 | nothing changes unless confirmed and ok; then exactly the entries with the id leave, and an empty list shows the empty state |
| History.HistoryPage.OpenModal | static/js/history.js:205-222 | the current note is the item's id and the modal is open |
| History.HistoryPage.CloseModal | static/js/history.js:224-228 | no note is current and the modal is closed |
| History.HistoryPage.CopyTarget | static/js/history.js:179-181 | copy finds a note with the current id in the list, and nothing when no note is current |
| History.HistoryPage.DeleteCurrent | static/js/history.js:192-197 | with a current note, it is deleted as `deleteNote` does and the modal closes; afterwards copy finds nothing |
| History.OpenThenCopy | static/js/history.js:180 | an opened entry is what copy finds, when no earlier entry shares its id |
| Profile.Age | static/js/profile.js:115-119 | the year difference, or one less exactly while this year's birthday is ahead |
| Profile.AgeIsCompletedYears | static/js/profile.js:115-119 | the age's anniversary has come and the next one has not |
| Profile.CompletedYearsUnique | static/js/profile.js:115-119 | only the age has that property |
| Profile.AgeOnBirthday | static/js/profile.js:115-119 | on the birthday the age is the year difference |
| Profile.AgeMonotone | static/js/profile.js:115-119 | the age never decreases as time goes on |
| Profile.ProfilePage.CalculateAge | static/js/profile.js:111-121 | nothing is written for an empty date text; otherwise the age and " years" |
| Profile.SubmitBody | static/js/profile.js:128-135 | the name trimmed, date and gender as typed, the checked role or "student", no photo |
| Profile.SubmitKeepsPhoto | static/js/profile.js:130-135 | saving the form never touches the stored photo, and without a checked role sets "student" |
| Profile.BlankNameKept | static/js/profile.js:131 | a blank name leaves the stored name as it is |
| Strings.IndexOf | main.py:107 | the first index at which the pattern occurs, `None` exactly when it does not |
| Strings.Split | main.py:107 | at least one piece, and no piece holds the separator |
| Strings.JoinSplit | main.py:326 | joining the pieces of a split with the separator gives the text back |
| Strings.FirstLine | main.py:256 | the text before the first line break, the first piece of `split('\n')` |
| Strings.ReplaceFirst | static/js/app.js:252 | JavaScript's string `replace` changes only the first occurrence, or nothing |
| Strings.ReplaceAllOnce | main.py:432 | replacing a single occurrence puts the replacement in its place and keeps the rest |
| Strings.ReplaceCharRemoves | static/js/history.js:164-166 | after replacing a character by text without it, none is left |
| Strings.Strip | main.py:256 | both ends trimmed: a slice of the text with kept characters at both ends |
| Strings.JsTrimEmpty | static/js/app.js:153-154 | a text trims to empty exactly when it is all white space |
| Strings.NatTextValue | main.py:282 | a number's decimal text reads back as the number |
| Strings.IntText | static/js/profile.js:120 | the text of a negative number starts with a minus sign and no other does |

## Left out

- Authentication, JWT tokens, HTTP routing, CORS, rate limiting, redirect pages, sign-up, login and Google sign-in are outside the model. They are framework and library plumbing; only the password check login uses is modelled.
- Firestore is an in-memory map. A `set(..., merge=True)` on a task document is modelled as a merge of `result` key by key. The `if not db` early returns (no database configured) are not modelled.
- The transcript services, `YouTubeTranscriptApi` and `yt_dlp`, are not modelled. Their answer for a video is an input: the caption fragments, or an error text and whether subtitles were listed.
- The Gemini and Qwen clients, `run_in_executor` and `asyncio.sleep` are not modelled. Their answers are inputs, and each wait is recorded in the call log instead of being slept.
- `BackgroundTasks` dispatch and concurrency between tasks are not modelled. A run is one sequential method.
- The prompt template `GEMINI_PROMPT` is a parameter, not the literal text. Only its two tokens matter to the composition, and the long literal would only slow the proofs.
- The run lemmas in `TaskRuns` take the audience text as a parameter, for any text. `ProcessNoteGeneration` instantiates it with `Prompts.RoleModifier` of the user's role.
- `ProcessNoteGeneration` computes the role's text just before `GenerateAndSave` writes the step-3 label, instead of just after it. The lookup is pure, so the writes and calls are the same.
- SHA-256, `secrets.token_hex` and `uuid` are not modelled. The digest is a parameter from text to text, the salt and note id are inputs, and so is the task id.
- Clocks are not modelled. All writes of a run carry one `now` reading, and `calculateAge` receives today's date as calendar fields.
- Date-text parsing is not modelled. `new Date(dobStr)` for an invalid text gives `NaN` ages in the browser, and the model receives the fields of a valid date.
- The SMTP inactivity mail and its cron endpoint are outside the model (I/O and time).
- Profile photo upload, profile reading and history reading/deleting on the server are Firestore I/O and are not modelled. The server-side delete is covered only through the page's `deleteNote`.
- Dashboard.MarkdownToHtml: the code-block, header, emphasis, blockquote, list, link and paragraph stages are a parameter `laterStages`. They are regular-expression rewrites; only the escape and table stages are modelled.
- Dashboard.TableHtml: the table callback is modelled on a matched block. Which blocks the multi-line table pattern matches is not modelled.
- History.ParseMarkdown: the header, emphasis, list, rule and line-break stages are a parameter `lineStages`, and the table stage a parameter `tableStage`. `History.BuildTable` models the table callback on a matched header and body.
- The DOM is not modelled: rendering cards, toasts, animations, the clipboard, downloads, thumbnails and the avatar. The page state is the variables the scripts keep.
- Dashboard.Poll: the two-second interval and its timing are not modelled; the answers arrive as a sequence. An answer whose `result` is not a map (a string, say) is not modelled.
- Dashboard.Submit: the request sending, the 401 redirect and the error toast of a refused request are not modelled; the model selector's value is passed through as typed, not checked against the selector's options.
- History.HistoryPage.DeleteCurrent: `deleteNote` is asynchronous and the modal closes before the request returns. The model applies the deletion, then the close, which leaves the same state.
- `login.js`, `background.js` and the helper scripts are outside the model (DOM, graphics, I/O).

## Findings

| source | as written | input that shows it | evidently intended | confidence | as-written member | corrected member |
|---|---|---|---|---|---|---|
| main.py:107 | `salt, hashed = stored_hash.split(":")` raises on a stored form without exactly one colon; Google sign-in (main.py:617) stores `""`, so a password login to such an account ends in an unhandled error (a 500) | stored form `""`, any password | the 401 "Wrong password" answer: a malformed stored form matches no password | medium (not executed) | Accounts.EmptyStoredFormRaises | Accounts.CheckPasswordRoundTrip |
