/** The two note generators (main.py `generate_notes_with_gemini`, lines
    421-465, and `generate_notes_with_qwen3`, lines 468-506). The network
    clients are outside the model: what each service answers to its n-th
    request is an input, and every request and every wait is recorded in a
    call log instead of being performed. */
module Providers {
  import opened Results
  import opened Strings
  import Prompts

  const Retries: nat := 3
  const BaseDelay: nat := 2

  /** `2 ** k`. */
  function Pow2(k: nat): (r: nat)
    ensures r >= 1
  {
    if k == 0 then 1 else 2 * Pow2(k - 1)
  }

  /** What one Gemini request gave: the response text (empty when the
      response carries none) or the text of the exception it raised. */
  datatype GeminiOutcome = GeminiText(text: string) | GeminiError(message: string)

  /** What one chat-completion request to Qwen gave: the content of the first
      choice (empty when there is no choice or no content) or the text of the
      exception it raised. */
  datatype QwenOutcome = QwenContent(content: string) | QwenError(message: string)

  /** The answers of the two services to their successive requests, and the
      Hugging Face token (empty when it is not configured). */
  datatype Services = Services(gemini: nat -> GeminiOutcome, hfToken: string, qwen: nat -> QwenOutcome)

  /** The inputs both generators build the prompt from. */
  datatype Job = Job(template: string, transcript: string, language: string, modifier: string)

  function Prompt(job: Job): string
  {
    Prompts.ComposePrompt(job.template, job.language, job.transcript, job.modifier)
  }

  /** What a generator did: a Gemini request (numbered by attempt), a wait of
      some seconds, or a Qwen request. */
  datatype Call = GeminiRequest(attempt: nat, prompt: string) | Wait(seconds: nat) | QwenRequest(prompt: string)

  /** The notes a generator returns (`None` for Python's `None`) and the
      calls it made. */
  datatype Reply = Reply(notes: Option<string>, calls: seq<Call>)

  /** A response text as the generators return it: the text when it is
      truthy, `None` when it is empty. */
  function Truthy(text: string): (r: Option<string>)
    ensures r.Some? <==> text != ""
    ensures r.Some? ==> r.value == text
  {
    if text != "" then Some(text) else None
  }

  /** The error texts after which Gemini is asked again. */
  predicate IsRateLimit(message: string)
  {
    Contains(message, "429") || Contains(message, "RESOURCE_EXHAUSTED")
  }

  /** The number of Qwen requests in a call log. */
  function QwenRequests(calls: seq<Call>): (n: nat)
    ensures n <= |calls|
  {
    if calls == [] then 0
    else QwenRequests(calls[..|calls| - 1]) + (if calls[|calls| - 1].QwenRequest? then 1 else 0)
  }

  lemma QwenRequestsAppend(a: seq<Call>, b: seq<Call>)
    ensures QwenRequests(a + b) == QwenRequests(a) + QwenRequests(b)
    decreases |b|
  {
    if b == [] {
      assert a + b == a;
    } else {
      assert (a + b)[..|a + b| - 1] == a + b[..|b| - 1];
      assert (a + b)[|a + b| - 1] == b[|b| - 1];
      QwenRequestsAppend(a, b[..|b| - 1]);
    }
  }

  // ---------------------------------------------------------------------
  // Qwen

  /** `generate_notes_with_qwen3`, where `used` Qwen requests were made
      before this one: `None` without a token, on an exception or on an
      empty answer; otherwise the answer's content. */
  function GenerateNotesWithQwen(job: Job, s: Services, used: nat): (r: Reply)
    ensures s.hfToken == "" ==> r == Reply(None, [])
    ensures s.hfToken != "" ==> r.calls == [QwenRequest(Prompt(job))]
    ensures r.notes.Some? <==> s.hfToken != "" && s.qwen(used).QwenContent? && s.qwen(used).content != ""
    ensures r.notes.Some? ==> r.notes.value == s.qwen(used).content
  {
    if s.hfToken == "" then Reply(None, [])
    else
      var request := QwenRequest(Prompt(job));
      match s.qwen(used)
      case QwenContent(content) => Reply(Truthy(content), [request])
      case QwenError(_) => Reply(None, [request])
  }

  // ---------------------------------------------------------------------
  // Gemini

  /** Which return statement ended the Gemini generator: the one for a
      response, the hand-off to Qwen in the exception handler, or the
      hand-off after the loop. */
  datatype Exit = Answered | HandedOff | LoopExhausted

  datatype GeminiRun = GeminiRun(reply: Reply, exit: Exit)

  /** The Gemini generator with `retries` attempts, from attempt `attempt`
      on: a response ends the call (with `None` when its text is empty); a
      rate-limit error before the last attempt waits `2 * 2 ** attempt`
      seconds and tries again; any other error hands the job to Qwen, and so
      does running out of attempts. */
  function GeminiFrom(job: Job, s: Services, retries: nat, attempt: nat): (g: GeminiRun)
    decreases retries - attempt
  {
    if attempt >= retries then
      GeminiRun(GenerateNotesWithQwen(job, s, 0), LoopExhausted)
    else
      var request := GeminiRequest(attempt, Prompt(job));
      match s.gemini(attempt)
      case GeminiText(text) => GeminiRun(Reply(Truthy(text), [request]), Answered)
      case GeminiError(message) =>
        if IsRateLimit(message) && attempt + 1 < retries then
          var rest := GeminiFrom(job, s, retries, attempt + 1);
          GeminiRun(Reply(rest.reply.notes, [request, Wait(BaseDelay * Pow2(attempt))] + rest.reply.calls), rest.exit)
        else
          var q := GenerateNotesWithQwen(job, s, 0);
          GeminiRun(Reply(q.notes, [request] + q.calls), HandedOff)
  }

  /** `generate_notes_with_gemini` as the server runs it, with three
      attempts. */
  function GenerateNotesWithGeminiSpec(job: Job, s: Services): Reply
  {
    GeminiFrom(job, s, Retries, 0).reply
  }

  /** A reply with more calls made before it. */
  function After(before: seq<Call>, r: Reply): Reply
  {
    Reply(r.notes, before + r.calls)
  }

  /** Calls made before calls made before a reply. */
  lemma AfterAfter(a: seq<Call>, b: seq<Call>, r: Reply)
    ensures After(a, After(b, r)) == After(a + b, r)
  {
    assert a + (b + r.calls) == (a + b) + r.calls;
  }

  /** One attempt of the Gemini generator, unfolded. */
  lemma GeminiFromStep(job: Job, s: Services, retries: nat, attempt: nat)
    requires attempt < retries
    ensures var rest := GeminiFrom(job, s, retries, attempt).reply;
            var request := GeminiRequest(attempt, Prompt(job));
            s.gemini(attempt).GeminiText? ==> rest == Reply(Truthy(s.gemini(attempt).text), [request])
    ensures var rest := GeminiFrom(job, s, retries, attempt).reply;
            var request := GeminiRequest(attempt, Prompt(job));
            s.gemini(attempt).GeminiError? && IsRateLimit(s.gemini(attempt).message) && attempt + 1 < retries ==>
              rest == After([request, Wait(BaseDelay * Pow2(attempt))], GeminiFrom(job, s, retries, attempt + 1).reply)
    ensures var rest := GeminiFrom(job, s, retries, attempt).reply;
            var request := GeminiRequest(attempt, Prompt(job));
            s.gemini(attempt).GeminiError? && !(IsRateLimit(s.gemini(attempt).message) && attempt + 1 < retries) ==>
              rest == After([request], GenerateNotesWithQwen(job, s, 0))
  {
  }

  /** `generate_notes_with_gemini`: the retry loop. */
  method GenerateNotesWithGemini(job: Job, s: Services) returns (r: Reply)
    ensures r == GenerateNotesWithGeminiSpec(job, s)
  {
    var prompt := Prompt(job);
    var calls: seq<Call> := [];
    for attempt := 0 to Retries
      invariant GenerateNotesWithGeminiSpec(job, s) == After(calls, GeminiFrom(job, s, Retries, attempt).reply)
    {
      GeminiFromStep(job, s, Retries, attempt);
      ghost var before := calls;
      var request := GeminiRequest(attempt, prompt);
      calls := calls + [request];
      var outcome := s.gemini(attempt);
      if outcome.GeminiText? {
        AfterAfter(before, [request], Reply(Truthy(outcome.text), []));
        if outcome.text != "" {
          return Reply(Some(outcome.text), calls);
        }
        return Reply(None, calls);
      }
      if IsRateLimit(outcome.message) {
        if attempt < Retries - 1 {
          var waitTime := BaseDelay * Pow2(attempt);
          AfterAfter(before, [request, Wait(waitTime)], GeminiFrom(job, s, Retries, attempt + 1).reply);
          calls := calls + [Wait(waitTime)];
          assert calls == before + [request, Wait(waitTime)];
          continue;
        }
      }
      var q := GenerateNotesWithQwen(job, s, 0);
      AfterAfter(before, [request], q);
      return Reply(q.notes, calls + q.calls);
    }
    var q := GenerateNotesWithQwen(job, s, 0);
    return Reply(q.notes, calls + q.calls);
  }

  // ---------------------------------------------------------------------
  // Properties of the Gemini generator

  /** The loop is retried after attempt `k` exactly when that attempt raised
      a rate-limit error and was not the last one. */
  predicate Retried(s: Services, retries: nat, k: nat)
  {
    s.gemini(k).GeminiError? && IsRateLimit(s.gemini(k).message) && k + 1 < retries
  }

  /** The number of attempts made from attempt `attempt` on. */
  function AttemptsFrom(s: Services, retries: nat, attempt: nat): nat
    decreases retries - attempt
  {
    if attempt >= retries then 0
    else if Retried(s, retries, attempt) then 1 + AttemptsFrom(s, retries, attempt + 1)
    else 1
  }

  /** `n` attempts from `from` on, with the wait between each two. */
  function Schedule(prompt: string, from: nat, n: nat): seq<Call>
    decreases n
  {
    if n == 0 then []
    else if n == 1 then [GeminiRequest(from, prompt)]
    else [GeminiRequest(from, prompt), Wait(BaseDelay * Pow2(from))] + Schedule(prompt, from + 1, n - 1)
  }

  /** The shape of every run of the Gemini generator: a number of attempts
      within the budget, each but the last ended by a rate-limit error, with
      the waits between them; then either the last attempt's response, or
      the hand-off to Qwen. */
  lemma {:induction false} GeminiShape(job: Job, s: Services, retries: nat, attempt: nat)
    requires attempt <= retries
    ensures attempt + AttemptsFrom(s, retries, attempt) <= retries
    ensures attempt < retries ==> AttemptsFrom(s, retries, attempt) >= 1
    ensures forall k :: attempt <= k < attempt + AttemptsFrom(s, retries, attempt) - 1 ==> Retried(s, retries, k)
    ensures var g := GeminiFrom(job, s, retries, attempt);
            var n := AttemptsFrom(s, retries, attempt);
            g.exit == Answered <==> n >= 1 && s.gemini(attempt + n - 1).GeminiText?
    ensures var g := GeminiFrom(job, s, retries, attempt);
            var n := AttemptsFrom(s, retries, attempt);
            g.exit == Answered ==> g.reply == Reply(Truthy(s.gemini(attempt + n - 1).text), Schedule(Prompt(job), attempt, n))
    ensures var g := GeminiFrom(job, s, retries, attempt);
            var n := AttemptsFrom(s, retries, attempt);
            g.exit != Answered ==> g.reply == After(Schedule(Prompt(job), attempt, n), GenerateNotesWithQwen(job, s, 0))
    decreases retries - attempt
  {
    if attempt < retries && Retried(s, retries, attempt) {
      GeminiShape(job, s, retries, attempt + 1);
      var n' := AttemptsFrom(s, retries, attempt + 1);
      assert n' >= 1;
      assert AttemptsFrom(s, retries, attempt) == n' + 1;
      forall k | attempt <= k < attempt + n' ensures Retried(s, retries, k) {
        if k > attempt {
          assert attempt + 1 <= k < attempt + 1 + n' - 1;
        }
      }
      var request := GeminiRequest(attempt, Prompt(job));
      var w := Wait(BaseDelay * Pow2(attempt));
      assert Schedule(Prompt(job), attempt, n' + 1) == [request, w] + Schedule(Prompt(job), attempt + 1, n');
    }
  }

  /** The server's generator makes between one and three attempts and waits
      only between two of them. */
  lemma GeminiAttemptsBounded(job: Job, s: Services)
    ensures 1 <= AttemptsFrom(s, Retries, 0) <= Retries
    ensures var r := GenerateNotesWithGeminiSpec(job, s);
            r.calls[..2 * AttemptsFrom(s, Retries, 0) - 1] == Schedule(Prompt(job), 0, AttemptsFrom(s, Retries, 0))
  {
    GeminiShape(job, s, Retries, 0);
  }

  /** The Gemini generator returns `None` or a non-empty text: the empty
      response of any attempt, and an empty Qwen reply, both become `None`. */
  lemma GeminiNotesTruthy(job: Job, s: Services)
    ensures var r := GenerateNotesWithGeminiSpec(job, s);
            r.notes.Some? ==> r.notes.value != ""
  {
    GeminiShape(job, s, Retries, 0);
  }

  /** Three rate-limit errors in a row: three attempts with waits of 2 and
      then 4 seconds, then the hand-off to Qwen. */
  lemma GeminiRateLimitedThrice(job: Job, s: Services, m0: string, m1: string, m2: string)
    requires s.gemini(0) == GeminiError(m0) && IsRateLimit(m0)
    requires s.gemini(1) == GeminiError(m1) && IsRateLimit(m1)
    requires s.gemini(2) == GeminiError(m2) && IsRateLimit(m2)
    ensures var p := Prompt(job);
            GenerateNotesWithGeminiSpec(job, s)
            == After([GeminiRequest(0, p), Wait(2), GeminiRequest(1, p), Wait(4), GeminiRequest(2, p)], GenerateNotesWithQwen(job, s, 0))
  {
    var p := Prompt(job);
    assert Pow2(1) == 2;
    assert GeminiFrom(job, s, Retries, 2).reply == After([GeminiRequest(2, p)], GenerateNotesWithQwen(job, s, 0));
  }

  /** An error that is not a rate limit ends the attempts at once and hands
      the job to Qwen. */
  lemma GeminiHardErrorHandsOff(job: Job, s: Services, k: nat)
    requires k < Retries && s.gemini(k).GeminiError? && !IsRateLimit(s.gemini(k).message)
    ensures GeminiFrom(job, s, Retries, k)
         == GeminiRun(After([GeminiRequest(k, Prompt(job))], GenerateNotesWithQwen(job, s, 0)), HandedOff)
  {
  }

  /** An empty response ends the call with `None`, without asking Qwen. */
  lemma GeminiEmptyResponse(job: Job, s: Services, k: nat)
    requires k < Retries && s.gemini(k) == GeminiText("")
    ensures GeminiFrom(job, s, Retries, k) == GeminiRun(Reply(None, [GeminiRequest(k, Prompt(job))]), Answered)
  {
  }

  /** The hand-off after the loop is reached only when there are no attempts
      at all: with at least one attempt every run ends inside the loop. */
  lemma {:induction false} LoopExitUnreachable(job: Job, s: Services, retries: nat, attempt: nat)
    requires attempt < retries
    ensures GeminiFrom(job, s, retries, attempt).exit != LoopExhausted
    decreases retries - attempt
  {
    if Retried(s, retries, attempt) {
      LoopExitUnreachable(job, s, retries, attempt + 1);
    }
  }

  /** With no attempts the generator goes straight to Qwen, through the
      hand-off after the loop. */
  lemma NoAttemptsReachesLoopExit(job: Job, s: Services)
    ensures GeminiFrom(job, s, 0, 0) == GeminiRun(GenerateNotesWithQwen(job, s, 0), LoopExhausted)
  {
  }

  /** A Gemini run asks Qwen at most once, and only after a Gemini
      attempt. */
  lemma GeminiAsksQwenAtMostOnce(job: Job, s: Services)
    ensures QwenRequests(GenerateNotesWithGeminiSpec(job, s).calls) <= 1
    ensures GenerateNotesWithGeminiSpec(job, s).calls[0].GeminiRequest?
  {
    GeminiShape(job, s, Retries, 0);
    var n := AttemptsFrom(s, Retries, 0);
    ScheduleHasNoQwen(Prompt(job), 0, n);
    QwenRequestsAppend(Schedule(Prompt(job), 0, n), GenerateNotesWithQwen(job, s, 0).calls);
  }

  lemma {:induction false} ScheduleHasNoQwen(prompt: string, from: nat, n: nat)
    ensures QwenRequests(Schedule(prompt, from, n)) == 0
    ensures |Schedule(prompt, from, n)| == if n == 0 then 0 else 2 * n - 1
    ensures n >= 1 ==> Schedule(prompt, from, n)[0] == GeminiRequest(from, prompt)
    decreases n
  {
    if n > 1 {
      ScheduleHasNoQwen(prompt, from + 1, n - 1);
      QwenRequestsAppend([GeminiRequest(from, prompt), Wait(BaseDelay * Pow2(from))], Schedule(prompt, from + 1, n - 1));
      assert QwenRequests([GeminiRequest(from, prompt), Wait(BaseDelay * Pow2(from))]) == 0 by {
        assert [GeminiRequest(from, prompt), Wait(BaseDelay * Pow2(from))][..1] == [GeminiRequest(from, prompt)];
      }
    } else if n == 1 {
      assert [GeminiRequest(from, prompt)][..0] == [];
    }
  }
}
