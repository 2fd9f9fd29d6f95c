/** The dashboard script (static/js/app.js): the video id of the link the
    user typed (`extractVideoId`), the output language (`getSelectedLanguage`),
    the escape and table stages of `markdownToHtml`, and the polling of a
    task until it finishes. The page's elements are parameters: the values
    of the language controls, and the answers the task endpoint gives. */
module Dashboard {
  import opened Results
  import opened Strings
  import opened VideoIds
  import Html

  // ---------------------------------------------------------------------
  // extractVideoId

  /** The browser's pattern list: the embed pattern comes before the short
      link one, the reverse of the server's order. */
  const BrowserPrefixes: seq<string> := [WatchPrefix, EmbedPrefix, ShortLinkPrefix, ShortsPrefix, LegacyPrefix]

  /** `extractVideoId`: `null` for an empty link, otherwise the id captured
      by the first pattern that matches, or `null` when none does. */
  function ExtractVideoIdJs(url: string): (r: Option<string>)
    ensures url == "" ==> r.None?
    ensures r.Some? ==> IsVideoId(r.value)
    ensures url != "" ==> (r.None? <==> forall k :: 0 <= k < |BrowserPrefixes| ==> !Matches(url, BrowserPrefixes[k]))
  {
    if url == "" then None
    else
      match FirstMatch(url, BrowserPrefixes)
      case None => None
      case Some(h) => Some(Capture(url, BrowserPrefixes[h.pattern], h.at))
  }

  /** The server's answer as the browser's: the id, or `null` for the 400. */
  function AsOption(r: Result<string, HttpError>): Option<string>
  {
    if r.Ok? then Some(r.value) else None
  }

  /** The browser and the server extract the same id from every non-empty
      link, unless the link matches both the embed and the short-link
      pattern. */
  lemma ExtractorsAgree(url: string)
    requires url != ""
    requires !(Matches(url, EmbedPrefix) && Matches(url, ShortLinkPrefix))
    ensures ExtractVideoIdJs(url) == AsOption(ExtractVideoId(url))
  {
    match FirstMatch(url, ServerPrefixes)
    case None =>
      forall k | 0 <= k < |BrowserPrefixes| ensures !Matches(url, BrowserPrefixes[k]) {
        var k' := if k == 1 then 2 else if k == 2 then 1 else k;
        assert BrowserPrefixes[k] == ServerPrefixes[k'];
      }
    case Some(h) =>
      var k' := if h.pattern == 1 then 2 else if h.pattern == 2 then 1 else h.pattern;
      assert BrowserPrefixes[k'] == ServerPrefixes[h.pattern];
      forall k | 0 <= k < k' ensures !Matches(url, BrowserPrefixes[k]) {
        if h.pattern == 1 && k == 1 {
          assert Matches(url, ShortLinkPrefix);
        } else {
          var j := if k == 1 then 2 else if k == 2 then 1 else k;
          assert BrowserPrefixes[k] == ServerPrefixes[j] && j < h.pattern;
        }
      }
      FirstMatchUnique(url, BrowserPrefixes, k', h.at);
  }

  /** Where '.' occurs in a link made of a short link with id `a` and an
      embed link with id `b`. */
  lemma DotsOfTwoLinks(a: string, b: string, k: int)
    requires IsVideoId(a) && IsVideoId(b)
    requires 0 <= k < |ShortLinkPrefix + a + " " + EmbedPrefix + b|
    ensures (ShortLinkPrefix + a + " " + EmbedPrefix + b)[k] == '.' ==> k == 5 || k == 28
    ensures (ShortLinkPrefix + a + " " + EmbedPrefix + b)[k] != '?'
  {
    var url := ShortLinkPrefix + a + " " + EmbedPrefix + b;
    LinkChars();
    if k < 9 {
      assert url[k] == ShortLinkPrefix[k];
    } else if k < 20 {
      assert url[k] == a[k - 9] && IsIdChar(a[k - 9]);
    } else if k == 20 {
      assert url[k] == ' ';
    } else if k < 39 {
      assert url[k] == EmbedPrefix[k - 21];
    } else {
      assert url[k] == b[k - 39] && IsIdChar(b[k - 39]);
    }
  }

  /** A link that holds a short link and then an embed link: the server
      takes the first id, the browser the second, so the preview can show
      another video than the one the notes are made from. */
  lemma ExtractorsDisagree(a: string, b: string)
    requires IsVideoId(a) && IsVideoId(b)
    ensures var url := ShortLinkPrefix + a + " " + EmbedPrefix + b;
            ExtractVideoId(url) == Ok(a) && ExtractVideoIdJs(url) == Some(b)
  {
    var url := ShortLinkPrefix + a + " " + EmbedPrefix + b;
    LinkChars();
    forall k | 0 <= k < |url| ensures url[k] != '?' {
      DotsOfTwoLinks(a, b, k);
    }
    AbsentCharNoMatch(url, WatchPrefix, 17);
    assert url == ShortLinkPrefix + a + (" " + EmbedPrefix + b);
    MatchAtStart(ShortLinkPrefix, a, " " + EmbedPrefix + b);
    assert ServerPrefixes[0] == WatchPrefix && ServerPrefixes[1] == ShortLinkPrefix;
    FirstMatchUnique(url, ServerPrefixes, 1, 0);
    MatchAfter(ShortLinkPrefix + a + " ", EmbedPrefix, b);
    forall k | 7 <= k < 28 && k < |url| ensures url[k] != EmbedPrefix[7] {
      DotsOfTwoLinks(a, b, k);
    }
    NoMatchBefore(url, EmbedPrefix, 7, 21);
    assert BrowserPrefixes[0] == WatchPrefix && BrowserPrefixes[1] == EmbedPrefix;
    FirstMatchUnique(url, BrowserPrefixes, 1, 21);
  }

  /** The embed link the preview loads for an id gives that id back. */
  function EmbedUrl(id: string): string
  {
    SiteHead + EmbedPrefix + id
  }

  lemma EmbedUrlRoundTrip(id: string)
    requires IsVideoId(id)
    ensures ExtractVideoIdJs(EmbedUrl(id)) == Some(id)
  {
    var url := EmbedUrl(id);
    LinkChars();
    MatchAfter(SiteHead, EmbedPrefix, id);
    AbsentFromLink(SiteHead, EmbedPrefix, id, '?');
    AbsentCharNoMatch(url, WatchPrefix, 17);
    NoMatchBefore(url, EmbedPrefix, 0, |SiteHead|);
    var start := |SiteHead|;
    FirstMatchUnique(url, BrowserPrefixes, 1, start);
  }

  // ---------------------------------------------------------------------
  // getSelectedLanguage

  const CustomLanguage := "custom"
  const DefaultLanguage := "English"

  /** `getSelectedLanguage`: the selected option, or for "custom" the typed
      text trimmed, "English" when it is blank. */
  function SelectedLanguage(selected: string, typed: string): (language: string)
    ensures selected != CustomLanguage ==> language == selected
    ensures selected == CustomLanguage ==> language != ""
  {
    if selected == CustomLanguage then
      var custom := JsTrim(typed);
      if custom != "" then custom else DefaultLanguage
    else selected
  }

  /** A custom language is the typed text without white space at either
      end, and "English" exactly when the text is blank. */
  lemma CustomLanguageTrimmed(typed: string)
    ensures var language := SelectedLanguage(CustomLanguage, typed);
            (language == DefaultLanguage <==> (forall i :: 0 <= i < |typed| ==> JsSpace(typed[i])) || JsTrim(typed) == DefaultLanguage)
    ensures var language := SelectedLanguage(CustomLanguage, typed);
            !JsSpace(language[0]) && !JsSpace(language[|language| - 1])
    ensures var language := SelectedLanguage(CustomLanguage, typed);
            language != DefaultLanguage ==> Contains(typed, language)
  {
    JsTrimEmpty(typed);
    StripSlice(typed, JsSpace);
  }

  // ---------------------------------------------------------------------
  // markdownToHtml

  /** `markdownToHtml`: '' for an empty text; otherwise the text is escaped
      and handed to the later stages (code blocks, headers, emphasis,
      tables, lists, links and paragraphs), a parameter here. The later
      stages see every character escaped on its own, and no raw `<` or
      `>`. */
  function MarkdownToHtml(md: string, laterStages: string -> string): (html: string)
    ensures md == "" ==> html == ""
    ensures md != "" ==> html == laterStages(Html.EscapeEach(md, false))
  {
    if md == "" then ""
    else
      Html.EscapeMarkupEach(md);
      laterStages(Html.EscapeMarkup(md))
  }

  /** What the later stages receive holds no raw angle brackets and reads
      back as the original text. */
  lemma EscapedForLaterStages(md: string)
    ensures '<' !in Html.EscapeMarkup(md) && '>' !in Html.EscapeMarkup(md)
    ensures Html.Unescape(Html.EscapeMarkup(md)) == md
  {
    Html.EscapeMarkupEach(md);
    Html.EscapeEachNoRaw(md, false);
    Html.UnescapeEscape(md, false);
  }

  // ---------------------------------------------------------------------
  // The table stage

  /** A piece whose trimmed text is not empty. */
  predicate Filled(piece: string)
  {
    JsTrim(piece) != ""
  }

  /** The pieces whose trimmed text is not empty (`filter(r => r.trim())`). */
  function NonBlank(parts: seq<string>): (kept: seq<string>)
    ensures |kept| <= |parts|
    ensures forall k :: 0 <= k < |kept| ==> Filled(kept[k])
  {
    if parts == [] then []
    else (if Filled(parts[0]) then [parts[0]] else []) + NonBlank(parts[1..])
  }

  /** A filled piece is kept. */
  lemma {:induction false} NonBlankKeeps(parts: seq<string>, k: nat)
    requires k < |parts| && Filled(parts[k])
    ensures parts[k] in NonBlank(parts)
    decreases |parts|
  {
    if k > 0 {
      NonBlankKeeps(parts[1..], k - 1);
    }
  }

  /** The rows of a table block: its lines, without the blank ones. */
  function TableRows(block: string): seq<string>
  {
    NonBlank(Split(JsTrim(block), "\n"))
  }

  /** The cells of a row: the pieces between bars, without the blank ones. */
  function Cells(row: string): seq<string>
  {
    NonBlank(Split(row, "|"))
  }

  predicate IsTableMark(c: char)
  {
    c == '|' || c == '-' || c == ':' || JsSpace(c)
  }

  /** `row.replace(/[|\-\s:]/g, '')`. */
  function RemoveTableMarks(row: string): string
  {
    if row == [] then []
    else (if IsTableMark(row[0]) then [] else [row[0]]) + RemoveTableMarks(row[1..])
  }

  /** A separator row: bars, dashes, colons and white space only. */
  predicate IsSeparatorRow(row: string)
  {
    forall i :: 0 <= i < |row| ==> IsTableMark(row[i])
  }

  /** The separator test of the table stage is exactly the separator row
      predicate. */
  lemma {:induction false} RemoveTableMarksEmpty(row: string)
    ensures RemoveTableMarks(row) == "" <==> IsSeparatorRow(row)
    decreases |row|
  {
    if row != [] {
      RemoveTableMarksEmpty(row[1..]);
      assert forall i :: 1 <= i < |row| ==> row[i] == row[1..][i - 1];
    }
  }

  /** The cells of a row, each trimmed, inside `tag`. */
  function CellsHtml(cells: seq<string>, tag: string): string
  {
    if cells == [] then ""
    else "<" + tag + ">" + JsTrim(cells[0]) + "</" + tag + ">" + CellsHtml(cells[1..], tag)
  }

  /** What row `i` of a block emits: nothing for a separator row, otherwise
      its cells, as header cells in row 0 and as data cells after it. */
  function RowHtml(row: string, i: nat): string
  {
    if IsSeparatorRow(row) then ""
    else "<tr>" + CellsHtml(Cells(row), if i == 0 then "th" else "td") + "</tr>"
  }

  /** What the first `n` rows emit. */
  function RowsHtml(rows: seq<string>, n: nat): string
    requires n <= |rows|
  {
    if n == 0 then "" else RowsHtml(rows, n - 1) + RowHtml(rows[n - 1], n - 1)
  }

  /** The table callback of `markdownToHtml` on one matched block. */
  method TableHtml(block: string) returns (table: string)
    ensures var rows := TableRows(block);
            table == "<table>" + RowsHtml(rows, |rows|) + "</table>"
  {
    var rows := TableRows(block);
    table := "<table>";
    for i := 0 to |rows|
      invariant table == "<table>" + RowsHtml(rows, i)
    {
      var row := rows[i];
      var line := "";
      RemoveTableMarksEmpty(row);
      if RemoveTableMarks(row) != "" {
        var cells := Cells(row);
        var tag := if i == 0 then "th" else "td";
        line := "<tr>" + CellsHtml(cells, tag) + "</tr>";
      }
      assert line == RowHtml(row, i);
      assert RowsHtml(rows, i + 1) == RowsHtml(rows, i) + line;
      ConcatAssociative("<table>", RowsHtml(rows, i), line);
      table := table + line;
    }
    table := table + "</table>";
  }

  /** A row that is not a separator has at least one cell, and every cell
      is non-blank: each emitted row holds at least one header or data
      cell. */
  lemma RowHasCells(row: string)
    requires !IsSeparatorRow(row)
    ensures Cells(row) != []
    ensures forall k :: 0 <= k < |Cells(row)| ==> Filled(Cells(row)[k])
  {
    var i :| 0 <= i < |row| && !IsTableMark(row[i]);
    var parts := Split(row, "|");
    var k := SplitKeeps(row, '|', i);
    var m :| 0 <= m < |parts[k]| && parts[k][m] == row[i];
    assert !JsSpace(parts[k][m]);
    assert Filled(parts[k]);
    NonBlankKeeps(parts, k);
  }

  // ---------------------------------------------------------------------
  // The form

  /** What submitting the form does before any request: a toast for an
      empty link, a toast for a link without a video id, or the request
      with the trimmed link, the selected language and the model selector's
      value, which picks the server's generator. */
  datatype Submission = EmptyLinkToast | InvalidLinkToast | StartGeneration(url: string, language: string, model: string)

  function Submit(typedUrl: string, selected: string, typedLanguage: string, model: string): (s: Submission)
    ensures s.StartGeneration? ==> s.url == JsTrim(typedUrl) && ExtractVideoIdJs(s.url).Some?
    ensures s.StartGeneration? ==> s.language == SelectedLanguage(selected, typedLanguage) && s.model == model
    ensures s == EmptyLinkToast <==> JsTrim(typedUrl) == ""
    ensures s == InvalidLinkToast <==> JsTrim(typedUrl) != "" && ExtractVideoIdJs(JsTrim(typedUrl)).None?
  {
    var url := JsTrim(typedUrl);
    if url == "" then EmptyLinkToast
    else if ExtractVideoIdJs(url).None? then InvalidLinkToast
    else StartGeneration(url, SelectedLanguage(selected, typedLanguage), model)
  }

  /** A link the browser lets through is one the server accepts as well,
      unless it holds both an embed and a short link. */
  lemma SubmittedLinkAccepted(typedUrl: string, selected: string, typedLanguage: string, model: string)
    requires var s := Submit(typedUrl, selected, typedLanguage, model);
             s.StartGeneration? && !(Matches(s.url, EmbedPrefix) && Matches(s.url, ShortLinkPrefix))
    ensures ExtractVideoId(Submit(typedUrl, selected, typedLanguage, model).url).Ok?
  {
    ExtractorsAgree(JsTrim(typedUrl));
  }

  // ---------------------------------------------------------------------
  // Polling a task

  /** One answer of the task endpoint: a failed request, or the task's
      status with its `result` map (`None` when the document has none) and
      its error. */
  datatype PollAnswer = RequestFailed | TaskState(status: string, result: Option<map<string, string>>, error: Option<string>)

  /** What the page does on one answer. */
  datatype Effect = RenderNotes(notes: Option<string>) | FailureToast(message: string) | ShowStep(text: string)

  /** An answer that ends the polling. */
  predicate Finishes(a: PollAnswer)
  {
    a.TaskState? && (a.status == "completed" || a.status == "failed")
  }

  /** A finishing answer whose handler runs to its end: a `completed`
      answer without a `result` map sets the flag and clears the interval,
      then throws on `result.notes`; the `catch` swallows the error, so
      nothing is shown. */
  predicate Delivers(a: PollAnswer)
  {
    Finishes(a) && !(a.status == "completed" && a.result.None?)
  }

  /** An effect that ends the polling. */
  predicate Terminal(e: Effect)
  {
    e.RenderNotes? || e.FailureToast?
  }

  /** The step line: only the first underscore becomes a space. */
  function StepText(step: string): string
  {
    "Step: " + ReplaceFirst(step, "_", " ") + "..."
  }

  /** The effects of one answer: the notes rendered, the failure toast
      (`undefined` when the task has no error), the step line, or nothing
      for a failed request, a task without a step, or a completion whose
      handler throws. */
  function Effects(a: PollAnswer): (es: seq<Effect>)
    ensures |es| <= 1
    ensures (es != [] && Terminal(es[0])) <==> Delivers(a)
    ensures Finishes(a) && !Delivers(a) ==> es == []
  {
    match a
    case RequestFailed => []
    case TaskState(status, result, error) =>
      if status == "completed" then
        if result.None? then []
        else [RenderNotes(if "notes" in result.value then Some(result.value["notes"]) else None)]
      else if status == "failed" then [FailureToast("Generation failed: " + (if error.Some? then error.value else "undefined"))]
      else if result.Some? && "step" in result.value && result.value["step"] != "" then [ShowStep(StepText(result.value["step"]))]
      else []
  }

  /** The outcome of polling: the page's effects, the number of answers
      fetched, and the `isFinished` flag. */
  datatype Polling = Polling(effects: seq<Effect>, fetched: nat, finished: bool)

  /** The answers handled until the first one that finishes the task: the
      polling stops right after it, its effect is the only terminal one and
      the last, and without one every answer is fetched. */
  function PollSpec(answers: seq<PollAnswer>): (p: Polling)
    ensures p.fetched <= |answers|
    ensures p.finished ==> 0 < p.fetched && Finishes(answers[p.fetched - 1])
    ensures forall j :: 0 <= j < p.fetched - 1 ==> !Finishes(answers[j])
    ensures !p.finished ==> p.fetched == |answers| && forall j :: 0 <= j < |answers| ==> !Finishes(answers[j])
    decreases |answers|
  {
    if answers == [] then Polling([], 0, false)
    else if Finishes(answers[0]) then Polling(Effects(answers[0]), 1, true)
    else
      var rest := PollSpec(answers[1..]);
      assert forall i :: 1 <= i < |answers| ==> answers[i] == answers[1..][i - 1];
      Polling(Effects(answers[0]) + rest.effects, rest.fetched + 1, rest.finished)
  }

  /** The page renders the notes or reports the failure at most once, as
      its last effect, and exactly when the polling finished on an answer
      whose handler runs to its end. */
  lemma {:induction false} PollEffectsTerminal(answers: seq<PollAnswer>)
    ensures var p := PollSpec(answers);
            TerminalLast(p, p.finished && Delivers(answers[p.fetched - 1]))
    decreases |answers|
  {
    if answers != [] && !Finishes(answers[0]) {
      PollEffectsTerminal(answers[1..]);
      var rest := PollSpec(answers[1..]);
      var p := PollSpec(answers);
      assert p == After(Effects(answers[0]), 1, rest);
      if rest.finished {
        assert answers[p.fetched - 1] == answers[1..][rest.fetched - 1];
      }
      TerminalLastAfter(Effects(answers[0]), rest, rest.finished && Delivers(answers[1..][rest.fetched - 1]));
    }
  }

  /** Only the last effect can be terminal, and it is terminal exactly
      when `delivered` holds. */
  predicate TerminalLast(p: Polling, delivered: bool)
  {
    (delivered <==> p.effects != [] && Terminal(p.effects[|p.effects| - 1]))
    && forall k :: 0 <= k < |p.effects| - 1 ==> !Terminal(p.effects[k])
  }

  /** A non-terminal effect in front keeps `TerminalLast`. */
  lemma TerminalLastAfter(head: seq<Effect>, rest: Polling, delivered: bool)
    requires |head| <= 1 && (head == [] || !Terminal(head[0]))
    requires TerminalLast(rest, delivered)
    ensures TerminalLast(After(head, 1, rest), delivered)
  {
    var es := head + rest.effects;
    forall k | 0 <= k < |es| - 1 ensures !Terminal(es[k]) {
      if k >= |head| {
        assert es[k] == rest.effects[k - |head|];
      }
    }
    if rest.effects != [] {
      assert es[|es| - 1] == rest.effects[|rest.effects| - 1];
    }
  }

  /** The answers with the polling's state in front. */
  function After(effects: seq<Effect>, fetched: nat, rest: Polling): Polling
  {
    Polling(effects + rest.effects, fetched + rest.fetched, rest.finished)
  }

  lemma AfterAfter(effects: seq<Effect>, fetched: nat, shown: seq<Effect>, rest: Polling)
    ensures After(effects, fetched, After(shown, 1, rest)) == After(effects + shown, fetched + 1, rest)
  {
    assert (effects + shown) + rest.effects == effects + (shown + rest.effects);
  }

  /** Polling from answer `f` on handles answer `f` and then, unless it
      finishes the task, the answers after it. */
  lemma PollFrom(answers: seq<PollAnswer>, f: nat)
    requires f < |answers|
    ensures !Finishes(answers[f]) ==> PollSpec(answers[f..]) == After(Effects(answers[f]), 1, PollSpec(answers[f + 1..]))
    ensures Finishes(answers[f]) ==> PollSpec(answers[f..]) == Polling(Effects(answers[f]), 1, true)
  {
    assert answers[f..][0] == answers[f];
    assert answers[f..][1..] == answers[f + 1..];
  }

  /** The interval callback of `initForm`, run on successive answers: once
      an answer finishes the task the flag is set and the interval cleared,
      so no later answer is fetched. */
  method Poll(answers: seq<PollAnswer>) returns (effects: seq<Effect>, fetched: nat, isFinished: bool)
    ensures Polling(effects, fetched, isFinished) == PollSpec(answers)
  {
    effects := [];
    fetched := 0;
    isFinished := false;
    assert answers[0..] == answers;
    while fetched < |answers| && !isFinished
      invariant fetched <= |answers|
      invariant !isFinished ==> PollSpec(answers) == After(effects, fetched, PollSpec(answers[fetched..]))
      invariant isFinished ==> PollSpec(answers) == Polling(effects, fetched, true)
      decreases |answers| - fetched
    {
      var answer := answers[fetched];
      PollFrom(answers, fetched);
      var shown: seq<Effect> := [];
      match answer {
        case RequestFailed =>
        case TaskState(status, result, error) =>
          if status == "completed" {
            isFinished := true;
            if result.Some? {
              shown := [RenderNotes(if "notes" in result.value then Some(result.value["notes"]) else None)];
            }
          } else if status == "failed" {
            isFinished := true;
            shown := [FailureToast("Generation failed: " + (if error.Some? then error.value else "undefined"))];
          } else if result.Some? && "step" in result.value && result.value["step"] != "" {
            shown := [ShowStep(StepText(result.value["step"]))];
          }
      }
      assert shown == Effects(answer) && (isFinished <==> Finishes(answer));
      ghost var rest := PollSpec(answers[fetched + 1..]);
      AfterAfter(effects, fetched, shown, rest);
      effects := effects + shown;
      fetched := fetched + 1;
    }
    if !isFinished {
      assert answers[fetched..] == [];
    }
  }

  /** Only the first underscore of a label is replaced. */
  lemma ReplaceFirstUnderscore(head: string, tail: string)
    requires '_' !in head
    ensures ReplaceFirst(head + "_" + tail, "_", " ") == head + " " + tail
  {
    var s := head + "_" + tail;
    assert OccursAt(s, "_", |head|);
    forall j | 0 <= j < |head| ensures !OccursAt(s, "_", j) {
      assert s[j..j + 1][0] == head[j];
    }
    var r := IndexOf(s, "_");
    assert r == Some(|head|);
    assert s[..|head|] == head && s[|head| + 1..] == tail;
  }

  /** The step line of a label with an underscore shows the text before
      the first underscore, a space, and the rest unchanged. */
  lemma StepTextFirstUnderscore(head: string, tail: string)
    requires '_' !in head
    ensures StepText(head + "_" + tail) == "Step: " + head + " " + tail + "..."
  {
    ReplaceFirstUnderscore(head, tail);
  }
}
