/** The prompt sent to both language models and the title derived from the
    generated notes (main.py lines 223-231, 256, 430-432 and 474-476). The
    prompt template itself, a long constant of main.py, is a parameter: only
    the two tokens it contains matter to the composition. */
module Prompts {
  import opened Strings

  const LanguageToken := "{language}"
  const TranscriptToken := "TRANSCRIPT_PLACEHOLDER"

  /** The audience instructions appended to the prompt, one per role: a
      blank line, an emoji and the instructions. */
  const ChildModifier := "\n\n" + "\U{1f9d2}" + " AUDIENCE: CHILD (Under 13). Write in VERY SIMPLE language. Use fun analogies, cartoons, stories. Explain like talking to a 10-year-old. Use lots of emojis. Break complex ideas into tiny steps. Add 'Fun Fact!' sections."
  const StudentModifier := "\n\n" + "\U{1f393}" + " AUDIENCE: STUDENT. Write in clear, educational language. Include step-by-step explanations, study tips, and exam-oriented key points. Use diagrams descriptions, mnemonics, and practice questions where possible."
  const TeacherModifier := "\n\n" + "\U{1f468}\U{200d}\U{1f3eb}" + " AUDIENCE: TEACHER/EDUCATOR. Write in professional academic language. Include pedagogical insights, teaching methodologies, curriculum connections, and discussion prompts. Add references and further reading suggestions. Be thorough and authoritative."
  const IndustryModifier := "\n\n" + "\U{1f4bc}" + " AUDIENCE: INDUSTRY PROFESSIONAL. Write in professional, technical language. Include business implications, ROI analysis, implementation strategies, and industry best practices. Use data-driven insights and actionable recommendations. Be concise yet comprehensive."

  const RoleInstructions: map<string, string> := map[
    "child" := ChildModifier,
    "student" := StudentModifier,
    "teacher" := TeacherModifier,
    "industry" := IndustryModifier
  ]

  /** `role_instructions.get(role, role_instructions["student"])`: the
      text of a known role, the student text for every other role. */
  function RoleModifier(role: string): (m: string)
    ensures role in RoleInstructions ==> m == RoleInstructions[role]
    ensures role !in RoleInstructions ==> m == StudentModifier
  {
    if role in RoleInstructions then RoleInstructions[role] else StudentModifier
  }

  /** The emoji that follows the blank line of each modifier. */
  function AudienceMark(role: string): char
  {
    match role
    case "child" => '\U{1f9d2}'
    case "teacher" => '\U{1f468}'
    case "industry" => '\U{1f4bc}'
    case _ => '\U{1f393}'
  }

  /** A blank line, then `mark`. */
  predicate OpensWith(modifier: string, mark: char)
  {
    |modifier| > 2 && modifier[..2] == "\n\n" && modifier[2] == mark
  }

  lemma ChildOpening()
    ensures OpensWith(ChildModifier, '\U{1f9d2}')
  {
    assert ChildModifier == "\n\n" + "\U{1f9d2}" + ChildModifier[3..];
  }

  lemma StudentOpening()
    ensures OpensWith(StudentModifier, '\U{1f393}')
  {
    assert StudentModifier == "\n\n" + "\U{1f393}" + StudentModifier[3..];
  }

  lemma TeacherOpening()
    ensures OpensWith(TeacherModifier, '\U{1f468}')
  {
    assert TeacherModifier == "\n\n" + "\U{1f468}" + TeacherModifier[3..];
  }

  lemma IndustryOpening()
    ensures OpensWith(IndustryModifier, '\U{1f4bc}')
  {
    assert IndustryModifier == "\n\n" + "\U{1f4bc}" + IndustryModifier[3..];
  }

  /** Every modifier is a blank line followed by the audience's emoji, so
      it is never empty. */
  lemma RoleMarkOf(role: string)
    ensures |RoleModifier(role)| > 2 && RoleModifier(role)[..2] == "\n\n"
    ensures RoleModifier(role)[2] == AudienceMark(role)
  {
    if role == "child" {
      ChildOpening();
    } else if role == "teacher" {
      TeacherOpening();
    } else if role == "industry" {
      IndustryOpening();
    } else {
      StudentOpening();
    }
  }

  /** Two known roles never share a modifier. */
  lemma RoleModifierShape(role: string, other: string)
    requires role in RoleInstructions && other in RoleInstructions && role != other
    ensures RoleModifier(role) != RoleModifier(other)
  {
    RoleMarkOf(role);
    RoleMarkOf(other);
  }

  /** The prompt: every `{language}` of the template replaced by the language,
      then every placeholder replaced by the transcript, then the modifier
      appended when it is not empty. */
  function ComposePrompt(template: string, language: string, transcript: string, modifier: string): string
  {
    var prompt := ReplaceAll(ReplaceAll(template, LanguageToken, language), TranscriptToken, transcript);
    if modifier != "" then prompt + modifier else prompt
  }

  /** The placeholder does not overlap itself: no occurrence can start inside
      a text placed before it and end inside it. */
  lemma PlaceholderBorderFree(a: string, b: string)
    ensures NoStraddle(a, TranscriptToken + b, TranscriptToken)
  {
    var s := a + TranscriptToken + b;
    assert s == a + (TranscriptToken + b);
    forall i | 0 <= i < |a| < i + |TranscriptToken| ensures !OccursAt(s, TranscriptToken, i) {
      var d := |a| - i;
      if i + |TranscriptToken| <= |s| {
        var w := s[i..i + |TranscriptToken|];
        assert w[d] == s[|a|] == 'T';
        if TranscriptToken[d] == 'T' {
          assert d == 9;
          assert w[10] == s[|a| + 1] == 'R';
        }
      }
    }
  }

  /** When the template, after the language substitution, holds the
      placeholder exactly once, the prompt is the text around it with the
      transcript in its place, followed by the modifier: the transcript is
      inserted verbatim, whatever it contains. */
  lemma TranscriptInsertedVerbatim(template: string, language: string, transcript: string, modifier: string, before: string, after: string)
    requires ReplaceAll(template, LanguageToken, language) == before + TranscriptToken + after
    requires !Contains(before, TranscriptToken) && !Contains(after, TranscriptToken)
    ensures ComposePrompt(template, language, transcript, modifier) == before + transcript + after + modifier
  {
    PlaceholderBorderFree(before, after);
    ReplaceAllOnce(before, TranscriptToken, after, transcript);
  }

  /** A role modifier is never empty, so it is always appended. */
  lemma ModifierAlwaysAppended(template: string, language: string, transcript: string, role: string)
    ensures ComposePrompt(template, language, transcript, RoleModifier(role))
         == ReplaceAll(ReplaceAll(template, LanguageToken, language), TranscriptToken, transcript) + RoleModifier(role)
  {
    RoleMarkOf(role);
  }

  // ---------------------------------------------------------------------
  // Titles

  const TitleLimit: nat := 80
  const UntitledTitle := "Untitled Notes"

  /** Python's `s[:n]`. */
  function Take(s: string, n: nat): (t: string)
    ensures |t| <= n && |t| <= |s| && t == s[..|t|]
    ensures |s| <= n ==> t == s
  {
    if |s| <= n then s else s[..n]
  }

  predicate IsHash(c: char)
  {
    c == '#'
  }

  /** `head.strip('#').strip()`: a piece of `head`, no longer than it. */
  lemma StrippedTitle(head: string)
    ensures var title := PyStrip(Strip(head, IsHash));
            Contains(head, title) && |title| <= |head|
  {
    var unhashed := Strip(head, IsHash);
    StripSlice(head, IsHash);
    StripSlice(unhashed, PySpace);
    ContainsTrans(head, unhashed, PyStrip(unhashed));
  }

  /** main.py line 256: the first line of the notes, cut to 80 characters,
      stripped of `#` at both ends and then of white space at both ends;
      "Untitled Notes" for empty notes. */
  function NoteTitle(notes: string): (title: string)
    ensures |title| <= TitleLimit
    ensures notes != "" ==> Contains(Take(FirstLine(notes), TitleLimit), title)
    ensures notes != "" && title != "" ==> !PySpace(title[0]) && !PySpace(title[|title| - 1])
    ensures notes == "" ==> title == UntitledTitle
  {
    if notes == "" then UntitledTitle
    else
      var head := Take(FirstLine(notes), TitleLimit);
      StrippedTitle(head);
      PyStrip(Strip(head, IsHash))
  }

  /** A title never spans lines. */
  lemma TitleIsOneLine(notes: string)
    ensures '\n' !in NoteTitle(notes)
  {
    if notes != "" {
      var line := FirstLine(notes);
      var head := Take(line, TitleLimit);
      assert head == line[..|head|];
      assert '\n' !in head;
      ContainsAbsentChar(head, NoteTitle(notes), '\n');
    }
  }

  /** Stripping `#` from a heading line leaves the space and the text. */
  lemma HashStripped(text: string)
    requires text != [] && text[|text| - 1] != '#'
    ensures Strip("# " + text, IsHash) == " " + text
  {
    var line := "# " + text;
    var spaced := " " + text;
    assert line == ['#'] + spaced;
    TrimStartDropped('#', spaced, IsHash);
    assert spaced[0] == ' ' && !IsHash(' ');
    TrimStartKept(spaced, IsHash);
    assert TrimStart(line, IsHash) == spaced;
    assert spaced[|spaced| - 1] == text[|text| - 1];
    TrimEndKept(spaced, IsHash);
    assert Strip(line, IsHash) == TrimEnd(TrimStart(line, IsHash), IsHash);
  }

  /** Stripping white space then leaves the text. */
  lemma SpaceStripped(text: string)
    requires text != [] && !PySpace(text[0]) && !PySpace(text[|text| - 1])
    ensures PyStrip(" " + text) == text
  {
    assert " " + text == [' '] + text;
    TrimStartDropped(' ', text, PySpace);
    TrimStartKept(text, PySpace);
    TrimEndKept(text, PySpace);
  }

  /** The title of notes that open with a level-one heading, as the prompt
      asks, is the heading's text. */
  lemma TitleOfHeading(text: string, rest: string)
    requires '\n' !in text && 0 < |text| <= TitleLimit - 2
    requires !PySpace(text[0]) && !PySpace(text[|text| - 1]) && text[|text| - 1] != '#'
    ensures NoteTitle("# " + text + "\n" + rest) == text
  {
    var line := "# " + text;
    assert '\n' !in line;
    FirstLineOf(line, rest);
    assert Take(line, TitleLimit) == line;
    HashStripped(text);
    SpaceStripped(text);
  }

  /** A first line made only of `#` gives an empty title, not the fallback
      title. */
  lemma TitleMayBeEmpty(rest: string)
    ensures NoteTitle("##\n" + rest) == ""
  {
    assert "##\n" + rest == "##" + "\n" + rest;
    FirstLineOf("##", rest);
    assert "##"[1..] == "#";
  }
}
