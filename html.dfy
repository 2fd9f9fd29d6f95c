/** HTML escaping in the browser scripts: the first stage of the dashboard's
    `markdownToHtml` (app.js lines 354-356) and of the history page's
    `parseMarkdown` (history.js line 34) replaces `&`, `<` and `>`, in that
    order; the history page's `escapeHtml` (history.js lines 164-166) also
    replaces `"`. Each is a chain of global replacements; `EscapeEach` is the
    character-by-character reference they are proved equal to. */
module Html {
  import opened Strings

  /** The entity a character becomes, or the character itself. */
  function Entity(c: char, quotes: bool): string
  {
    if c == '&' then "&amp;"
    else if c == '<' then "&lt;"
    else if c == '>' then "&gt;"
    else if quotes && c == '"' then "&quot;"
    else [c]
  }

  /** Every character replaced by its entity, independently of the others. */
  function EscapeEach(s: string, quotes: bool): string
  {
    if s == [] then [] else Entity(s[0], quotes) + EscapeEach(s[1..], quotes)
  }

  /** The replacement chain of `markdownToHtml` and `parseMarkdown`. */
  function EscapeMarkup(s: string): string
  {
    ReplaceAll(ReplaceAll(ReplaceAll(s, "&", "&amp;"), "<", "&lt;"), ">", "&gt;")
  }

  /** history.js `escapeHtml`: the same chain, then `"`. */
  function EscapeHtml(s: string): string
  {
    ReplaceAll(EscapeMarkup(s), "\"", "&quot;")
  }

  lemma ReplaceAbsentChar(s: string, c: char, r: string)
    requires c !in s
    ensures ReplaceAll(s, [c], r) == s
  {
    ContainsChar(s, c);
    ReplaceAllAbsent(s, [c], r);
  }

  lemma EscapeMarkupConcat(a: string, b: string)
    ensures EscapeMarkup(a + b) == EscapeMarkup(a) + EscapeMarkup(b)
  {
    var a1 := ReplaceAll(a, "&", "&amp;");
    var b1 := ReplaceAll(b, "&", "&amp;");
    ReplaceCharConcat(a, b, '&', "&amp;");
    var a2 := ReplaceAll(a1, "<", "&lt;");
    var b2 := ReplaceAll(b1, "<", "&lt;");
    ReplaceCharConcat(a1, b1, '<', "&lt;");
    ReplaceCharConcat(a2, b2, '>', "&gt;");
  }

  /** One character through the chain: `&` is replaced first, so the
      ampersands the later steps bring are not replaced again. */
  lemma EscapeMarkupChar(c: char)
    ensures EscapeMarkup([c]) == Entity(c, false)
  {
    if c == '&' {
      assert ReplaceAll([c], "&", "&amp;") == "&amp;";
      ReplaceAbsentChar("&amp;", '<', "&lt;");
      ReplaceAbsentChar("&amp;", '>', "&gt;");
    } else if c == '<' {
      ReplaceAbsentChar([c], '&', "&amp;");
      assert ReplaceAll([c], "<", "&lt;") == "&lt;";
      ReplaceAbsentChar("&lt;", '>', "&gt;");
    } else if c == '>' {
      ReplaceAbsentChar([c], '&', "&amp;");
      ReplaceAbsentChar([c], '<', "&lt;");
      assert ReplaceAll([c], ">", "&gt;") == "&gt;";
    } else {
      ReplaceAbsentChar([c], '&', "&amp;");
      ReplaceAbsentChar([c], '<', "&lt;");
      ReplaceAbsentChar([c], '>', "&gt;");
    }
  }

  /** The chain of `markdownToHtml` escapes each character on its own. */
  lemma {:induction false} EscapeMarkupEach(s: string)
    ensures EscapeMarkup(s) == EscapeEach(s, false)
    decreases |s|
  {
    if s != [] {
      EscapeMarkupEach(s[1..]);
      EscapeMarkupConcat([s[0]], s[1..]);
      EscapeMarkupChar(s[0]);
      assert s == [s[0]] + s[1..];
    }
  }

  lemma EscapeHtmlConcat(a: string, b: string)
    ensures EscapeHtml(a + b) == EscapeHtml(a) + EscapeHtml(b)
  {
    EscapeMarkupConcat(a, b);
    ReplaceCharConcat(EscapeMarkup(a), EscapeMarkup(b), '"', "&quot;");
  }

  lemma EscapeHtmlChar(c: char)
    ensures EscapeHtml([c]) == Entity(c, true)
  {
    EscapeMarkupChar(c);
    if c == '"' {
      assert ReplaceAll([c], "\"", "&quot;") == "&quot;";
    } else {
      ReplaceAbsentChar(Entity(c, false), '"', "&quot;");
    }
  }

  /** The chain of `escapeHtml` escapes each character on its own, quotes
      included. */
  lemma {:induction false} EscapeHtmlEach(s: string)
    ensures EscapeHtml(s) == EscapeEach(s, true)
    decreases |s|
  {
    if s != [] {
      EscapeHtmlEach(s[1..]);
      EscapeHtmlConcat([s[0]], s[1..]);
      EscapeHtmlChar(s[0]);
      assert s == [s[0]] + s[1..];
    }
  }

  /** After escaping, no `<` or `>` is left, and no `"` when quotes are
      escaped. */
  lemma {:induction false} EscapeEachNoRaw(s: string, quotes: bool)
    ensures '<' !in EscapeEach(s, quotes) && '>' !in EscapeEach(s, quotes)
    ensures quotes ==> '"' !in EscapeEach(s, quotes)
    decreases |s|
  {
    if s != [] {
      EscapeEachNoRaw(s[1..], quotes);
    }
  }

  /** Reading entities back: the inverse of escaping. */
  function Unescape(t: string): string
    decreases |t|
  {
    if t == [] then []
    else if t[0] != '&' then [t[0]] + Unescape(t[1..])
    else if |t| >= 5 && t[1..5] == "amp;" then "&" + Unescape(t[5..])
    else if |t| >= 4 && t[1..4] == "lt;" then "<" + Unescape(t[4..])
    else if |t| >= 4 && t[1..4] == "gt;" then ">" + Unescape(t[4..])
    else if |t| >= 6 && t[1..6] == "quot;" then "\"" + Unescape(t[6..])
    else "&" + Unescape(t[1..])
  }

  lemma UnescapeEntity(c: char, quotes: bool, rest: string)
    ensures Unescape(Entity(c, quotes) + rest) == [c] + Unescape(rest)
  {
    var t := Entity(c, quotes) + rest;
    if c == '&' {
      assert t[1..5] == "amp;" && t[5..] == rest;
    } else if c == '<' {
      assert t[1] == 'l' && t[1..4] == "lt;" && t[4..] == rest;
    } else if c == '>' {
      assert t[1] == 'g' && t[1..4] == "gt;" && t[4..] == rest;
    } else if quotes && c == '"' {
      assert t[1] == 'q' && t[1..6] == "quot;" && t[6..] == rest;
    } else {
      assert t[0] == c && t[1..] == rest;
    }
  }

  /** Escaping loses nothing: the escaped text reads back as the original. */
  lemma {:induction false} UnescapeEscape(s: string, quotes: bool)
    ensures Unescape(EscapeEach(s, quotes)) == s
    decreases |s|
  {
    if s != [] {
      UnescapeEscape(s[1..], quotes);
      UnescapeEntity(s[0], quotes, EscapeEach(s[1..], quotes));
      assert s == [s[0]] + s[1..];
    }
  }
}
