/** Text operations shared by the Python server and the browser scripts:
    literal search and replace, splitting and joining, whitespace trimming,
    and decimal rendering of numbers. Strings are sequences of Unicode
    scalar values, as Python's `str` is. */
module Strings {
  import opened Results

  /** `p` occurs in `s` starting at index `i`. */
  predicate OccursAt(s: string, p: string, i: int)
  {
    0 <= i && i + |p| <= |s| && s[i..i + |p|] == p
  }

  /** Python's `p in s`, JavaScript's `s.includes(p)`. */
  predicate Contains(s: string, p: string)
  {
    exists i :: 0 <= i <= |s| && OccursAt(s, p, i)
  }

  /** Occurrences in a suffix are occurrences in the whole string, shifted. */
  lemma OccursDrop(s: string, p: string, n: nat)
    requires n <= |s|
    ensures forall j :: 0 <= j ==> (OccursAt(s[n..], p, j) <==> OccursAt(s, p, j + n))
    ensures forall j :: n <= j ==> (OccursAt(s, p, j) <==> OccursAt(s[n..], p, j - n))
  {
    forall j | 0 <= j ensures OccursAt(s[n..], p, j) <==> OccursAt(s, p, j + n) {
      if j + |p| <= |s| - n {
        assert s[n..][j..j + |p|] == s[j + n..j + n + |p|];
      }
    }
    forall j | n <= j ensures OccursAt(s, p, j) <==> OccursAt(s[n..], p, j - n) {
      if j + |p| <= |s| {
        assert s[n..][j - n..j - n + |p|] == s[j..j + |p|];
      }
    }
  }

  /** Occurrences in a prefix are occurrences in the whole string. */
  lemma OccursTake(s: string, p: string, n: nat)
    requires n <= |s|
    ensures forall j :: OccursAt(s[..n], p, j) ==> OccursAt(s, p, j)
  {
    forall j | OccursAt(s[..n], p, j) ensures OccursAt(s, p, j) {
      assert s[..n][j..j + |p|] == s[j..j + |p|];
    }
  }

  lemma ContainsDrop(s: string, p: string, n: nat)
    requires n <= |s| && Contains(s[n..], p)
    ensures Contains(s, p)
  {
    var j :| 0 <= j <= |s[n..]| && OccursAt(s[n..], p, j);
    OccursDrop(s, p, n);
    assert OccursAt(s, p, j + n);
  }

  lemma ContainsTake(s: string, p: string, n: nat)
    requires n <= |s| && Contains(s[..n], p)
    ensures Contains(s, p)
  {
    var j :| 0 <= j <= |s[..n]| && OccursAt(s[..n], p, j);
    OccursTake(s, p, n);
  }

  /** For a one-character pattern, `Contains` is sequence membership. */
  lemma ContainsChar(s: string, c: char)
    ensures Contains(s, [c]) <==> c in s
  {
    if c in s {
      var i :| 0 <= i < |s| && s[i] == c;
      assert OccursAt(s, [c], i);
    }
    if Contains(s, [c]) {
      var i :| 0 <= i <= |s| && OccursAt(s, [c], i);
      assert s[i..i + 1][0] == s[i];
    }
  }

  /** Python's `s.find(p)` when it is not -1: the first index at which `p`
      occurs. */
  function IndexOf(s: string, p: string): (r: Option<nat>)
    ensures r.Some? ==> OccursAt(s, p, r.value)
    ensures r.Some? ==> forall j :: 0 <= j < r.value ==> !OccursAt(s, p, j)
    ensures r.None? <==> !Contains(s, p)
    decreases |s|
  {
    if |s| < |p| then None
    else if s[..|p|] == p then
      assert OccursAt(s, p, 0);
      Some(0)
    else
      OccursDrop(s, p, 1);
      assert !OccursAt(s, p, 0);
      var rest := IndexOf(s[1..], p);
      assert rest.None? ==> !Contains(s, p);
      match rest
      case None => None
      case Some(k) => Some(k + 1)
  }

  lemma PrefixBeforeFirst(s: string, sep: string, i: nat)
    requires sep != [] && OccursAt(s, sep, i)
    requires forall j :: 0 <= j < i ==> !OccursAt(s, sep, j)
    ensures !Contains(s[..i], sep)
  {
    OccursTake(s, sep, i);
  }

  /** Python's `s.split(sep)` and JavaScript's `s.split(sep)` for a non-empty
      literal separator: the pieces between the occurrences of `sep`, found
      left to right. */
  function Split(s: string, sep: string): (parts: seq<string>)
    requires sep != []
    ensures |parts| >= 1
    ensures forall k :: 0 <= k < |parts| ==> !Contains(parts[k], sep)
    decreases |s|
  {
    match IndexOf(s, sep)
    case None => [s]
    case Some(i) =>
      PrefixBeforeFirst(s, sep, i);
      [s[..i]] + Split(s[i + |sep|..], sep)
  }

  /** Python's `sep.join(parts)`, JavaScript's `parts.join(sep)`. */
  function Join(parts: seq<string>, sep: string): string
  {
    if |parts| == 0 then ""
    else if |parts| == 1 then parts[0]
    else parts[0] + sep + Join(parts[1..], sep)
  }

  /** Joining the pieces of a split with the separator gives the text back. */
  lemma {:induction false} JoinSplit(s: string, sep: string)
    requires sep != []
    ensures Join(Split(s, sep), sep) == s
    decreases |s|
  {
    match IndexOf(s, sep)
    case None =>
    case Some(i) =>
      var rest := Split(s[i + |sep|..], sep);
      JoinSplit(s[i + |sep|..], sep);
      assert Split(s, sep) == [s[..i]] + rest;
      assert s == s[..i] + sep + s[i + |sep|..];
  }

  /** Splitting a text without the separator character gives the text. */
  lemma SplitNone(a: string, c: char)
    requires c !in a
    ensures Split(a, [c]) == [a]
  {
    ContainsChar(a, c);
  }

  /** Splitting `a + [c] + b` on `c`, when `a` holds no `c`, gives `a`
      followed by the pieces of `b`. */
  lemma SplitCons(a: string, c: char, b: string)
    requires c !in a
    ensures Split(a + [c] + b, [c]) == [a] + Split(b, [c])
  {
    var s := a + [c] + b;
    assert s[|a|..|a| + 1] == [c];
    assert OccursAt(s, [c], |a|);
    forall j | 0 <= j < |a| ensures !OccursAt(s, [c], j) {
      assert s[j..j + 1] == [a[j]];
    }
    assert IndexOf(s, [c]) == Some(|a|);
    assert s[..|a|] == a;
    assert s[|a| + 1..] == b;
  }

  /** A character other than the separator lands in one of the pieces:
      character `j` of `s` lands in piece `k`. */
  lemma {:induction false} SplitKeeps(s: string, c: char, j: nat) returns (k: nat)
    requires j < |s| && s[j] != c
    ensures k < |Split(s, [c])| && s[j] in Split(s, [c])[k]
    decreases |s|
  {
    match IndexOf(s, [c])
    case None =>
      assert Split(s, [c]) == [s];
      k := 0;
    case Some(i) =>
      var rest := s[i + 1..];
      assert Split(s, [c]) == [s[..i]] + Split(rest, [c]);
      assert s[i] == s[i..i + 1][0] == c;
      if j < i {
        assert s[..i][j] == s[j];
        k := 0;
      } else {
        assert rest[j - i - 1] == s[j];
        var k' := SplitKeeps(rest, c, j - i - 1);
        k := k' + 1;
      }
  }

  /** Splitting `a + [c] + b` on `c`, when neither side holds `c`, gives the
      two sides. */
  lemma SplitPair(a: string, c: char, b: string)
    requires c !in a && c !in b
    ensures Split(a + [c] + b, [c]) == [a, b]
  {
    SplitCons(a, c, b);
    SplitNone(b, c);
  }

  /** The first line: the text before the first "\n" (Python's
      `s.split('\n')[0]`). */
  function FirstLine(s: string): (line: string)
    ensures '\n' !in line
    ensures |line| <= |s| && line == s[..|line|]
    ensures |line| < |s| ==> s[|line|] == '\n'
    ensures line == Split(s, "\n")[0]
  {
    match IndexOf(s, "\n")
    case None =>
      ContainsChar(s, '\n');
      s
    case Some(i) =>
      PrefixBeforeFirst(s, "\n", i);
      ContainsChar(s[..i], '\n');
      assert s[i..i + 1][0] == s[i];
      s[..i]
  }

  /** The first line of a text that starts with a line `a` is `a`. */
  lemma FirstLineOf(a: string, rest: string)
    requires '\n' !in a
    ensures FirstLine(a + "\n" + rest) == a
  {
    SplitCons(a, '\n', rest);
  }

  /** A piece of a piece of `s` is a piece of `s`. */
  lemma ContainsTrans(s: string, u: string, t: string)
    requires Contains(s, u) && Contains(u, t)
    ensures Contains(s, t)
  {
    var j :| 0 <= j <= |s| && OccursAt(s, u, j);
    var i :| 0 <= i <= |u| && OccursAt(u, t, i);
    assert u == s[j..j + |u|];
    forall k | 0 <= k < |t| ensures t[k] == s[j + i + k] {
      assert t[k] == u[i + k];
    }
    assert OccursAt(s, t, j + i);
  }

  /** A character missing from a text is missing from every piece of it. */
  lemma ContainsAbsentChar(s: string, t: string, c: char)
    requires Contains(s, t) && c !in s
    ensures c !in t
  {
    var i :| 0 <= i <= |s| && OccursAt(s, t, i);
    forall k | 0 <= k < |t| ensures t[k] != c {
      assert t[k] == s[i + k];
    }
  }

  // ---------------------------------------------------------------------
  // Replacement

  /** Python's `s.replace(p, r)` and JavaScript's `s.replace(/p/g, r)` for a
      literal pattern: occurrences are replaced left to right, without
      overlapping, and the replacement text is not searched again. */
  function ReplaceAll(s: string, p: string, r: string): string
    requires p != []
    decreases |s|
  {
    if |s| < |p| then s
    else if s[..|p|] == p then r + ReplaceAll(s[|p|..], p, r)
    else [s[0]] + ReplaceAll(s[1..], p, r)
  }

  /** JavaScript's `s.replace(p, r)` with a string pattern: only the first
      occurrence is replaced. */
  function ReplaceFirst(s: string, p: string, r: string): (t: string)
    ensures !Contains(s, p) ==> t == s
    ensures Contains(s, p) ==> exists i :: OccursAt(s, p, i) && t == s[..i] + r + s[i + |p|..]
  {
    match IndexOf(s, p)
    case None => s
    case Some(i) => s[..i] + r + s[i + |p|..]
  }

  lemma ConcatAssociative(a: string, b: string, c: string)
    ensures (a + b) + c == a + (b + c)
  {
  }

  /** A text that starts with the pattern has it replaced first. */
  lemma ReplaceAllHead(p: string, b: string, r: string)
    requires p != []
    ensures ReplaceAll(p + b, p, r) == r + ReplaceAll(b, p, r)
  {
    assert (p + b)[..|p|] == p;
    assert (p + b)[|p|..] == b;
  }

  /** A text without the pattern is left as it is. */
  lemma {:induction false} ReplaceAllAbsent(s: string, p: string, r: string)
    requires p != [] && !Contains(s, p)
    ensures ReplaceAll(s, p, r) == s
    decreases |s|
  {
    if |s| >= |p| {
      assert !OccursAt(s, p, 0);
      if Contains(s[1..], p) {
        ContainsDrop(s, p, 1);
      }
      ReplaceAllAbsent(s[1..], p, r);
    }
  }

  /** No occurrence of `p` in `a + b` starts inside `a` and ends inside `b`. */
  predicate NoStraddle(a: string, b: string, p: string)
  {
    forall i :: 0 <= i < |a| < i + |p| ==> !OccursAt(a + b, p, i)
  }

  /** Dropping a prefix of `a` keeps the absence of straddling occurrences. */
  lemma NoStraddleDrop(a: string, b: string, p: string, n: nat)
    requires NoStraddle(a, b, p) && n <= |a|
    ensures NoStraddle(a[n..], b, p)
  {
    assert a[n..] + b == (a + b)[n..];
    OccursDrop(a + b, p, n);
  }

  /** Replacement distributes over a concatenation that no occurrence
      straddles. */
  lemma {:induction false} ReplaceAllConcat(a: string, b: string, p: string, r: string)
    requires p != [] && NoStraddle(a, b, p)
    ensures ReplaceAll(a + b, p, r) == ReplaceAll(a, p, r) + ReplaceAll(b, p, r)
    decreases |a|
  {
    var s := a + b;
    if a == [] {
      assert s == b;
    } else if |s| < |p| {
      assert ReplaceAll(s, p, r) == s;
    } else if s[..|p|] == p {
      assert OccursAt(s, p, 0);
      assert a[..|p|] == p;
      var a' := a[|p|..];
      assert s[|p|..] == a' + b;
      NoStraddleDrop(a, b, p, |p|);
      ReplaceAllConcat(a', b, p, r);
      assert ReplaceAll(s, p, r) == r + ReplaceAll(a' + b, p, r);
      assert ReplaceAll(a, p, r) == r + ReplaceAll(a', p, r);
    } else {
      var a' := a[1..];
      assert s[1..] == a' + b;
      NoStraddleDrop(a, b, p, 1);
      ReplaceAllConcat(a', b, p, r);
      assert ReplaceAll(s, p, r) == [a[0]] + ReplaceAll(a' + b, p, r);
      if |a| >= |p| {
        assert a[..|p|] == s[..|p|];
        assert ReplaceAll(a, p, r) == [a[0]] + ReplaceAll(a', p, r);
      } else {
        assert ReplaceAll(a', p, r) == a';
        assert a == [a[0]] + a';
      }
    }
  }

  /** A single occurrence, which nothing before it overlaps, is replaced and
      the text around it is kept. */
  lemma ReplaceAllOnce(a: string, p: string, b: string, r: string)
    requires p != [] && NoStraddle(a, p + b, p)
    requires !Contains(a, p) && !Contains(b, p)
    ensures ReplaceAll(a + p + b, p, r) == a + r + b
  {
    assert a + p + b == a + (p + b);
    ReplaceAllConcat(a, p + b, p, r);
    ReplaceAllAbsent(a, p, r);
    ReplaceAllHead(p, b, r);
    ReplaceAllAbsent(b, p, r);
  }

  /** Replacing a single character is a character-by-character map: it
      distributes over every concatenation. */
  lemma ReplaceCharConcat(a: string, b: string, c: char, r: string)
    ensures ReplaceAll(a + b, [c], r) == ReplaceAll(a, [c], r) + ReplaceAll(b, [c], r)
  {
    ReplaceAllConcat(a, b, [c], r);
  }

  /** After replacing every `c` by a text without `c`, no `c` is left. */
  lemma {:induction false} ReplaceCharRemoves(s: string, c: char, r: string)
    requires c !in r
    ensures c !in ReplaceAll(s, [c], r)
    decreases |s|
  {
    if s != [] {
      ReplaceCharRemoves(s[1..], c, r);
    }
  }

  /** A character other than `c` survives the replacement only where it was
      already, or where the replacement text brings it. */
  lemma {:induction false} ReplaceCharKeeps(s: string, c: char, r: string, d: char)
    requires d != c && d !in r
    ensures d in ReplaceAll(s, [c], r) <==> d in s
    decreases |s|
  {
    if s != [] {
      ReplaceCharKeeps(s[1..], c, r, d);
      assert s == [s[0]] + s[1..];
    }
  }

  // ---------------------------------------------------------------------
  // Trimming

  /** Python's `str.isspace()` for one character. */
  predicate PySpace(c: char)
  {
    c == ' ' || '\t' <= c <= '\r' || '\U{1c}' <= c <= '\U{1f}' || c == '\U{85}' || c == '\U{a0}'
    || c == '\U{1680}' || '\U{2000}' <= c <= '\U{200a}' || c == '\U{2028}' || c == '\U{2029}'
    || c == '\U{202f}' || c == '\U{205f}' || c == '\U{3000}'
  }

  /** JavaScript's white space and line terminators: what `trim()` removes and
      what the regular-expression class `\s` matches. */
  predicate JsSpace(c: char)
  {
    c == ' ' || '\t' <= c <= '\r' || c == '\U{a0}' || c == '\U{1680}' || '\U{2000}' <= c <= '\U{200a}'
    || c == '\U{2028}' || c == '\U{2029}' || c == '\U{202f}' || c == '\U{205f}' || c == '\U{3000}'
    || c == '\U{feff}'
  }

  /** Drops the longest prefix of characters that `drop` selects. */
  function TrimStart(s: string, drop: char -> bool): (t: string)
    ensures |t| <= |s| && t == s[|s| - |t|..]
    ensures forall i :: 0 <= i < |s| - |t| ==> drop(s[i])
    ensures t != [] ==> !drop(t[0])
    decreases |s|
  {
    if s != [] && drop(s[0]) then TrimStart(s[1..], drop) else s
  }

  /** Drops the longest suffix of characters that `drop` selects. */
  function TrimEnd(s: string, drop: char -> bool): (t: string)
    ensures |t| <= |s| && t == s[..|t|]
    ensures forall i :: |t| <= i < |s| ==> drop(s[i])
    ensures t != [] ==> !drop(t[|t| - 1])
    decreases |s|
  {
    if s != [] && drop(s[|s| - 1]) then TrimEnd(s[..|s| - 1], drop) else s
  }

  /** Python's `s.strip(chars)` and JavaScript's `s.trim()`: both ends
      trimmed. The result is the slice of `s` that starts at the first kept
      character and ends at the last one. */
  function Strip(s: string, drop: char -> bool): (t: string)
    ensures |t| <= |TrimStart(s, drop)| <= |s|
    ensures t != [] ==> !drop(t[0]) && !drop(t[|t| - 1])
    ensures t == s[|s| - |TrimStart(s, drop)|..|s| - |TrimStart(s, drop)| + |t|]
    ensures forall i :: 0 <= i < |s| && !drop(s[i]) ==> t != []
  {
    var head := TrimStart(s, drop);
    var t := TrimEnd(head, drop);
    assert t == s[|s| - |head|..|s| - |head| + |t|];
    t
  }

  /** Trimming stops at the first kept character... */
  lemma TrimStartKept(s: string, drop: char -> bool)
    requires s != [] && !drop(s[0])
    ensures TrimStart(s, drop) == s
  {
  }

  /** ...after dropping every dropped one before it. */
  lemma TrimStartDropped(c: char, s: string, drop: char -> bool)
    requires drop(c)
    ensures TrimStart([c] + s, drop) == TrimStart(s, drop)
  {
    assert ([c] + s)[1..] == s;
  }

  /** Trimming the end stops at the last kept character. */
  lemma TrimEndKept(s: string, drop: char -> bool)
    requires s != [] && !drop(s[|s| - 1])
    ensures TrimEnd(s, drop) == s
  {
  }

  /** Stripping gives a piece of the text. */
  lemma StripSlice(s: string, drop: char -> bool)
    ensures Contains(s, Strip(s, drop))
  {
    var t := Strip(s, drop);
    assert OccursAt(s, t, |s| - |TrimStart(s, drop)|);
  }

  /** Python's `s.strip()`. */
  function PyStrip(s: string): (t: string)
  {
    Strip(s, PySpace)
  }

  /** JavaScript's `s.trim()`. */
  function JsTrim(s: string): (t: string)
  {
    Strip(s, JsSpace)
  }

  /** A text is blank exactly when every character is white space, and then
      trimming leaves nothing. */
  lemma JsTrimEmpty(s: string)
    ensures JsTrim(s) == "" <==> forall i :: 0 <= i < |s| ==> JsSpace(s[i])
  {
  }

  // ---------------------------------------------------------------------
  // Numbers

  function DigitChar(d: nat): char
    requires d < 10
  {
    "0123456789"[d]
  }

  predicate IsDigit(c: char)
  {
    '0' <= c <= '9'
  }

  /** The decimal digits of `n`, without leading zeros (`str(n)`,
      `String(n)`). */
  function NatText(n: nat): (t: string)
    ensures t != [] && forall i :: 0 <= i < |t| ==> IsDigit(t[i])
    ensures |t| > 1 ==> t[0] != '0'
  {
    if n < 10 then [DigitChar(n)] else NatText(n / 10) + [DigitChar(n % 10)]
  }

  /** The number a string of decimal digits denotes. */
  function DecimalValue(t: string): nat
    requires forall i :: 0 <= i < |t| ==> IsDigit(t[i])
  {
    if t == [] then 0
    else
      var d := t[|t| - 1];
      assert IsDigit(d);
      10 * DecimalValue(t[..|t| - 1]) + (d as int - '0' as int)
  }

  /** Rendering a number in decimal and reading it back gives the number. */
  lemma {:induction false} NatTextValue(n: nat)
    ensures DecimalValue(NatText(n)) == n
  {
    if n >= 10 {
      NatTextValue(n / 10);
      var t := NatText(n);
      assert t[..|t| - 1] == NatText(n / 10);
    }
  }

  /** JavaScript's rendering of an integral number: a minus sign and the
      digits. */
  function IntText(i: int): (t: string)
    ensures i < 0 <==> (t != [] && t[0] == '-')
  {
    if i < 0 then "-" + NatText(-i) else NatText(i)
  }
}
