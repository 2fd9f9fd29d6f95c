/** The history page (static/js/history.js): its markdown renderer
    (`parseMarkdown` and the table callback of `parseTables`), the list of
    saved notes with its delete filter, and the modal that shows one note.
    The answers of the history endpoint and the user's confirmation are
    parameters; the regular-expression stages other than escaping and the
    table callback are a parameter too. */
module History {
  import opened Results
  import opened Strings
  import Html

  // ---------------------------------------------------------------------
  // parseMarkdown

  /** `parseMarkdown`: '' for an empty text; otherwise the escaped text
      goes through the line stages (headers, emphasis, lists, rules, line
      breaks), is wrapped in one paragraph, and the result goes through the
      table stage. */
  function ParseMarkdown(md: string, lineStages: string -> string, tableStage: string -> string): (html: string)
    ensures md == "" ==> html == ""
    ensures md != "" ==> html == tableStage("<p>" + lineStages(Html.EscapeEach(md, false)) + "</p>")
  {
    if md == "" then ""
    else
      Html.EscapeMarkupEach(md);
      tableStage("<p>" + lineStages(Html.EscapeMarkup(md)) + "</p>")
  }

  // ---------------------------------------------------------------------
  // The table callback of parseTables

  /** `parts.map(c => c.trim()).filter(Boolean)`: the trimmed pieces that
      are not empty. */
  function TrimmedCells(parts: seq<string>): (cells: seq<string>)
    ensures |cells| <= |parts|
    ensures forall k :: 0 <= k < |cells| ==> Clean(cells[k])
  {
    if parts == [] then []
    else
      var head := CellOf(parts[0]);
      var rest := TrimmedCells(parts[1..]);
      CleanJoin(head, rest);
      head + rest
  }

  /** A cell is non-empty and neither starts nor ends with white space. */
  predicate Clean(cell: string)
  {
    cell != "" && !JsSpace(cell[0]) && !JsSpace(cell[|cell| - 1])
  }

  lemma CleanJoin(a: seq<string>, b: seq<string>)
    requires forall k :: 0 <= k < |a| ==> Clean(a[k])
    requires forall k :: 0 <= k < |b| ==> Clean(b[k])
    ensures forall k :: 0 <= k < |a + b| ==> Clean((a + b)[k])
  {
    forall k | 0 <= k < |a + b| ensures Clean((a + b)[k]) {
      if k >= |a| {
        assert (a + b)[k] == b[k - |a|];
      }
    }
  }

  /** One piece trimmed, or nothing when it is blank. */
  function CellOf(piece: string): (cell: seq<string>)
    ensures |cell| <= 1
    ensures cell != [] ==> cell[0] == JsTrim(piece) && Clean(cell[0])
  {
    if JsTrim(piece) != "" then [JsTrim(piece)] else []
  }

  /** The cells of a header or body row. */
  function RowCells(row: string): seq<string>
  {
    TrimmedCells(Split(row, "|"))
  }

  /** `body.split('<br>').filter(r => r.includes('|'))`. */
  function WithBars(pieces: seq<string>): (rows: seq<string>)
    ensures |rows| <= |pieces|
    ensures forall k :: 0 <= k < |rows| ==> '|' in rows[k]
  {
    if pieces == [] then []
    else (if '|' in pieces[0] then [pieces[0]] else []) + WithBars(pieces[1..])
  }

  function BodyRows(body: string): seq<string>
  {
    WithBars(Split(body, "<br>"))
  }

  /** A cell that `/^[-:]+$/` matches. */
  predicate IsRuleCell(cell: string)
  {
    cell != "" && forall i :: 0 <= i < |cell| ==> cell[i] == '-' || cell[i] == ':'
  }

  /** A body row is emitted when it has a cell and its first cell is not a
      rule. */
  predicate Emitted(cells: seq<string>)
  {
    cells != [] && !IsRuleCell(cells[0])
  }

  /** The cells inside `tag`, in order. */
  function CellTags(cells: seq<string>, tag: string): string
  {
    if cells == [] then "" else CellTags(cells[..|cells| - 1], tag) + CellTag(cells[|cells| - 1], tag)
  }

  /** One cell inside `tag`. */
  function CellTag(cell: string, tag: string): string
  {
    "<" + tag + ">" + cell + "</" + tag + ">"
  }

  lemma CellTagsSnoc(cells: seq<string>, i: nat, tag: string)
    requires i < |cells|
    ensures CellTags(cells[..i + 1], tag) == CellTags(cells[..i], tag) + CellTag(cells[i], tag)
  {
    assert cells[..i + 1][..i] == cells[..i];
  }

  /** What one body row emits. */
  function BodyRowHtml(row: string): string
  {
    var cells := RowCells(row);
    if Emitted(cells) then "<tr>" + CellTags(cells, "td") + "</tr>" else ""
  }

  /** What the body rows emit, in order. */
  function BodyHtml(rows: seq<string>): string
  {
    if rows == [] then "" else BodyHtml(rows[..|rows| - 1]) + BodyRowHtml(rows[|rows| - 1])
  }

  /** The table a match of the table pattern becomes, from its header
      group and its body group. */
  function TableSpec(header: string, body: string): string
  {
    "<table><thead><tr>" + CellTags(RowCells(header), "th") + "</tr></thead><tbody>"
    + BodyHtml(BodyRows(body)) + "</tbody></table>"
  }

  /** `cells.forEach(cell => { table += ... })`. */
  method AppendCells(table: string, cells: seq<string>, tag: string) returns (t: string)
    ensures t == table + CellTags(cells, tag)
  {
    t := table;
    for i := 0 to |cells|
      invariant t == table + CellTags(cells[..i], tag)
    {
      CellTagsSnoc(cells, i, tag);
      ConcatAssociative(table, CellTags(cells[..i], tag), CellTag(cells[i], tag));
      t := t + CellTag(cells[i], tag);
    }
    assert cells[..|cells|] == cells;
  }

  /** The body loop's step on one row: its cells as data cells, unless it
      has none or its first cell is a rule. */
  method AppendRow(table: string, row: string) returns (t: string)
    ensures t == table + BodyRowHtml(row)
  {
    var cells := RowCells(row);
    t := table;
    if Emitted(cells) {
      t := t + "<tr>";
      t := AppendCells(t, cells, "td");
      t := t + "</tr>";
      Wrapped(table, "<tr>", CellTags(cells, "td"), "</tr>");
    } else {
      assert BodyRowHtml(row) == "";
    }
  }

  lemma Wrapped(table: string, open: string, inner: string, close: string)
    ensures ((table + open) + inner) + close == table + (open + inner + close)
  {
  }

  lemma BodyHtmlSnoc(rows: seq<string>, i: nat)
    requires i < |rows|
    ensures BodyHtml(rows[..i + 1]) == BodyHtml(rows[..i]) + BodyRowHtml(rows[i])
  {
    assert rows[..i + 1][..i] == rows[..i];
  }

  /** `rows.forEach(row => ...)`. */
  method AppendRows(table: string, rows: seq<string>) returns (t: string)
    ensures t == table + BodyHtml(rows)
  {
    t := table;
    assert rows[..0] == [];
    for i := 0 to |rows|
      invariant t == table + BodyHtml(rows[..i])
    {
      t := AppendRow(t, rows[i]);
      BodyHtmlSnoc(rows, i);
      ConcatAssociative(table, BodyHtml(rows[..i]), BodyRowHtml(rows[i]));
    }
    assert rows[..|rows|] == rows;
  }

  /** The callback of `parseTables`. */
  method BuildTable(header: string, body: string) returns (table: string)
    ensures table == TableSpec(header, body)
  {
    var headerCells := RowCells(header);
    var rows := BodyRows(body);
    table := "<table><thead><tr>";
    table := AppendCells(table, headerCells, "th");
    table := table + "</tr></thead><tbody>";
    table := AppendRows(table, rows);
    table := table + "</tbody></table>";
  }

  /** Every header cell and every body cell is non-empty and has no white
      space at either end, and every body row holds a bar. */
  lemma CellsAreClean(header: string, body: string)
    ensures AllClean(RowCells(header))
    ensures forall r :: r in BodyRows(body) ==> '|' in r && AllClean(RowCells(r))
  {
  }

  /** Every cell is non-empty and has no white space at either end. */
  predicate AllClean(cells: seq<string>)
  {
    forall k :: 0 <= k < |cells| ==> Clean(cells[k])
  }

  /** Every character of `s` satisfies `keep`. */
  predicate AllKept(s: string, keep: char -> bool)
  {
    forall i :: 0 <= i < |s| ==> keep(s[i])
  }

  /** The pieces of a text split at `c` hold only characters of the text
      other than `c`. */
  lemma {:induction false} SplitChars(s: string, c: char, keep: char -> bool)
    requires forall i :: 0 <= i < |s| ==> s[i] == c || keep(s[i])
    ensures EachKept(Split(s, [c]), keep)
    decreases |s|
  {
    var parts := Split(s, [c]);
    ContainsChar(parts[0], c);
    match IndexOf(s, [c])
    case None =>
      assert parts == [s];
    case Some(j) =>
      var rest := s[j + 1..];
      SplitChars(rest, c, keep);
      assert parts == [s[..j]] + Split(rest, [c]);
      assert AllKept(parts[0], keep) by {
        forall i | 0 <= i < j ensures keep(parts[0][i]) {
          assert parts[0][i] == s[i];
        }
      }
      forall k | 1 <= k < |parts| ensures AllKept(parts[k], keep) {
        assert parts[k] == Split(rest, [c])[k - 1];
      }
  }

  /** Trimming keeps only characters of the text. */
  lemma TrimKept(piece: string, keep: char -> bool)
    requires AllKept(piece, keep)
    ensures AllKept(JsTrim(piece), keep)
  {
    var t := JsTrim(piece);
    var start := |piece| - |TrimStart(piece, JsSpace)|;
    forall i | 0 <= i < |t| ensures keep(t[i]) {
      assert t[i] == piece[start + i];
    }
  }

  /** Every piece of `pieces` holds only characters satisfying `keep`. */
  predicate EachKept(pieces: seq<string>, keep: char -> bool)
  {
    forall k :: 0 <= k < |pieces| ==> AllKept(pieces[k], keep)
  }

  lemma EachKeptJoin(a: seq<string>, b: seq<string>, keep: char -> bool)
    requires EachKept(a, keep) && EachKept(b, keep)
    ensures EachKept(a + b, keep)
  {
    forall k | 0 <= k < |a + b| ensures AllKept((a + b)[k], keep) {
      if k >= |a| {
        assert (a + b)[k] == b[k - |a|];
      }
    }
  }

  /** Trimming and dropping empty pieces keeps only characters of the
      pieces. */
  lemma {:induction false} TrimmedCellsChars(parts: seq<string>, keep: char -> bool)
    requires EachKept(parts, keep)
    ensures EachKept(TrimmedCells(parts), keep)
    decreases |parts|
  {
    if parts != [] {
      assert AllKept(parts[0], keep);
      assert EachKept(parts[1..], keep) by {
        forall k | 0 <= k < |parts[1..]| ensures AllKept(parts[1..][k], keep) {
          assert parts[1..][k] == parts[k + 1];
        }
      }
      TrimmedCellsChars(parts[1..], keep);
      TrimKept(parts[0], keep);
      EachKeptJoin(CellOf(parts[0]), TrimmedCells(parts[1..]), keep);
    }
  }

  predicate IsRuleChar(c: char)
  {
    c == '-' || c == ':'
  }

  /** A body row made of bars, dashes and colons only (a markdown rule row
      written without spaces) emits nothing. */
  lemma RuleRowDropped(row: string)
    requires forall i :: 0 <= i < |row| ==> row[i] == '|' || IsRuleChar(row[i])
    ensures BodyRowHtml(row) == ""
  {
    SplitChars(row, '|', IsRuleChar);
    TrimmedCellsChars(Split(row, "|"), IsRuleChar);
    var cells := RowCells(row);
    if cells != [] {
      assert AllKept(cells[0], IsRuleChar);
      assert IsRuleCell(cells[0]);
    }
  }

  // ---------------------------------------------------------------------
  // The note list and the modal

  /** An entry of `historyData`: its id, title and notes. */
  datatype Note = Note(id: string, title: string, notes: string)

  /** `historyData.filter(n => n.id !== noteId)`. */
  function Without(notes: seq<Note>, id: string): (kept: seq<Note>)
    ensures |kept| <= |notes|
    ensures forall k :: 0 <= k < |kept| ==> kept[k].id != id && kept[k] in notes
  {
    if notes == [] then [] else Kept(notes[0], id) + Without(notes[1..], id)
  }

  /** One entry, or nothing when it has the id. */
  function Kept(note: Note, id: string): (kept: seq<Note>)
    ensures |kept| <= 1
    ensures kept != [] ==> kept[0] == note && note.id != id
    ensures note.id != id ==> kept != []
  {
    if note.id != id then [note] else []
  }

  /** The number of entries with a given id. */
  function CountId(notes: seq<Note>, id: string): nat
  {
    if notes == [] then 0 else (if notes[0].id == id then 1 else 0) + CountId(notes[1..], id)
  }

  lemma NotesAssociative(a: seq<Note>, b: seq<Note>, c: seq<Note>)
    ensures a + (b + c) == (a + b) + c
  {
  }

  /** The filter keeps the order: it filters the parts of a list
      separately. */
  lemma {:induction false} WithoutConcat(a: seq<Note>, b: seq<Note>, id: string)
    ensures Without(a + b, id) == Without(a, id) + Without(b, id)
    decreases |a|
  {
    if a != [] {
      WithoutConcat(a[1..], b, id);
      var ab := a + b;
      assert ab[0] == a[0] && ab[1..] == a[1..] + b;
      NotesAssociative(Kept(a[0], id), Without(a[1..], id), Without(b, id));
    } else {
      assert a + b == b;
    }
  }

  /** It removes exactly the entries with the id: the others stay, and the
      list shrinks by the number of entries with the id. */
  lemma {:induction false} WithoutRemovesExactly(notes: seq<Note>, id: string)
    ensures forall n :: n in notes && n.id != id ==> n in Without(notes, id)
    ensures |Without(notes, id)| == |notes| - CountId(notes, id)
    decreases |notes|
  {
    if notes != [] {
      WithoutRemovesExactly(notes[1..], id);
      forall n | n in notes && n.id != id ensures n in Without(notes, id) {
        if n != notes[0] {
          assert n in notes[1..];
        }
      }
    }
  }

  /** A list without the id is left as it is. */
  lemma {:induction false} WithoutAbsent(notes: seq<Note>, id: string)
    requires forall k :: 0 <= k < |notes| ==> notes[k].id != id
    ensures Without(notes, id) == notes
    decreases |notes|
  {
    if notes != [] {
      WithoutAbsent(notes[1..], id);
    }
  }

  /** `historyData.find(n => n.id === id)`: the first entry with the id. */
  function Find(notes: seq<Note>, id: string): (r: Option<Note>)
    ensures r.Some? ==> r.value in notes && r.value.id == id
    ensures r.None? <==> forall k :: 0 <= k < |notes| ==> notes[k].id != id
  {
    if notes == [] then None
    else if notes[0].id == id then Some(notes[0])
    else Find(notes[1..], id)
  }

  /** After the filter, nothing with the id is found. */
  lemma FindWithout(notes: seq<Note>, id: string)
    ensures Find(Without(notes, id), id) == None
  {
  }

  /** The page's state: the loaded list, the note the modal shows, whether
      the modal is open and whether the empty state is shown. */
  class HistoryPage {
    var historyData: seq<Note>
    var currentNoteId: Option<string>
    var modalOpen: bool
    var emptyShown: bool

    constructor ()
      ensures historyData == [] && currentNoteId == None && !modalOpen && !emptyShown
    {
      historyData := [];
      currentNoteId := None;
      modalOpen := false;
      emptyShown := false;
    }

    /** `loadHistory`: a failed request shows the empty state; otherwise
        the list is the answer's history, `[]` when it has none, and an
        empty list shows the empty state. */
    method LoadHistory(ok: bool, history: Option<seq<Note>>)
      modifies this
      ensures !ok ==> historyData == old(historyData) && emptyShown
      ensures ok ==> historyData == (if history.Some? then history.value else [])
      ensures ok ==> emptyShown == (old(emptyShown) || historyData == [])
      ensures currentNoteId == old(currentNoteId) && modalOpen == old(modalOpen)
    {
      if !ok {
        emptyShown := true;
        return;
      }
      historyData := if history.Some? then history.value else [];
      if |historyData| == 0 {
        emptyShown := true;
      }
    }

    /** `deleteNote`: nothing happens unless the user confirms and the
        server answers ok; then every entry with the id leaves the list,
        and an empty list shows the empty state. */
    method DeleteNote(noteId: string, confirmed: bool, ok: bool)
      modifies this
      ensures historyData == if confirmed && ok then Without(old(historyData), noteId) else old(historyData)
      ensures emptyShown == (old(emptyShown) || (confirmed && ok && historyData == []))
      ensures currentNoteId == old(currentNoteId) && modalOpen == old(modalOpen)
    {
      if !confirmed {
        return;
      }
      if ok {
        historyData := Without(historyData, noteId);
        if |historyData| == 0 {
          emptyShown := true;
        }
      }
    }

    /** `openModal`: the modal shows the item. */
    method OpenModal(item: Note)
      modifies this
      ensures currentNoteId == Some(item.id) && modalOpen
      ensures historyData == old(historyData) && emptyShown == old(emptyShown)
    {
      currentNoteId := Some(item.id);
      modalOpen := true;
    }

    /** `closeModal`: no note is current. */
    method CloseModal()
      modifies this
      ensures currentNoteId == None && !modalOpen
      ensures historyData == old(historyData) && emptyShown == old(emptyShown)
    {
      modalOpen := false;
      currentNoteId := None;
    }

    /** The note the copy button copies: the first entry whose id is the
        current one, none when no note is current. */
    function CopyTarget(): (r: Option<Note>)
      reads this
      ensures r.Some? ==> currentNoteId == Some(r.value.id) && r.value in historyData
      ensures currentNoteId.None? ==> r.None?
    {
      if currentNoteId.None? then None else Find(historyData, currentNoteId.value)
    }

    /** The modal's delete button: when a note is current (an empty id
        counts as none), it is deleted as `deleteNote` does and the modal
        closes. */
    method DeleteCurrent(confirmed: bool, ok: bool)
      modifies this
      ensures var guard := old(currentNoteId).Some? && old(currentNoteId).value != "";
              guard ==> historyData == (if confirmed && ok then Without(old(historyData), old(currentNoteId).value) else old(historyData))
                        && currentNoteId == None && !modalOpen
      ensures var guard := old(currentNoteId).Some? && old(currentNoteId).value != "";
              !guard ==> historyData == old(historyData) && currentNoteId == old(currentNoteId) && modalOpen == old(modalOpen)
      ensures CopyTarget() == None || historyData == old(historyData)
    {
      if currentNoteId.Some? && currentNoteId.value != "" {
        DeleteNote(currentNoteId.value, confirmed, ok);
        CloseModal();
      }
    }
  }

  /** Opening an entry of the list makes it what the copy button finds,
      when no earlier entry has the same id. */
  lemma OpenThenCopy(notes: seq<Note>, k: nat)
    requires k < |notes|
    requires forall j :: 0 <= j < k ==> notes[j].id != notes[k].id
    ensures Find(notes, notes[k].id) == Some(notes[k])
    decreases k
  {
    if k > 0 {
      OpenThenCopy(notes[1..], k - 1);
    }
  }
}
