/** The text of a printed diff, and a reader that recovers the hunks from it. */
module DiffText {
  import opened Options
  import opened Sequences
  import opened Text

  /** Lines `removed` from old line `oldStart` on, replaced by `added` from new line `newStart` on (1-based). */
  datatype Hunk = Hunk(oldStart: nat, newStart: nat, removed: seq<string>, added: seq<string>)

  function IndexOf(text: string, c: char): (i: nat)
    ensures i <= |text| && (i < |text| ==> text[i] == c) && c !in text[..i]
  {
    if text == "" || text[0] == c then 0 else
      var i := 1 + IndexOf(text[1..], c);
      assert text[..i] == [text[0]] + text[1..][..i - 1];
      i
  }

  // ---------------------------------------------------------------- printing

  function Marked(mark: char, lines: seq<string>): string {
    if lines == [] then "" else Marked(mark, lines[..|lines| - 1]) + [mark] + lines[|lines| - 1] + "\n"
  }

  function RenderHunk(h: Hunk): string {
    "@@ -" + Decimal(h.oldStart) + "," + Decimal(|h.removed|)
    + " +" + Decimal(h.newStart) + "," + Decimal(|h.added|) + " @@\n"
    + Marked('-', h.removed) + Marked('+', h.added)
  }

  function Render(hunks: seq<Hunk>): string {
    if hunks == [] then "" else Render(hunks[..|hunks| - 1]) + RenderHunk(hunks[|hunks| - 1])
  }

  // ---------------------------------------------------------------- reading numbers and headers

  predicate IsDigit(c: char) { '0' <= c <= '9' }

  function Number(s: string): Option<nat> {
    if s == "" || !IsDigit(s[|s| - 1]) then None
    else
      var units := s[|s| - 1] as int - '0' as int;
      if |s| == 1 then Some(units)
      else match Number(s[..|s| - 1])
        case None => None
        case Some(tens) => Some(10 * tens + units)
  }

  /** What stands before and after the first `c`. */
  function Cut(s: string, c: char): Option<(string, string)> {
    var i := IndexOf(s, c);
    if i == |s| then None else Some((s[..i], s[i + 1..]))
  }

  /** What stands after a fixed beginning. */
  function Strip(s: string, start: string): Option<string> {
    if |start| <= |s| && s[..|start|] == start then Some(s[|start|..]) else None
  }

  /** A number up to the first `c`, and the rest. */
  function NumberTo(s: string, c: char): Option<(nat, string)> {
    match Cut(s, c)
    case None => None
    case Some((digits, rest)) =>
      match Number(digits)
      case None => None
      case Some(n) => Some((n, rest))
  }

  /** `start,count` up to a blank. */
  function Range(s: string): Option<(nat, nat, string)> {
    match NumberTo(s, ',')
    case None => None
    case Some((start, more)) =>
      match NumberTo(more, ' ')
      case None => None
      case Some((count, rest)) => Some((start, count, rest))
  }

  /** A hunk as read so far, with the counts its header announced. */
  datatype Draft = Draft(hunk: Hunk, oldCount: nat, newCount: nat)

  function Header(row: string): Option<Draft> {
    match Strip(row, "@@ -")
    case None => None
    case Some(s) =>
      match Range(s)
      case None => None
      case Some((oldStart, oldCount, more)) =>
        match Strip(more, "+")
        case None => None
        case Some(t) =>
          match Range(t)
          case None => None
          case Some((newStart, newCount, rest)) =>
            if rest == "@@" then Some(Draft(Hunk(oldStart, newStart, [], []), oldCount, newCount)) else None
  }

  // ---------------------------------------------------------------- reading rows

  /** The rows of a text, split at newlines only. */
  function Rows(text: string): seq<string>
    decreases |text|
  {
    if text == "" then [] else
      var i := IndexOf(text, '\n');
      if i == |text| then [text] else [text[..i]] + Rows(text[i + 1..])
  }

  /** One more row: a header opens a hunk; '-' and '+' rows belong to the last one, removed before added. */
  function ReadRow(drafts: seq<Draft>, row: string): Option<seq<Draft>> {
    if row == "" then None
    else if row[0] == '@' then
      match Header(row)
      case None => None
      case Some(d) => Some(drafts + [d])
    else if drafts == [] then None
    else
      var init, d := drafts[..|drafts| - 1], drafts[|drafts| - 1];
      if row[0] == '-' && d.hunk.added == [] then
        Some(init + [d.(hunk := d.hunk.(removed := d.hunk.removed + [row[1..]]))])
      else if row[0] == '+' then Some(init + [d.(hunk := d.hunk.(added := d.hunk.added + [row[1..]]))])
      else None
  }

  function ReadRows(rows: seq<string>): Option<seq<Draft>> {
    if rows == [] then Some([])
    else match ReadRows(rows[..|rows| - 1])
      case None => None
      case Some(drafts) => ReadRow(drafts, rows[|rows| - 1])
  }

  predicate Counted(d: Draft) { |d.hunk.removed| == d.oldCount && |d.hunk.added| == d.newCount }

  function HunksOf(drafts: seq<Draft>): seq<Hunk> {
    seq(|drafts|, i requires 0 <= i < |drafts| => drafts[i].hunk)
  }

  /** The hunks of a printed text, if every row reads and every count is as announced. */
  function ReadHunks(text: string): Option<seq<Hunk>> {
    match ReadRows(Rows(text))
    case None => None
    case Some(drafts) => if forall d :: d in drafts ==> Counted(d) then Some(HunksOf(drafts)) else None
  }

  // ---------------------------------------------------------------- numbers read back

  lemma {:induction false} DecimalReads(n: nat)
    ensures Number(Decimal(n)) == Some(n)
    ensures Decimal(n) != "" && forall c :: c in Decimal(n) ==> IsDigit(c)
  {
    if n >= 10 {
      DecimalReads(n / 10);
      var s := Decimal(n);
      assert s[..|s| - 1] == Decimal(n / 10);
    }
  }

  lemma {:induction false} IndexAfter(a: string, c: char, b: string)
    requires c !in a
    ensures IndexOf(a + [c] + b, c) == |a|
  {
    if a != "" {
      IndexAfter(a[1..], c, b);
      assert (a + [c] + b)[1..] == a[1..] + [c] + b;
    }
  }

  lemma NumberReads(n: nat, c: char, rest: string)
    requires !IsDigit(c)
    ensures NumberTo(Decimal(n) + [c] + rest, c) == Some((n, rest))
  {
    DecimalReads(n);
    IndexAfter(Decimal(n), c, rest);
    var s := Decimal(n) + [c] + rest;
    assert s[..|Decimal(n)|] == Decimal(n) && s[|Decimal(n)| + 1..] == rest;
  }

  lemma RangeReads(start: nat, count: nat, rest: string)
    ensures Range(Decimal(start) + "," + (Decimal(count) + " " + rest)) == Some((start, count, rest))
  {
    NumberReads(start, ',', Decimal(count) + " " + rest);
    NumberReads(count, ' ', rest);
  }

  function HeaderRow(oldStart: nat, oldCount: nat, newStart: nat, newCount: nat): string {
    "@@ -" + (Decimal(oldStart) + "," + (Decimal(oldCount) + " "
      + ("+" + (Decimal(newStart) + "," + (Decimal(newCount) + " " + "@@")))))
  }

  /** A header's four numbers read back. */
  lemma HeaderReads(oldStart: nat, oldCount: nat, newStart: nat, newCount: nat)
    ensures Header(HeaderRow(oldStart, oldCount, newStart, newCount)) ==
              Some(Draft(Hunk(oldStart, newStart, [], []), oldCount, newCount))
  {
    var second := Decimal(newStart) + "," + (Decimal(newCount) + " " + "@@");
    var first := Decimal(oldStart) + "," + (Decimal(oldCount) + " " + ("+" + second));
    RangeReads(newStart, newCount, "@@");
    RangeReads(oldStart, oldCount, "+" + second);
    StripReads("@@ -", first);
    StripReads("+", second);
    HeaderParts("@@ -" + first, first, "+" + second, second, oldStart, oldCount, newStart, newCount);
  }

  lemma StripReads(start: string, rest: string)
    ensures Strip(start + rest, start) == Some(rest)
  {
    assert (start + rest)[..|start|] == start && (start + rest)[|start|..] == rest;
  }

  lemma HeaderParts(row: string, first: string, more: string, second: string, oldStart: nat, oldCount: nat,
                    newStart: nat, newCount: nat)
    requires Strip(row, "@@ -") == Some(first) && Range(first) == Some((oldStart, oldCount, more))
    requires Strip(more, "+") == Some(second) && Range(second) == Some((newStart, newCount, "@@"))
    ensures Header(row) == Some(Draft(Hunk(oldStart, newStart, [], []), oldCount, newCount))
  {
  }

  // ---------------------------------------------------------------- rows read back

  predicate WholeRows(text: string) { text == "" || text[|text| - 1] == '\n' }

  lemma RowsFirst(text: string, row: string, rest: string)
    requires text == row + ['\n'] + rest && '\n' !in row
    ensures Rows(text) == [row] + Rows(rest)
  {
    IndexAfter(row, '\n', rest);
    assert text[..|row|] == row && text[|row| + 1..] == rest;
  }

  lemma SplitFirstRow(a: string) returns (row: string, rest: string)
    requires WholeRows(a) && a != ""
    ensures a == row + ['\n'] + rest && '\n' !in row && WholeRows(rest) && |rest| < |a|
  {
    var i := IndexOf(a, '\n');
    assert '\n' in a && a[..|a|] == a;
    row, rest := a[..i], a[i + 1..];
  }

  lemma {:induction false} RowsConcat(a: string, b: string)
    requires WholeRows(a)
    ensures Rows(a + b) == Rows(a) + Rows(b)
    decreases |a|
  {
    if a == "" {
      assert a + b == b;
    } else {
      var row, rest := SplitFirstRow(a);
      Regroup(row + ['\n'], rest, b);
      RowsFirst(a, row, rest);
      RowsFirst(a + b, row, rest + b);
      RowsConcat(rest, b);
      Regroup([row], Rows(rest), Rows(b));
    }
  }

  lemma OneRow(row: string)
    requires '\n' !in row
    ensures Rows(row + "\n") == [row] && WholeRows(row + "\n")
  {
    IndexAfter(row, '\n', "");
    assert row + ['\n'] + "" == row + "\n";
    assert (row + "\n")[..|row|] == row && (row + "\n")[|row| + 1..] == "";
  }

  predicate OneLiners(lines: seq<string>) { forall l :: l in lines ==> '\n' !in l }

  function MarkedRows(mark: char, lines: seq<string>): seq<string> {
    seq(|lines|, i requires 0 <= i < |lines| => [mark] + lines[i])
  }

  lemma RowsSnoc(text: string, row: string)
    requires WholeRows(text) && '\n' !in row
    ensures Rows(text + (row + "\n")) == Rows(text) + [row] && WholeRows(text + (row + "\n"))
  {
    OneRow(row);
    RowsConcat(text, row + "\n");
  }

  lemma MarkedSnoc(mark: char, init: seq<string>, l: string)
    ensures Marked(mark, init + [l]) == Marked(mark, init) + (([mark] + l) + "\n")
    ensures MarkedRows(mark, init + [l]) == MarkedRows(mark, init) + [[mark] + l]
  {
    assert (init + [l])[..|init|] == init;
    Regroup(Marked(mark, init), [mark], l);
    Regroup(Marked(mark, init), [mark] + l, "\n");
  }

  lemma {:induction false} RowsOfMarked(mark: char, lines: seq<string>)
    requires OneLiners(lines) && mark != '\n'
    ensures Rows(Marked(mark, lines)) == MarkedRows(mark, lines) && WholeRows(Marked(mark, lines))
  {
    if lines != [] {
      var init, l := lines[..|lines| - 1], lines[|lines| - 1];
      assert lines == init + [l];
      RowsOfMarked(mark, init);
      MarkedSnoc(mark, init, l);
      RowsSnoc(Marked(mark, init), [mark] + l);
    }
  }

  function HunkRows(h: Hunk): seq<string> {
    [HeaderRow(h.oldStart, |h.removed|, h.newStart, |h.added|)]
    + (MarkedRows('-', h.removed) + MarkedRows('+', h.added))
  }

  lemma HeaderIsOneRow(oldStart: nat, oldCount: nat, newStart: nat, newCount: nat)
    ensures '\n' !in HeaderRow(oldStart, oldCount, newStart, newCount)
  {
    DecimalReads(oldStart);
    DecimalReads(oldCount);
    DecimalReads(newStart);
    DecimalReads(newCount);
  }

  predicate Printable(h: Hunk) { OneLiners(h.removed) && OneLiners(h.added) }

  lemma HunkText(h: Hunk)
    ensures RenderHunk(h) == (HeaderRow(h.oldStart, |h.removed|, h.newStart, |h.added|) + "\n")
                             + (Marked('-', h.removed) + Marked('+', h.added))
  {
    HeaderText(Decimal(h.oldStart), Decimal(|h.removed|), Decimal(h.newStart), Decimal(|h.added|));
    var head := HeaderRow(h.oldStart, |h.removed|, h.newStart, |h.added|) + "\n";
    Regroup(head, Marked('-', h.removed), Marked('+', h.added));
  }

  lemma HeaderText(a: string, b: string, c: string, d: string)
    ensures "@@ -" + a + "," + b + " +" + c + "," + d + " @@\n" ==
            "@@ -" + (a + "," + (b + " " + ("+" + (c + "," + (d + " " + "@@"))))) + "\n"
  {
  }

  lemma RowsOfHunk(h: Hunk)
    requires Printable(h)
    ensures Rows(RenderHunk(h)) == HunkRows(h) && WholeRows(RenderHunk(h))
  {
    var head := HeaderRow(h.oldStart, |h.removed|, h.newStart, |h.added|);
    HeaderIsOneRow(h.oldStart, |h.removed|, h.newStart, |h.added|);
    RowsOfMarked('-', h.removed);
    RowsOfMarked('+', h.added);
    HunkText(h);
    RowsOfParts(head, Marked('-', h.removed), Marked('+', h.added));
  }

  lemma RowsOfParts(head: string, a: string, b: string)
    requires '\n' !in head && WholeRows(a) && WholeRows(b)
    ensures Rows((head + "\n") + (a + b)) == [head] + (Rows(a) + Rows(b)) && WholeRows((head + "\n") + (a + b))
  {
    FirstRow(head, a + b);
    RowsConcat(a, b);
  }

  // ---------------------------------------------------------------- hunks read back

  lemma ReadOneMore(rows: seq<string>, row: string)
    ensures ReadRows(rows + [row]) ==
              match ReadRows(rows) case None => None case Some(drafts) => ReadRow(drafts, row)
  {
    assert (rows + [row])[..|rows|] == rows;
  }

  lemma RemovedRow(drafts: seq<Draft>, d: Draft, l: string)
    requires d.hunk.added == []
    ensures ReadRow(drafts + [d], ['-'] + l) ==
              Some(drafts + [d.(hunk := d.hunk.(removed := d.hunk.removed + [l]))])
  {
    assert (drafts + [d])[..|drafts|] == drafts && (['-'] + l)[1..] == l;
  }

  lemma AddedRow(drafts: seq<Draft>, d: Draft, l: string)
    ensures ReadRow(drafts + [d], ['+'] + l) == Some(drafts + [d.(hunk := d.hunk.(added := d.hunk.added + [l]))])
  {
    assert (drafts + [d])[..|drafts|] == drafts && (['+'] + l)[1..] == l;
  }

  lemma {:induction false} RemovedReads(rows: seq<string>, drafts: seq<Draft>, d: Draft, lines: seq<string>)
    requires ReadRows(rows) == Some(drafts + [d]) && d.hunk.removed == [] && d.hunk.added == []
    ensures ReadRows(rows + MarkedRows('-', lines)) == Some(drafts + [d.(hunk := d.hunk.(removed := lines))])
    decreases |lines|
  {
    if lines == [] {
      assert rows + MarkedRows('-', lines) == rows;
    } else {
      var init, l := lines[..|lines| - 1], lines[|lines| - 1];
      assert lines == init + [l];
      RemovedReads(rows, drafts, d, init);
      MarkedSnoc('-', init, l);
      Regroup(rows, MarkedRows('-', init), [['-'] + l]);
      ReadOneMore(rows + MarkedRows('-', init), ['-'] + l);
      RemovedRow(drafts, d.(hunk := d.hunk.(removed := init)), l);
    }
  }

  lemma {:induction false} AddedReads(rows: seq<string>, drafts: seq<Draft>, d: Draft, lines: seq<string>)
    requires ReadRows(rows) == Some(drafts + [d]) && d.hunk.added == []
    ensures ReadRows(rows + MarkedRows('+', lines)) == Some(drafts + [d.(hunk := d.hunk.(added := lines))])
    decreases |lines|
  {
    if lines == [] {
      assert rows + MarkedRows('+', lines) == rows;
    } else {
      var init, l := lines[..|lines| - 1], lines[|lines| - 1];
      assert lines == init + [l];
      AddedReads(rows, drafts, d, init);
      MarkedSnoc('+', init, l);
      Regroup(rows, MarkedRows('+', init), [['+'] + l]);
      ReadOneMore(rows + MarkedRows('+', init), ['+'] + l);
      AddedRow(drafts, d.(hunk := d.hunk.(added := init)), l);
    }
  }

  function DraftOf(h: Hunk): Draft { Draft(h, |h.removed|, |h.added|) }

  lemma HeaderOpens(rows: seq<string>, drafts: seq<Draft>, h: Hunk)
    requires ReadRows(rows) == Some(drafts)
    ensures ReadRows(rows + [HeaderRow(h.oldStart, |h.removed|, h.newStart, |h.added|)]) ==
              Some(drafts + [Draft(Hunk(h.oldStart, h.newStart, [], []), |h.removed|, |h.added|)])
  {
    HeaderReads(h.oldStart, |h.removed|, h.newStart, |h.added|);
    ReadOneMore(rows, HeaderRow(h.oldStart, |h.removed|, h.newStart, |h.added|));
  }

  lemma HunkReads(rows: seq<string>, drafts: seq<Draft>, h: Hunk)
    requires ReadRows(rows) == Some(drafts)
    ensures ReadRows(rows + HunkRows(h)) == Some(drafts + [DraftOf(h)])
  {
    var head := HeaderRow(h.oldStart, |h.removed|, h.newStart, |h.added|);
    var d := Draft(Hunk(h.oldStart, h.newStart, [], []), |h.removed|, |h.added|);
    HeaderOpens(rows, drafts, h);
    RemovedReads(rows + [head], drafts, d, h.removed);
    AddedReads(rows + [head] + MarkedRows('-', h.removed), drafts, d.(hunk := d.hunk.(removed := h.removed)), h.added);
    Regroup(rows, [head], MarkedRows('-', h.removed) + MarkedRows('+', h.added));
    Regroup(rows + [head], MarkedRows('-', h.removed), MarkedRows('+', h.added));
  }

  function DraftsOf(hunks: seq<Hunk>): seq<Draft> {
    seq(|hunks|, i requires 0 <= i < |hunks| => DraftOf(hunks[i]))
  }

  lemma RenderSnoc(hunks: seq<Hunk>, h: Hunk)
    ensures Render(hunks + [h]) == Render(hunks) + RenderHunk(h)
    ensures DraftsOf(hunks + [h]) == DraftsOf(hunks) + [DraftOf(h)]
  {
    assert (hunks + [h])[..|hunks|] == hunks;
  }

  lemma {:induction false} RenderedReads(hunks: seq<Hunk>)
    requires forall h :: h in hunks ==> Printable(h)
    ensures WholeRows(Render(hunks)) && ReadRows(Rows(Render(hunks))) == Some(DraftsOf(hunks))
  {
    if hunks != [] {
      var init, h := hunks[..|hunks| - 1], hunks[|hunks| - 1];
      assert hunks == init + [h];
      RenderedReads(init);
      RenderSnoc(init, h);
      OneMoreHunk(Render(init), init, h);
    } else {
      assert DraftsOf(hunks) == [];
    }
  }

  lemma OneMoreHunk(text: string, init: seq<Hunk>, h: Hunk)
    requires WholeRows(text) && ReadRows(Rows(text)) == Some(DraftsOf(init)) && Printable(h)
    ensures WholeRows(text + RenderHunk(h))
    ensures ReadRows(Rows(text + RenderHunk(h))) == Some(DraftsOf(init) + [DraftOf(h)])
  {
    RowsOfHunk(h);
    RowsConcat(text, RenderHunk(h));
    HunkReads(Rows(text), DraftsOf(init), h);
  }

  /** Reading what was printed gives back the hunks: starts, removed and added lines, in order. */
  lemma PrintedReadsBack(hunks: seq<Hunk>)
    requires forall h :: h in hunks ==> Printable(h)
    ensures ReadHunks(Render(hunks)) == Some(hunks)
  {
    RenderedReads(hunks);
    assert HunksOf(DraftsOf(hunks)) == hunks;
  }

  lemma LabelText(a: string, b: string, body: string)
    ensures "--- " + a + "\n+++ " + b + "\n" + body == ("--- " + a + "\n") + (("+++ " + b + "\n") + body)
  {
  }

  lemma FirstRow(row: string, rest: string)
    requires '\n' !in row
    ensures Rows((row + "\n") + rest) == [row] + Rows(rest)
  {
    OneRow(row);
    RowsConcat(row + "\n", rest);
  }
}
