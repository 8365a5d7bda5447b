/** The preview's line diff, and the patch that replays it. */
module LineDiff {
  import opened Options
  import opened Sequences
  import opened Text
  import opened DiffText

  /** Lines without their terminator, which is a newline with or without a carriage return. */
  function Lines(text: string): seq<string>
    decreases |text|
  {
    if text == "" then [] else
      var i := IndexOf(text, '\n');
      if i == |text| then [text]
      else [if i > 0 && text[i - 1] == '\r' then text[..i - 1] else text[..i]] + Lines(text[i + 1..])
  }

  /** Lines with a terminator behind each. */
  function Joined(lines: seq<string>, end: string): string {
    if lines == [] then "" else lines[0] + end + Joined(lines[1..], end)
  }

  predicate IsLine(l: string) { '\n' !in l && (l != "" ==> l[|l| - 1] != '\r') }

  lemma FirstLine(l: string, end: string, rest: string)
    requires IsLine(l) && (end == "\n" || end == "\r\n")
    ensures Lines(l + end + rest) == [l] + Lines(rest)
  {
    var text, cr := l + end + rest, end[..|end| - 1];
    IndexAfter(l + cr, '\n', rest);
    assert text == l + cr + ['\n'] + rest;
    assert text[..|l + cr|] == l + cr && text[|l + cr| + 1..] == rest && text[..|l|] == l;
    assert cr == "" && l != "" ==> text[|l| - 1] == l[|l| - 1];
  }

  /** Lines come apart again, whichever of the two terminators they were joined with. */
  lemma {:induction false} JoinedComesApart(lines: seq<string>, end: string)
    requires (forall l :: l in lines ==> IsLine(l)) && (end == "\n" || end == "\r\n")
    ensures Lines(Joined(lines, end)) == lines
  {
    if lines != [] {
      JoinedComesApart(lines[1..], end);
      FirstLine(lines[0], end, Joined(lines[1..], end));
    }
  }

  /** Without carriage returns, no text is lost but for whether its last line had a terminator. */
  lemma {:induction false} LinesJoin(text: string)
    requires '\r' !in text
    ensures Joined(Lines(text), "\n") == if text == "" || text[|text| - 1] == '\n' then text else text + "\n"
    decreases |text|
  {
    if text != "" {
      var i := IndexOf(text, '\n');
      if i == |text| {
        assert text[..i] == text && text[|text| - 1] in text;
        assert Joined([text], "\n") == text + "\n" + Joined([], "\n");
      } else {
        LinesJoin(text[i + 1..]);
        assert i > 0 ==> text[i - 1] in text;
        OneMoreJoined(text, i, Lines(text), Lines(text[i + 1..]));
      }
    }
  }

  lemma OneMoreJoined(text: string, i: nat, lines: seq<string>, rest: seq<string>)
    requires i < |text| && text[i] == '\n' && lines == [text[..i]] + rest
    requires var t := text[i + 1..];
             Joined(rest, "\n") == if t == "" || t[|t| - 1] == '\n' then t else t + "\n"
    ensures Joined(lines, "\n") == if text[|text| - 1] == '\n' then text else text + "\n"
  {
    assert text == text[..i] + "\n" + text[i + 1..];
    assert lines[1..] == rest;
    Regroup(text[..i] + "\n", text[i + 1..], "\n");
  }

  /** Old lines consumed and new lines produced once the hunks are replayed in order. A hunk applies
      only where its removed lines stand and where its new start is the next line produced. */
  function ReplayHunks(before: seq<string>, hunks: seq<Hunk>): (r: Option<(nat, seq<string>)>)
    ensures r.Some? ==> r.value.0 <= |before|
  {
    if hunks == [] then Some((0, [])) else
      var h := hunks[|hunks| - 1];
      match ReplayHunks(before, hunks[..|hunks| - 1])
      case None => None
      case Some((at, out)) =>
        var start := h.oldStart as int - 1;
        if at <= start && start + |h.removed| <= |before| && before[start..start + |h.removed|] == h.removed
           && |out| + (start - at) == h.newStart - 1
        then Some((start + |h.removed|, out + before[at..start] + h.added))
        else None
  }

  /** The patched lines, or nothing when a hunk does not apply. */
  function Patch(before: seq<string>, hunks: seq<Hunk>): Option<seq<string>> {
    match ReplayHunks(before, hunks)
    case None => None
    case Some((at, out)) => Some(out + before[at..])
  }

  ghost predicate InStep(before: seq<string>, after: seq<string>, hunks: seq<Hunk>, i: nat, j: nat) {
    && i <= |before| && j <= |after|
    && ReplayHunks(before, hunks).Some?
    && var (at, out) := ReplayHunks(before, hunks).value;
       at <= i && out + before[at..i] == after[..j]
  }

  lemma {:induction false} Advance(before: seq<string>, after: seq<string>, hunks: seq<Hunk>, i: nat, j: nat)
    requires InStep(before, after, hunks, i, j) && i < |before| && j < |after| && before[i] == after[j]
    ensures InStep(before, after, hunks, i + 1, j + 1)
  {
    var (at, out) := ReplayHunks(before, hunks).value;
    assert before[at..i + 1] == before[at..i] + [before[i]];
    assert after[..j + 1] == after[..j] + [after[j]];
    assert out + before[at..i + 1] == out + before[at..i] + [before[i]];
  }

  lemma {:induction false} AddHunk(before: seq<string>, after: seq<string>, hunks: seq<Hunk>, i: nat, j: nat,
                                   i2: nat, j2: nat)
    requires InStep(before, after, hunks, i, j) && i <= i2 <= |before| && j <= j2 <= |after|
    ensures InStep(before, after, hunks + [Hunk(i + 1, j + 1, before[i..i2], after[j..j2])], i2, j2)
  {
    var (at, out) := ReplayHunks(before, hunks).value;
    var kept := out + before[at..i];
    ReplayOneMore(before, hunks, at, out, i, i2, j, after[j..j2]);
    JoinAdded(kept, after, j, j2);
    InStepAt(before, after, hunks + [Hunk(i + 1, j + 1, before[i..i2], after[j..j2])], i2, j2, kept + after[j..j2]);
  }

  lemma {:induction false} ReplayOneMore(before: seq<string>, hunks: seq<Hunk>, at: nat, out: seq<string>,
                                         i: nat, i2: nat, j: nat, added: seq<string>)
    requires ReplayHunks(before, hunks) == Some((at, out)) && at <= i <= i2 <= |before| && |out| + (i - at) == j
    ensures ReplayHunks(before, hunks + [Hunk(i + 1, j + 1, before[i..i2], added)]) ==
              Some((i2, out + before[at..i] + added))
  {
    var h := Hunk(i + 1, j + 1, before[i..i2], added);
    assert (hunks + [h])[..|hunks|] == hunks;
  }

  lemma JoinAdded(kept: seq<string>, after: seq<string>, j: nat, j2: nat)
    requires j <= j2 <= |after| && kept == after[..j]
    ensures kept + after[j..j2] == after[..j2]
  {
  }

  lemma {:induction false} InStepAt(before: seq<string>, after: seq<string>, hunks: seq<Hunk>, i: nat, j: nat,
                                    out: seq<string>)
    requires ReplayHunks(before, hunks) == Some((i, out)) && i <= |before| && j <= |after| && out == after[..j]
    ensures InStep(before, after, hunks, i, j)
  {
    assert out + before[i..i] == out;
  }

  /** Patching from nothing but a printed text. */
  function PatchFrom(before: seq<string>, text: string): Option<seq<string>> {
    match ReadHunks(text)
    case None => None
    case Some(hunks) => Patch(before, hunks)
  }

  /** The text after the first two rows. */
  function AfterTwoRows(text: string): string {
    var second := AfterRow(text);
    AfterRow(second)
  }

  function AfterRow(text: string): string {
    var i := IndexOf(text, '\n');
    if i == |text| then "" else text[i + 1..]
  }

  lemma LabelsSkipped(oldLabel: string, newLabel: string, body: string)
    requires '\n' !in oldLabel && '\n' !in newLabel
    ensures AfterTwoRows("--- " + oldLabel + "\n+++ " + newLabel + "\n" + body) == body
  {
    LabelText(oldLabel, newLabel, body);
    RowSkipped("--- " + oldLabel, ("+++ " + newLabel + "\n") + body);
    RowSkipped("+++ " + newLabel, body);
  }

  lemma RowSkipped(row: string, rest: string)
    requires '\n' !in row
    ensures AfterRow((row + "\n") + rest) == rest
  {
    IndexAfter(row, '\n', rest);
    assert (row + "\n") + rest == row + ['\n'] + rest;
    assert (row + ['\n'] + rest)[|row| + 1..] == rest;
  }

  function Labels(oldLabel: string, newLabel: string): string { "--- " + oldLabel + "\n+++ " + newLabel + "\n" }

  /** unified_diff. Identical texts print nothing; otherwise, after the two labels, the text itself is a patch:
      read back, it turns the old lines into the new ones. */
  method UnifiedDiff(oldLabel: string, newLabel: string, oldText: string, newText: string) returns (out: string)
    ensures oldText == newText ==> out == ""
    ensures oldText != newText ==>
              && Labels(oldLabel, newLabel) <= out
              && PatchFrom(Lines(oldText), out[|Labels(oldLabel, newLabel)|..]) == Some(Lines(newText))
    ensures oldText != newText && '\n' !in oldLabel && '\n' !in newLabel ==>
              PatchFrom(Lines(oldText), AfterTwoRows(out)) == Some(Lines(newText))
  {
    if oldText == newText { return ""; }
    var body, hunks := DiffLines(Lines(oldText), Lines(newText));
    out := "--- " + oldLabel + "\n+++ " + newLabel + "\n" + body;
    LinesAreOneLiners(oldText);
    LinesAreOneLiners(newText);
    PrintedReadsBack(hunks);
    assert out[|Labels(oldLabel, newLabel)|..] == body;
    if '\n' !in oldLabel && '\n' !in newLabel { LabelsSkipped(oldLabel, newLabel, body); }
  }

  lemma {:induction false} LinesAreOneLiners(text: string)
    ensures OneLiners(Lines(text))
    decreases |text|
  {
    if text != "" {
      var i := IndexOf(text, '\n');
      if i < |text| {
        LinesAreOneLiners(text[i + 1..]);
      } else {
        assert text[..i] == text;
      }
    }
  }

  lemma InStepAtEnd(before: seq<string>, after: seq<string>, hunks: seq<Hunk>)
    requires InStep(before, after, hunks, |before|, |after|)
    ensures Patch(before, hunks) == Some(after)
  {
    var (at, out) := ReplayHunks(before, hunks).value;
    assert before[at..|before|] == before[at..] && after[..|after|] == after;
  }

  /** No hunk is empty, and none has a newline in a line if the texts have none. */
  ghost predicate WellFormed(before: seq<string>, after: seq<string>, hunks: seq<Hunk>) {
    && (forall h :: h in hunks ==> h.removed != [] || h.added != [])
    && (OneLiners(before) && OneLiners(after) ==> forall h :: h in hunks ==> Printable(h))
  }

  lemma StaysWellFormed(before: seq<string>, after: seq<string>, hunks: seq<Hunk>, i: nat, j: nat, i2: nat, j2: nat)
    requires WellFormed(before, after, hunks) && i <= i2 <= |before| && j <= j2 <= |after| && (i < i2 || j < j2)
    ensures WellFormed(before, after, hunks + [Hunk(i + 1, j + 1, before[i..i2], after[j..j2])])
  {
  }

  method DiffLines(before: seq<string>, after: seq<string>) returns (body: string, hunks: seq<Hunk>)
    ensures body == Render(hunks)
    ensures Patch(before, hunks) == Some(after)
    ensures forall h :: h in hunks ==> h.removed != [] || h.added != []
    ensures OneLiners(before) && OneLiners(after) ==> forall h :: h in hunks ==> Printable(h)
  {
    body, hunks := "", [];
    var i, j := 0, 0;
    while i < |before| || j < |after|
      invariant InStep(before, after, hunks, i, j)
      invariant body == Render(hunks)
      invariant WellFormed(before, after, hunks)
      decreases |before| - i + |after| - j
    {
      if i < |before| && j < |after| && before[i] == after[j] {
        Advance(before, after, hunks, i, j);
        i, j := i + 1, j + 1;
        continue;
      }
      var i2, j2 := HunkEnd(before, after, i, j);
      var h := Hunk(i + 1, j + 1, before[i..i2], after[j..j2]);
      AddHunk(before, after, hunks, i, j, i2, j2);
      RenderSnoc(hunks, h);
      StaysWellFormed(before, after, hunks, i, j, i2, j2);
      var text := PrintHunk(h);
      body, hunks := body + text, hunks + [h];
      i, j := i2, j2;
    }
    InStepAtEnd(before, after, hunks);
  }

  /** The inner loop: old lines are taken until one equals the next new line or the hunk grows
      longer than either text; new lines are taken once the old ones are used up. */
  method HunkEnd(before: seq<string>, after: seq<string>, i: nat, j: nat) returns (i2: nat, j2: nat)
    requires i <= |before| && j <= |after| && (i < |before| || j < |after|)
    requires i < |before| && j < |after| ==> before[i] != after[j]
    ensures i <= i2 <= |before| && j <= j2 <= |after| && (i < i2 || j < j2)
    ensures j < j2 ==> i2 == |before|
  {
    var max := if |before| > |after| then |before| else |after|;
    i2, j2 := i, j;
    while i2 < |before| || j2 < |after|
      invariant i <= i2 <= |before| && j <= j2 <= |after|
      invariant (i2, j2) == (i, j) && i < |before| && j < |after| ==> before[i] != after[j]
      invariant j < j2 ==> i2 == |before|
      decreases |before| - i2 + |after| - j2
    {
      if i2 < |before| && j2 < |after| && before[i2] == after[j2] { break; }
      if i2 < |before| { i2 := i2 + 1; } else { j2 := j2 + 1; }
      if (i2 - i) + (j2 - j) > max { break; }
    }
  }

  method PrintHunk(h: Hunk) returns (text: string)
    ensures text == RenderHunk(h)
  {
    var head := "@@ -" + Decimal(h.oldStart) + "," + Decimal(|h.removed|)
                + " +" + Decimal(h.newStart) + "," + Decimal(|h.added|) + " @@\n";
    text := head;
    for k := 0 to |h.removed|
      invariant text == head + Marked('-', h.removed[..k])
    {
      assert h.removed[..k + 1][..k] == h.removed[..k];
      text := text + ['-'] + h.removed[k] + "\n";
    }
    assert h.removed[..|h.removed|] == h.removed;
    for k := 0 to |h.added|
      invariant text == head + Marked('-', h.removed) + Marked('+', h.added[..k])
    {
      assert h.added[..k + 1][..k] == h.added[..k];
      text := text + ['+'] + h.added[k] + "\n";
    }
    assert h.added[..|h.added|] == h.added;
  }
}
