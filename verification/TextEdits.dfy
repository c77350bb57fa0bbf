/** ComputeEdits and splitLines of pkg/lsp/diff.go, and what a list of edits does to a document. */
module TextEdits {
  import opened EditScript
  import opened MyersDiff

  // Edits are applied simultaneously, as section "TextEdit[]" of the Language Server Protocol
  // 3.17 prescribes.

  /** An edit from character 0 of line `start` to character 0 of line `end`. */
  datatype TextEdit = TextEdit(start: int, end: int, newText: string)

  function Join(lines: seq<string>): string {
    if lines == [] then "" else Join(lines[..|lines| - 1]) + lines[|lines| - 1]
  }

  lemma {:induction false} JoinConcat(xs: seq<string>, ys: seq<string>)
    ensures Join(xs + ys) == Join(xs) + Join(ys)
    decreases |ys|
  {
    if ys == [] {
      assert xs + ys == xs;
    } else {
      assert (xs + ys)[..|xs + ys| - 1] == xs + ys[..|ys| - 1];
      JoinConcat(xs, ys[..|ys| - 1]);
    }
  }

  // ---- splitLines

  /** strings.SplitAfter(text, "\n"): cut after every newline. */
  function SplitAfter(text: string, line: string): seq<string> {
    if text == "" then [line]
    else if text[0] == '\n' then [line + [text[0]]] + SplitAfter(text[1..], "")
    else SplitAfter(text[1..], line + [text[0]])
  }

  /** splitLines: drops the empty piece after a final newline. */
  function SplitLines(text: string): seq<string> {
    var lines := SplitAfter(text, "");
    if |lines| > 0 && lines[|lines| - 1] == "" then lines[..|lines| - 1] else lines
  }

  ghost predicate IsFullLine(line: string) {
    line != "" && line[|line| - 1] == '\n' && NoNewline(line[..|line| - 1])
  }

  ghost predicate NoNewline(line: string) {
    forall i :: 0 <= i < |line| ==> line[i] != '\n'
  }

  lemma {:induction false} SplitAfterPieces(text: string, line: string)
    requires NoNewline(line)
    ensures var lines := SplitAfter(text, line);
            && |lines| > 0
            && Join(lines) == line + text
            && NoNewline(lines[|lines| - 1])
            && forall i :: 0 <= i < |lines| - 1 ==> IsFullLine(lines[i])
    decreases |text|
  {
    if text == "" {
      assert Join([line]) == Join([]) + line;
    } else if text[0] == '\n' {
      SplitAfterPieces(text[1..], "");
      var head, rest := line + [text[0]], SplitAfter(text[1..], "");
      assert Join([head]) == Join([]) + head;
      JoinConcat([head], rest);
      assert line + text == head + text[1..];
      assert head[..|head| - 1] == line;
    } else {
      SplitAfterPieces(text[1..], line + [text[0]]);
      assert line + text == line + [text[0]] + text[1..];
    }
  }

  /** The lines concatenate back to the text; none is empty, and a newline only ever ends
      one, which it does in all but possibly the last. */
  lemma {:induction false} SplitLinesPieces(text: string)
    ensures Join(SplitLines(text)) == text
    ensures forall i :: 0 <= i < |SplitLines(text)| ==> SplitLines(text)[i] != ""
    ensures forall i :: 0 <= i < |SplitLines(text)| - 1 ==> IsFullLine(SplitLines(text)[i])
    ensures SplitLines(text) != [] ==>
              var last := SplitLines(text)[|SplitLines(text)| - 1];
              IsFullLine(last) || NoNewline(last)
  {
    SplitAfterPieces(text, "");
    assert "" + text == text;
    var lines := SplitAfter(text, "");
    if lines[|lines| - 1] == "" {
      assert Join(lines) == Join(lines[..|lines| - 1]) + "" == Join(lines[..|lines| - 1]);
    }
  }

  // ---- Simultaneous application

  /** The texts that edits starting at line i put before it, in the order of the list. */
  ghost function TextAt(edits: seq<TextEdit>, i: int): string {
    if edits == [] then ""
    else
      var last := edits[|edits| - 1];
      TextAt(edits[..|edits| - 1], i) + if last.start == i then last.newText else ""
  }

  ghost predicate Removed(edits: seq<TextEdit>, i: int) {
    exists e :: e in edits && e.start <= i < e.end
  }

  /** All edits at once, positions in the original document: each line, unless removed,
      after the texts inserted before it. */
  ghost function Upto(lines: seq<string>, edits: seq<TextEdit>, n: int): string
    requires 0 <= n <= |lines|
    decreases n
  {
    if n == 0 then ""
    else
      Upto(lines, edits, n - 1) + TextAt(edits, n - 1)
      + if Removed(edits, n - 1) then "" else lines[n - 1]
  }

  ghost function Applied(lines: seq<string>, edits: seq<TextEdit>): string {
    Upto(lines, edits, |lines|) + TextAt(edits, |lines|)
  }

  /** Edits in document order that do not overlap, none of them empty. */
  ghost predicate WellOrdered(edits: seq<TextEdit>, m: int) {
    && (forall i :: 0 <= i < |edits| ==>
          0 <= edits[i].start <= edits[i].end <= m && (edits[i].start < edits[i].end || edits[i].newText != ""))
    && (forall i, j :: 0 <= i < j < |edits| ==> edits[i].end <= edits[j].start)
  }

  ghost predicate EndBy(edits: seq<TextEdit>, x: int) {
    forall e :: e in edits ==> e.start <= e.end <= x
  }

  lemma {:induction false} NoTextBeyond(edits: seq<TextEdit>, x: int, i: int)
    requires EndBy(edits, x) && x < i
    ensures TextAt(edits, i) == ""
    decreases |edits|
  {
    if edits != [] {
      assert edits[|edits| - 1] in edits;
      NoTextBeyond(edits[..|edits| - 1], x, i);
    }
  }

  /** An edit further on changes nothing before it. */
  lemma {:induction false} EditAheadIsInvisible(lines: seq<string>, edits: seq<TextEdit>, e: TextEdit, n: int)
    requires 0 <= n <= e.start && n <= |lines|
    ensures Upto(lines, edits + [e], n) == Upto(lines, edits, n)
    ensures n < e.start ==> TextAt(edits + [e], n) == TextAt(edits, n)
    ensures n == e.start ==> TextAt(edits + [e], n) == TextAt(edits, n) + e.newText
  {
    assert (edits + [e])[..|edits|] == edits;
    if n > 0 {
      EditAheadIsInvisible(lines, edits, e, n - 1);
      assert Removed(edits + [e], n - 1) == Removed(edits, n - 1);
    }
  }

  lemma {:induction false} CopiedLine(lines: seq<string>, edits: seq<TextEdit>, n: int)
    requires 0 < n <= |lines| && TextAt(edits, n) == "" && !Removed(edits, n - 1)
    ensures Upto(lines, edits, n) + TextAt(edits, n)
         == Upto(lines, edits, n - 1) + TextAt(edits, n - 1) + lines[n - 1]
  {
  }

  lemma {:induction false} JoinOneMore(lines: seq<string>, from: int, n: int, head: string)
    requires 0 <= from < n <= |lines|
    ensures head + Join(lines[from..n]) == head + Join(lines[from..n - 1]) + lines[n - 1]
  {
    assert lines[from..n][..n - 1 - from] == lines[from..n - 1];
  }

  /** Past the last edit, lines are copied. */
  lemma {:induction false} TailIsCopied(lines: seq<string>, edits: seq<TextEdit>, e: TextEdit, n: int)
    requires EndBy(edits, e.start) && 0 <= e.start <= e.end <= n <= |lines|
    ensures Upto(lines, edits + [e], n) + TextAt(edits + [e], n)
         == Upto(lines, edits, e.start) + TextAt(edits, e.start) + e.newText + Join(lines[e.end..n])
    decreases n
  {
    var all := edits + [e];
    if n == e.end {
      TextSkipsRemoved(lines, edits, e, n);
      assert lines[e.end..n] == [];
    } else {
      TailIsCopied(lines, edits, e, n - 1);
      NoTextBeyond(all, e.end, n);
      assert !Removed(all, n - 1);
      CopiedLine(lines, all, n);
      JoinOneMore(lines, e.end, n, Upto(lines, edits, e.start) + TextAt(edits, e.start) + e.newText);
    }
  }

  /** Inside the range an edit removes, only its own text appears. */
  lemma {:induction false} TextSkipsRemoved(lines: seq<string>, edits: seq<TextEdit>, e: TextEdit, n: int)
    requires EndBy(edits, e.start) && 0 <= e.start <= n <= e.end && n <= |lines|
    ensures Upto(lines, edits + [e], n) + TextAt(edits + [e], n)
         == Upto(lines, edits, e.start) + TextAt(edits, e.start) + e.newText
    decreases n
  {
    var all := edits + [e];
    EditAheadIsInvisible(lines, edits, e, e.start);
    if n > e.start {
      TextSkipsRemoved(lines, edits, e, n - 1);
      assert all[|edits|] == e && e in all && Removed(all, n - 1);
      NoTextBeyond(edits, e.start, n);
      assert all[..|edits|] == edits;
    }
  }

  function EditOf(op: Operation<string>): TextEdit {
    TextEdit(op.i1, op.i2, Join(op.content))
  }

  ghost function EditsOf(ops: seq<Operation<string>>): seq<TextEdit> {
    seq(|ops|, i requires 0 <= i < |ops| => EditOf(ops[i]))
  }

  lemma {:induction false} EditsOneMore(ops: seq<Operation<string>>, op: Operation<string>)
    ensures EditsOf(ops + [op]) == EditsOf(ops) + [EditOf(op)]
  {
  }

  lemma {:induction false} EditsEndBy(ops: seq<Operation<string>>, x: int, m: int)
    requires Reaches(ops, x, m)
    requires forall op :: op in ops ==> op.i1 <= op.i2 && 0 <= op.i1
    ensures EndBy(EditsOf(ops), x)
    decreases |ops|
  {
    if ops != [] {
      var last, init := ops[|ops| - 1], ops[..|ops| - 1];
      EditsEndBy(init, last.i1, m);
      assert EditsOf(ops) == EditsOf(init) + [EditOf(last)];
      forall e | e in EditsOf(ops)
        ensures e.start <= e.end <= x
      {
        assert e in EditsOf(init) || e == EditOf(last);
      }
    }
  }

  lemma {:induction false} OpsAreOrdered(ops: seq<Operation<string>>, x: int, m: int)
    requires Reaches(ops, x, m)
    ensures forall op :: op in ops ==> 0 <= op.i1 <= op.i2 <= x
    ensures forall i, j :: 0 <= i < j < |ops| ==> ops[i].i2 <= ops[j].i1
    decreases |ops|
  {
    if ops != [] {
      var last, init := ops[|ops| - 1], ops[..|ops| - 1];
      ReachesInside(init, last.i1, m);
      OpsAreOrdered(init, last.i1, m);
      assert forall op :: op in ops ==> op in init || op == last;
    }
  }

  /** Applying the edits simultaneously is applying the operations one after the other. */
  lemma {:induction false} SimultaneousIsSequential(lines: seq<string>, ops: seq<Operation<string>>, x: int)
    requires Reaches(ops, x, |lines|) && 0 <= x <= |lines|
    ensures Upto(lines, EditsOf(ops), x) + TextAt(EditsOf(ops), x) == Join(Patched(lines, ops, x))
    decreases |ops|
  {
    if ops == [] {
      PlainCopy(lines, x);
    } else {
      var last, init := ops[|ops| - 1], ops[..|ops| - 1];
      ReachesInside(init, last.i1, |lines|);
      OpsAreOrdered(init, last.i1, |lines|);
      EditsEndBy(init, last.i1, |lines|);
      SimultaneousIsSequential(lines, init, last.i1);
      EditsOneMore(init, last);
      assert ops == init + [last];
      TailIsCopied(lines, EditsOf(init), EditOf(last), x);
      JoinConcat(Patched(lines, init, last.i1), last.content);
      JoinConcat(Patched(lines, init, last.i1) + last.content, lines[last.i2..x]);
    }
  }

  lemma {:induction false} PlainCopy(lines: seq<string>, n: int)
    requires 0 <= n <= |lines|
    ensures Upto(lines, [], n) == Join(lines[..n])
  {
    if n > 0 {
      PlainCopy(lines, n - 1);
      assert lines[..n][..n - 1] == lines[..n - 1];
    }
  }

  lemma {:induction false} JoinNonEmpty(lines: seq<string>)
    requires lines != [] && forall i :: 0 <= i < |lines| ==> lines[i] != ""
    ensures Join(lines) != ""
  {
  }

  /** A tidy operation on non-empty lines never makes an empty edit, so ComputeEdits never
      drops an insertion. */
  lemma {:induction false} TidyEditIsNotEmpty(op: Operation<string>, b: seq<string>)
    requires Tidy(op, b) && forall i :: 0 <= i < |b| ==> b[i] != ""
    ensures op.kind == Insert ==> Join(op.content) != ""
    ensures op.kind == Delete ==> Join(op.content) == ""
  {
    if op.kind == Insert {
      JoinNonEmpty(op.content);
    }
  }

  lemma {:induction false} EditsAreWellOrdered(ops: seq<Operation<string>>, b: seq<string>, m: int)
    requires Reaches(ops, m, m)
    requires forall op :: op in ops ==> Tidy(op, b)
    requires forall i :: 0 <= i < |b| ==> b[i] != ""
    ensures WellOrdered(EditsOf(ops), m)
  {
    OpsAreOrdered(ops, m, m);
    var edits := EditsOf(ops);
    forall i | 0 <= i < |edits|
      ensures 0 <= edits[i].start <= edits[i].end <= m && (edits[i].start < edits[i].end || edits[i].newText != "")
    {
      assert ops[i] in ops;
      TidyEditIsNotEmpty(ops[i], b);
    }
  }

  /** The loop of ComputeEdits. */
  method Translate(ops: seq<Operation<string>>, ghost b: seq<string>) returns (edits: seq<TextEdit>)
    requires forall op :: op in ops ==> Tidy(op, b)
    requires forall i :: 0 <= i < |b| ==> b[i] != ""
    ensures edits == EditsOf(ops)
  {
    edits := [];
    for n := 0 to |ops|
      invariant edits == EditsOf(ops[..n])
    {
      var op := ops[n];
      assert op in ops;
      TidyEditIsNotEmpty(op, b);
      assert EditsOf(ops[..n + 1]) == EditsOf(ops[..n]) + [EditOf(op)];
      match op.kind
      case Delete =>
        edits := edits + [TextEdit(op.i1, op.i2, "")];
      case Insert =>
        var content := Join(op.content);
        if content != "" {
          edits := edits + [TextEdit(op.i1, op.i2, content)];
        }
    }
    assert ops[..|ops|] == ops;
  }

  /** ComputeEdits: the edits are ordered, do not overlap, none is empty, and applied
      simultaneously to the lines of `before` they give `after`. */
  method ComputeEdits(before: string, after: string) returns (edits: seq<TextEdit>)
    ensures WellOrdered(edits, |SplitLines(before)|)
    ensures Applied(SplitLines(before), edits) == after
  {
    var a, b := SplitLines(before), SplitLines(after);
    SplitLinesPieces(after);
    var ops := Operations(a, b);
    edits := Translate(ops, b);
    EditsAreWellOrdered(ops, b, |a|);
    SimultaneousIsSequential(a, ops, |a|);
  }
}
