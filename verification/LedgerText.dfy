/** The change ledger as text: how it splits into lines and how a line is appended to it. */
module LedgerText {
  /** The characters that end a line, once "\r\n" and "\r" have been read as "\n". */
  predicate IsBreak(c: char) {
    c in {'\n', '\U{0B}', '\U{0C}', '\U{1C}', '\U{1D}', '\U{1E}', '\U{85}', '\U{2028}', '\U{2029}'}
  }

  predicate IsSpace(c: char) {
    || IsBreak(c)
    || c in {' ', '\t', '\U{1F}', '\U{A0}', '\U{1680}', '\U{202F}', '\U{205F}', '\U{3000}'}
    || '\U{2000}' <= c <= '\U{200A}'
  }

  /** The same by code points: the line breaks of Python's `splitlines` without the carriage return, and
      the characters that its `strip` takes for white space. */
  lemma CodePoints(c: char)
    ensures IsBreak(c) <==> c as int in {10, 11, 12, 28, 29, 30, 133, 8232, 8233}
    ensures IsSpace(c)
       <==> || c as int in {9, 10, 11, 12, 28, 29, 30, 31, 32, 133, 160, 5760, 8232, 8233, 8239, 8287, 12288}
            || 8192 <= c as int <= 8202
  {
  }

  function SplitFrom(text: string, line: string): seq<string>
    decreases |text|
  {
    if text == "" then (if line == "" then [] else [line])
    else if IsBreak(text[0]) then [line] + SplitFrom(text[1..], "")
    else SplitFrom(text[1..], line + [text[0]])
  }

  function Lines(text: string): seq<string> {
    SplitFrom(text, "")
  }

  predicate Plain(line: string) {
    forall i :: 0 <= i < |line| ==> !IsBreak(line[i])
  }

  predicate Blank(line: string) {
    forall i :: 0 <= i < |line| ==> IsSpace(line[i])
  }

  /** The ledger text after an entry line is appended, on a line of its own. */
  function Appended(existing: string, line: string): string {
    existing + (if existing != "" && existing[|existing| - 1] != '\n' then "\n" else "") + line + "\n"
  }

  predicate EndsLine(text: string) {
    text == "" || IsBreak(text[|text| - 1])
  }

  lemma {:induction false} SplitJoin(a: string, b: string, line: string)
    requires EndsLine(a) && (a == "" ==> line == "")
    ensures SplitFrom(a + b, line) == SplitFrom(a, line) + SplitFrom(b, "")
    decreases |a|
  {
    if a == "" {
      assert a + b == b;
    } else {
      assert (a + b)[1..] == a[1..] + b;
      if IsBreak(a[0]) {
        SplitJoin(a[1..], b, "");
      } else {
        SplitJoin(a[1..], b, line + [a[0]]);
      }
    }
  }

  lemma {:induction false} SplitPlain(text: string, line: string)
    requires Plain(text)
    ensures SplitFrom(text, line) == if line + text == "" then [] else [line + text]
    ensures SplitFrom(text + "\n", line) == [line + text]
    decreases |text|
  {
    if text == "" {
      assert line + text == line && text + "\n" == "\n";
      assert "\n"[1..] == "";
    } else {
      assert (text + "\n")[1..] == text[1..] + "\n";
      assert (line + [text[0]]) + text[1..] == line + text;
      SplitPlain(text[1..], line + [text[0]]);
    }
  }

  /** Ending an unfinished last line does not change the lines. */
  lemma {:induction false} EndLastLine(text: string, line: string)
    requires text + line != "" && (text == "" || !IsBreak(text[|text| - 1]))
    ensures SplitFrom(text + "\n", line) == SplitFrom(text, line)
    decreases |text|
  {
    if text == "" {
      assert text + "\n" == "\n" && "\n"[1..] == "";
    } else {
      assert (text + "\n")[1..] == text[1..] + "\n";
      if IsBreak(text[0]) {
        EndLastLine(text[1..], "");
      } else {
        EndLastLine(text[1..], line + [text[0]]);
      }
    }
  }

  /** Appending keeps every earlier line and makes the entry the last line; a blank line comes
      between them only after a text that ends with a line break other than "\n". */
  lemma AppendedLines(existing: string, line: string)
    requires Plain(line) && line != ""
    ensures Lines(Appended(existing, line))
         == Lines(existing)
          + (if existing != "" && EndsLine(existing) && existing[|existing| - 1] != '\n' then [""] else [])
          + [line]
  {
    SplitPlain(line, "");
    assert "" + line == line;
    if existing == "" || existing[|existing| - 1] == '\n' {
      assert Appended(existing, line) == existing + (line + "\n");
      SplitJoin(existing, line + "\n", "");
    } else {
      var ended := existing + "\n";
      assert Appended(existing, line) == ended + (line + "\n");
      SplitJoin(ended, line + "\n", "");
      if IsBreak(existing[|existing| - 1]) {
        SplitJoin(existing, "\n", "");
        assert "\n"[1..] == "";
        assert SplitFrom("\n", "") == [""];
      } else {
        EndLastLine(existing, "");
      }
    }
  }

  /** The last line that is not blank, or the empty string when there is none. */
  function LastEntryLine(lines: seq<string>): string {
    if lines == [] then ""
    else if !Blank(lines[|lines| - 1]) then lines[|lines| - 1]
    else LastEntryLine(lines[..|lines| - 1])
  }

  /** The line is the last one that is not blank. */
  ghost predicate IsLastEntry(lines: seq<string>, line: string) {
    !Blank(line) && exists i :: 0 <= i < |lines| && lines[i] == line && BlankFrom(lines, i + 1)
  }

  ghost predicate BlankFrom(lines: seq<string>, i: nat) {
    forall j :: i <= j < |lines| ==> Blank(lines[j])
  }

  lemma NothingAfter(lines: seq<string>, i: nat)
    requires i < |lines| && BlankFrom(lines, i + 1) && !Blank(lines[|lines| - 1])
    ensures i == |lines| - 1
  {
  }

  lemma {:induction false} LastEntryLineIs(lines: seq<string>, line: string)
    ensures IsLastEntry(lines, line) <==> LastEntryLine(lines) == line && line != ""
  {
    if lines != [] {
      var init, last := lines[..|lines| - 1], lines[|lines| - 1];
      if Blank(last) {
        LastEntryLineIs(init, line);
        if IsLastEntry(init, line) {
          var i :| 0 <= i < |init| && init[i] == line && BlankFrom(init, i + 1);
          assert lines[i] == line && BlankFrom(lines, i + 1);
        }
        if IsLastEntry(lines, line) {
          var i :| 0 <= i < |lines| && lines[i] == line && BlankFrom(lines, i + 1);
          assert init[i] == line && BlankFrom(init, i + 1);
        }
      } else {
        assert BlankFrom(lines, |lines|);
        if IsLastEntry(lines, line) {
          var i :| 0 <= i < |lines| && lines[i] == line && BlankFrom(lines, i + 1);
          NothingAfter(lines, i);
        }
      }
    }
  }

  /** These are the lines of the text: each is free of line breaks and followed by one, except that
      the text may end without a break after a last line that is not empty. */
  ghost predicate SplitsInto(text: string, lines: seq<string>)
    decreases |lines|
  {
    if lines == [] then text == ""
    else
      var n := |lines[0]|;
      && Plain(lines[0]) && lines[0] <= text
      && if |text| == n then lines == [text] && text != ""
         else IsBreak(text[n]) && SplitsInto(text[n + 1..], lines[1..])
  }

  lemma {:induction false} LinesAre(text: string)
    ensures SplitsInto(text, Lines(text))
  {
    SplitFromIs(text, "");
    assert "" + text == text;
  }

  lemma OneLineMore(line: string, text: string, rest: seq<string>)
    requires Plain(line) && text != "" && IsBreak(text[0]) && SplitsInto(text[1..], rest)
    ensures SplitsInto(line + text, [line] + rest)
  {
    var whole, lines := line + text, [line] + rest;
    assert whole[|line| + 1..] == text[1..];
    assert lines[1..] == rest;
  }

  lemma {:induction false} SplitFromIs(text: string, line: string)
    requires Plain(line)
    ensures SplitsInto(line + text, SplitFrom(text, line))
    decreases |text|
  {
    var whole := line + text;
    if text == "" {
      assert whole == line;
    } else if IsBreak(text[0]) {
      SplitFromIs(text[1..], "");
      assert "" + text[1..] == text[1..];
      OneLineMore(line, text, SplitFrom(text[1..], ""));
    } else {
      SplitFromIs(text[1..], line + [text[0]]);
      assert (line + [text[0]]) + text[1..] == whole;
    }
  }

  /** No other lines split the text so. */
  lemma {:induction false} OneSplit(text: string, a: seq<string>, b: seq<string>)
    requires SplitsInto(text, a) && SplitsInto(text, b)
    ensures a == b
    decreases |a|
  {
    if a != [] && b != [] {
      SameFirst(text, a[0], b[0]);
      if |text| > |a[0]| {
        OneSplit(text[|a[0]| + 1..], a[1..], b[1..]);
        assert a == [a[0]] + a[1..] && b == [b[0]] + b[1..];
      }
    }
  }

  lemma SameFirst(text: string, a: string, b: string)
    requires Plain(a) && Plain(b) && a <= text && b <= text
    requires (|a| < |text| ==> IsBreak(text[|a|])) && (|b| < |text| ==> IsBreak(text[|b|]))
    ensures a == b
  {
    NoBreakWithin(text, a);
    NoBreakWithin(text, b);
  }

  lemma NoBreakWithin(text: string, line: string)
    requires Plain(line) && line <= text
    ensures forall i :: 0 <= i < |line| ==> !IsBreak(text[i])
  {
    forall i | 0 <= i < |line| ensures !IsBreak(text[i]) {
      assert text[i] == line[i];
    }
  }
}
