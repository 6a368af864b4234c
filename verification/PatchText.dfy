/**
 * The patch applier on texts: the original and the patch are split into lines, the patch is applied to the lines, and the
 * result is joined with one newline, which also ends the text if the original ended with one.
 */
module PatchText {
  import opened UnifiedPatch

  // -------------------------------------------------------------------------
  // Lines of a text
  // -------------------------------------------------------------------------

  /** The characters that end a line for `splitlines`. */
  predicate IsBreak(c: char) {
    c in "\n\r" || c as int in {0x0B, 0x0C, 0x1C, 0x1D, 0x1E, 0x85, 0x2028, 0x2029}
  }

  predicate Unbroken(line: Line) {
    forall i :: 0 <= i < |line| ==> !IsBreak(line[i])
  }

  predicate AllUnbroken(lines: seq<Line>) {
    forall i :: 0 <= i < |lines| ==> Unbroken(lines[i])
  }

  /** The position of the first line break, or the length of the text. */
  function FirstBreak(text: string): (n: nat)
    ensures n <= |text| && Unbroken(text[..n]) && (n < |text| ==> IsBreak(text[n]))
  {
    if text == "" || IsBreak(text[0]) then 0
    else
      var n := FirstBreak(text[1..]);
      assert text[..n + 1] == [text[0]] + text[1..][..n];
      1 + n
  }

  /** A carriage return and a line feed behind it end the same line. */
  function BreakLength(text: string, at: nat): (n: nat)
    requires at < |text|
    ensures 1 <= n && at + n <= |text|
  {
    if text[at] == '\r' && at + 1 < |text| && text[at + 1] == '\n' then 2 else 1
  }

  function SplitLines(text: string): (lines: seq<Line>)
    ensures AllUnbroken(lines)
    decreases |text|
  {
    if text == "" then []
    else
      var n := FirstBreak(text);
      if n == |text| then [text] else [text[..n]] + SplitLines(text[n + BreakLength(text, n)..])
  }

  // -------------------------------------------------------------------------
  // A text of lines
  // -------------------------------------------------------------------------

  datatype Newline = Feed | ReturnFeed

  function Text(newline: Newline): string {
    if newline.Feed? then "\n" else "\r\n"
  }

  function Join(lines: seq<Line>, newline: Newline): string {
    if lines == [] then ""
    else if |lines| == 1 then lines[0]
    else lines[0] + Text(newline) + Join(lines[1..], newline)
  }

  function Rendered(lines: seq<Line>, newline: Newline, ended: bool): string {
    Join(lines, newline) + if ended then Text(newline) else ""
  }

  /**
   * The texts that can be rendered: no lines without a final newline, and no last empty line unless there is one behind
   * it.
   */
  predicate Representable(lines: seq<Line>, ended: bool) {
    if lines == [] then !ended else ended || lines[|lines| - 1] != ""
  }

  predicate ContainsReturnFeed(text: string) {
    exists i :: 0 <= i < |text| - 1 && text[i] == '\r' && text[i + 1] == '\n'
  }

  predicate Ended(text: string) {
    text != "" && text[|text| - 1] in "\n\r"
  }

  lemma {:induction false} FirstBreakBehind(line: Line, rest: string)
    requires Unbroken(line) && (rest == "" || IsBreak(rest[0]))
    ensures FirstBreak(line + rest) == |line|
    decreases |line|
  {
    if line == "" {
      assert line + rest == rest;
    } else {
      assert (line + rest)[0] == line[0] && (line + rest)[1..] == line[1..] + rest;
      FirstBreakBehind(line[1..], rest);
    }
  }

  /** One line and its newline in front of a text. */
  lemma SplitFirst(line: Line, newline: Newline, rest: string)
    requires Unbroken(line)
    ensures SplitLines(line + Text(newline) + rest) == [line] + SplitLines(rest)
  {
    var behind := Text(newline) + rest;
    var all := line + Text(newline) + rest;
    assert all == line + behind && behind != "" && IsBreak(behind[0]);
    FirstBreakBehind(line, behind);
    assert all[|line|] == behind[0] && all[..|line|] == line;
    assert newline.ReturnFeed? ==> all[|line| + 1] == behind[1];
    assert BreakLength(all, |line|) == |Text(newline)|;
    assert all[|line| + |Text(newline)|..] == rest;
  }

  lemma SplitLast(line: Line)
    requires Unbroken(line)
    ensures SplitLines(line) == if line == "" then [] else [line]
  {
    if line != "" {
      FirstBreakBehind(line, "");
      assert line + "" == line;
    }
  }

  /**
   * A rendered text has exactly the lines it was rendered from if and only if they are representable: otherwise a text
   * of no lines but with a newline has one empty line, and a last empty line without a newline is lost.
   */
  lemma {:induction false} RenderedLines(lines: seq<Line>, newline: Newline, ended: bool)
    requires AllUnbroken(lines)
    ensures SplitLines(Rendered(lines, newline, ended)) == lines <==> Representable(lines, ended)
    ensures lines != [] && !Representable(lines, ended) ==>
              SplitLines(Rendered(lines, newline, ended)) == lines[..|lines| - 1]
    decreases |lines|
  {
    hide SplitLines, Text;
    NoLines();
    if lines == [] {
      SplitFirst("", newline, "");
      assert "" + Text(newline) + "" == "" + Text(newline) && "" + "" == "";
      assert Rendered(lines, newline, ended) == if ended then "" + Text(newline) else "";
      assert [""] + SplitLines("") == [""] != [];
    } else if |lines| == 1 {
      SplitLast(lines[0]);
      SplitFirst(lines[0], newline, "");
      assert lines[0] + Text(newline) + "" == lines[0] + Text(newline) && lines[0] + "" == lines[0];
      assert lines == [lines[0]] && [lines[0]] + [] == [lines[0]];
    } else {
      var rest := lines[1..];
      RenderedLines(rest, newline, ended);
      SplitFirst(lines[0], newline, Rendered(rest, newline, ended));
      RenderedFirst(lines, newline, ended);
      SameTail(lines[0], SplitLines(Rendered(rest, newline, ended)), rest);
      assert lines == [lines[0]] + rest;
      assert lines[..|lines| - 1] == [lines[0]] + rest[..|rest| - 1];
    }
  }

  lemma NoLines()
    ensures SplitLines("") == []
  {
  }

  lemma RenderedFirst(lines: seq<Line>, newline: Newline, ended: bool)
    requires |lines| >= 2
    ensures Rendered(lines, newline, ended) == lines[0] + Text(newline) + Rendered(lines[1..], newline, ended)
  {
  }

  lemma SameTail(first: Line, a: seq<Line>, b: seq<Line>)
    ensures [first] + a == [first] + b <==> a == b
  {
    if [first] + a == [first] + b {
      assert a == ([first] + a)[1..] && b == ([first] + b)[1..];
    }
  }

  // -------------------------------------------------------------------------
  // Applying a patch
  // -------------------------------------------------------------------------

  lemma UnbrokenParts(a: seq<Line>, b: seq<Line>)
    requires AllUnbroken(a) && AllUnbroken(b)
    ensures AllUnbroken(a + b)
  {
  }

  lemma {:induction false} NewUnbroken(body: seq<Line>)
    requires AllMarked(body) && AllUnbroken(body)
    ensures AllUnbroken(New(body))
    decreases |body|
  {
    hide IsBreak;
    if body != [] {
      var n := |body| - 1;
      NewUnbroken(body[..n]);
      assert Unbroken(body[n]);
      assert Unbroken(body[n][1..]);
      UnbrokenParts(New(body[..n]), [body[n][1..]]);
    }
  }

  /** The bodies of the parsed hunks are lines of the patch. */
  lemma {:induction false} HunksUnbroken(lines: seq<Line>)
    requires AllUnbroken(lines)
    ensures var hunks := ParseHunks(lines);
            hunks.Some? ==> forall i :: 0 <= i < |hunks.value| ==> AllUnbroken(hunks.value[i].body)
    decreases |lines|
  {
    hide ParseHeader, IsMarked, Unbroken;
    if lines != [] {
      var n := BodyLength(lines[1..]);
      HunksUnbroken(lines[1 + n..]);
    }
  }

  lemma {:induction false} ResultUnbroken(source: seq<Line>, hunks: seq<Hunk>)
    requires AllUnbroken(source) && WellMarked(hunks)
    requires forall i :: 0 <= i < |hunks| ==> AllUnbroken(hunks[i].body)
    ensures AllUnbroken(ApplyBackwards(source, hunks))
    decreases |hunks|
  {
    hide Unbroken, New, AllMarked;
    if hunks != [] {
      var h := hunks[|hunks| - 1];
      if h.at + h.oldCount <= |source| {
        NewUnbroken(h.body);
        UnbrokenParts(source[..h.at], New(h.body));
        UnbrokenParts(source[..h.at] + New(h.body), source[h.at + h.oldCount..]);
        ResultUnbroken(source[..h.at] + New(h.body) + source[h.at + h.oldCount..], hunks[..|hunks| - 1]);
      }
    }
  }

  function NewlineOf(text: string): Newline {
    if ContainsReturnFeed(text) then ReturnFeed else Feed
  }

  /**
   * The applier on texts: it accepts exactly a patch that parses and fits the lines of the original, renders the patched
   * lines with one kind of newline, and the lines of its result are the patched lines if and only if those are
   * representable.
   */
  method ApplyPatchText(original: string, patch: string) returns (applied: Option<string>)
    ensures var source, hunks := SplitLines(original), Parse(SplitLines(patch));
            && (applied.Some? <==> hunks.Some? && Fits(source, hunks.value))
            && (applied.Some? ==>
                  var patched := ApplyBackwards(source, hunks.value);
                  && applied.value == Rendered(patched, NewlineOf(original), Ended(original))
                  && (SplitLines(applied.value) == patched <==> Representable(patched, Ended(original))))
  {
    hide SplitLines, ParseHunks, Fits, ApplyBackwards, Representable, Rendered;
    var source, lines := SplitLines(original), SplitLines(patch);
    var result := ApplyUnifiedPatch(source, lines);
    if result.None? {
      return None;
    }
    var rendered := Rendered(result.value, NewlineOf(original), Ended(original));
    HunksUnbroken(lines[FileHeaders(lines)..]);
    ResultUnbroken(source, Parse(lines).value);
    RenderedLines(result.value, NewlineOf(original), Ended(original));
    applied := Some(rendered);
  }

  /** Removing the only line of a text that ends with a newline leaves one empty line. */
  lemma EmptiedTextKeepsALine()
    ensures SplitLines("a\n") == ["a"]
    ensures ApplyBackwards(["a"], [Hunk(0, 1, 0, ["-a"])]) == []
    ensures Rendered([], Feed, Ended("a\n")) == "\n" && SplitLines("\n") == [""]
  {
    NoLines();
    assert "a" + "\n" + "" == "a\n" && "" + "\n" + "" == "\n";
    SplitFirst("a", Feed, "");
    SplitFirst("", Feed, "");
    assert ["-a"][..0] == [] && New([]) == [];
    assert New(["-a"]) == New([]) + [];
    assert [Hunk(0, 1, 0, ["-a"])][..0] == [];
  }
}
