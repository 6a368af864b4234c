/** The newline convention of a text, and the round trip of a rendered edit script on texts. */
module TextRules {
  import opened UnifiedPatch
  import opened PatchText
  import Rendering = PatchRendering

  /** No line break at all, so neither a carriage return with its line feed nor a final newline. */
  lemma UnbrokenText(line: Line)
    requires Unbroken(line)
    ensures !ContainsReturnFeed(line) && !Ended(line)
  {}

  lemma {:induction false} FeedOnly(lines: seq<Line>)
    requires AllUnbroken(lines)
    ensures forall i :: 0 <= i < |Join(lines, Feed)| ==> Join(lines, Feed)[i] != '\r'
    decreases |lines|
  {
    if lines != [] {
      assert Unbroken(lines[0]);
      if |lines| > 1 {
        FeedOnly(lines[1..]);
      }
    }
  }

  /** The text shows which newline it was rendered with as soon as it has one, and whether it ends with one. */
  lemma ConventionSeen(lines: seq<Line>, newline: Newline, ended: bool)
    requires AllUnbroken(lines) && Representable(lines, ended)
    ensures Ended(Rendered(lines, newline, ended)) == ended
    ensures NewlineOf(Rendered(lines, newline, ended)) == if |lines| >= 2 || ended then newline else Feed
  {
    var text := Rendered(lines, newline, ended);
    EndSeen(lines, newline, ended);
    if newline.Feed? {
      FeedOnly(lines);
      assert forall i :: 0 <= i < |text| ==> text[i] != '\r';
    } else if ended {
      var n := |Join(lines, newline)|;
      assert text[n] == '\r' && text[n + 1] == '\n';
    } else if |lines| >= 2 {
      var n := |lines[0]|;
      assert text == lines[0] + (Text(newline) + Join(lines[1..], newline));
      assert text[n] == '\r' && text[n + 1] == '\n';
    } else if |lines| == 1 {
      UnbrokenText(lines[0]);
      assert text == lines[0];
    }
  }

  lemma {:induction false} LastOfJoin(lines: seq<Line>, newline: Newline)
    requires lines != [] && lines[|lines| - 1] != ""
    ensures Join(lines, newline) != ""
    ensures var last := lines[|lines| - 1];
            Join(lines, newline)[|Join(lines, newline)| - 1] == last[|last| - 1]
    decreases |lines|
  {
    if |lines| > 1 {
      LastOfJoin(lines[1..], newline);
    }
  }

  lemma EndSeen(lines: seq<Line>, newline: Newline, ended: bool)
    requires AllUnbroken(lines) && Representable(lines, ended)
    ensures Ended(Rendered(lines, newline, ended)) == ended
  {
    var text := Rendered(lines, newline, ended);
    if !ended && lines != [] {
      var last := lines[|lines| - 1];
      LastOfJoin(lines, newline);
      assert text == Join(lines, newline);
      assert Unbroken(last) && !IsBreak(last[|last| - 1]);
    }
  }

  /** Two lists of equally many lines, one of them representable, make one text only if they are the same. */
  lemma SameText(a: seq<Line>, b: seq<Line>, newline: Newline, ended: bool)
    requires AllUnbroken(a) && AllUnbroken(b) && |a| == |b| && Representable(b, ended)
    ensures Rendered(a, newline, ended) == Rendered(b, newline, ended) <==> a == b
  {
    hide Rendered, SplitLines;
    RenderedLines(a, newline, ended);
    RenderedLines(b, newline, ended);
  }

  /**
   * Give the applier a text and a rendered edit script for it: it accepts, and answers with the second text, in the
   * newline convention of the first, exactly if no block inserts lines without replacing or keeping any, except at the
   * start or among copies of the line before.
   */
  lemma TextRoundTrip(fileHeaders: seq<Line>, blocks: seq<Rendering.Block>, tail: seq<Line>, newline: Newline,
                      ended: bool, patch: string)
    requires forall i :: 0 <= i < |fileHeaders| ==> IsFileHeader(fileHeaders[i])
    requires blocks != [] && Rendering.Marked(blocks) && Rendering.Separated(blocks)
    requires SplitLines(patch) == fileHeaders + Rendering.Render(blocks)
    requires var old', new' := Rendering.OldLines(blocks) + tail, Rendering.NewLines(blocks) + tail;
             && AllUnbroken(old') && Representable(old', ended)
             && AllUnbroken(new') && Representable(new', ended)
             && (|old'| >= 2 || ended || newline.Feed?)
    ensures var original := Rendered(Rendering.OldLines(blocks) + tail, newline, ended);
            var source, hunks := SplitLines(original), Parse(SplitLines(patch));
            && hunks.Some? && Fits(source, hunks.value)
            && var patched := Rendered(ApplyBackwards(source, hunks.value), NewlineOf(original), Ended(original));
               var second := Rendered(Rendering.NewLines(blocks) + tail, newline, ended);
               patched == second <==> Rendering.Faithful(blocks)
  {
    hide SplitLines, ParseHunks, Fits, ApplyBackwards, Representable, Rendered, Rendering.OldLines, Rendering.NewLines,
         Rendering.Render, Rendering.Faithful, NewlineOf, Ended, IsFileHeader, AllUnbroken, AllMarked, Growth;
    var old', new' := Rendering.OldLines(blocks) + tail, Rendering.NewLines(blocks) + tail;
    var lines := SplitLines(patch);
    RenderedLines(old', newline, ended);
    ConventionSeen(old', newline, ended);
    Rendering.RoundTrip(fileHeaders, blocks, tail);
    var hunks := Parse(lines).value;
    Suffix(lines, FileHeaders(lines));
    HunksUnbroken(lines[FileHeaders(lines)..]);
    ResultUnbroken(old', hunks);
    SameCount(fileHeaders, blocks, tail);
    SameText(ApplyBackwards(old', hunks), new', newline, ended);
  }

  lemma Suffix(lines: seq<Line>, n: nat)
    requires AllUnbroken(lines) && n <= |lines|
    ensures AllUnbroken(lines[n..])
  {}

  /** The result has as many lines as the second file. */
  lemma SameCount(fileHeaders: seq<Line>, blocks: seq<Rendering.Block>, tail: seq<Line>)
    requires forall i :: 0 <= i < |fileHeaders| ==> IsFileHeader(fileHeaders[i])
    requires blocks != [] && Rendering.Marked(blocks) && Rendering.Separated(blocks)
    ensures var source, patch := Rendering.OldLines(blocks) + tail, fileHeaders + Rendering.Render(blocks);
            && Parse(patch).Some? && Fits(source, Parse(patch).value)
            && |ApplyBackwards(source, Parse(patch).value)| == |Rendering.NewLines(blocks) + tail|
  {
    hide Fits, ApplyBackwards, Rendering.OldLines, Rendering.NewLines, Rendering.Render, Rendering.Faithful,
         IsFileHeader, AllMarked, Growth, Parse;
    Rendering.RoundTrip(fileHeaders, blocks, tail);
    var source, patch := Rendering.OldLines(blocks) + tail, fileHeaders + Rendering.Render(blocks);
    ResultLength(source, Parse(patch).value);
    assert Parse(patch) == Some(Rendering.HunksOf(blocks)) by {
      Rendering.RenderingParsed(fileHeaders, blocks);
    }
    Grows(blocks);
  }

  lemma {:induction false} Grows(blocks: seq<Rendering.Block>)
    requires Rendering.Marked(blocks) && Rendering.Separated(blocks)
    ensures |Rendering.OldLines(blocks)| + Growth(Rendering.HunksOf(blocks)) == |Rendering.NewLines(blocks)|
    decreases |blocks|
  {
    hide Old, New, AllMarked;
    if blocks != [] {
      Grows(blocks[..|blocks| - 1]);
    }
  }
}
