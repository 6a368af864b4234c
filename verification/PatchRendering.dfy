/**
 * Round trip: a two-file edit script, rendered as a patch with the line numbering of "Diff -u or -U Output Format"
 * in POSIX.1-2017, is given back to the applier. Where the applier reproduces the second file, and where not, is
 * settled exactly.
 */
module PatchRendering {
  import opened UnifiedPatch

  /** Unchanged lines followed by one changed region, written as marked lines. */
  datatype Block = Block(gap: seq<Line>, body: seq<Line>)

  predicate Marked(blocks: seq<Block>) { forall i :: 0 <= i < |blocks| ==> AllMarked(blocks[i].body) }

  /** Two changed regions are separated by at least one unchanged line; otherwise they are one region. */
  predicate Separated(blocks: seq<Block>) { forall i :: 0 < i < |blocks| ==> blocks[i].gap != [] }

  function OldLines(blocks: seq<Block>): seq<Line>
    requires Marked(blocks)
  {
    if blocks == [] then [] else
      var b := blocks[|blocks| - 1];
      OldLines(blocks[..|blocks| - 1]) + b.gap + Old(b.body)
  }

  function NewLines(blocks: seq<Block>): seq<Line>
    requires Marked(blocks)
  {
    if blocks == [] then [] else
      var b := blocks[|blocks| - 1];
      NewLines(blocks[..|blocks| - 1]) + b.gap + New(b.body)
  }

  // -------------------------------------------------------------------------
  // Rendering
  // -------------------------------------------------------------------------

  function Digit(n: nat): char
    requires n < 10
  {
    '0' + n as char
  }

  function Decimal(n: nat): (s: string)
    ensures s != "" && AllDigits(s)
  {
    if n < 10 then [Digit(n)] else Decimal(n / 10) + [Digit(n % 10)]
  }

  /** A count of exactly one is left out. */
  function RangeText(start: nat, count: nat): string {
    if count == 1 then Decimal(start) else Decimal(start) + "," + Decimal(count)
  }

  /** The number of the first line of a range, or of the line before it when the range is empty. */
  function FirstLine(linesBefore: nat, count: nat): nat {
    if count == 0 then linesBefore else linesBefore + 1
  }

  function Header(oldBefore: nat, oldCount: nat, newBefore: nat, newCount: nat): Line {
    "@@ -" + (RangeText(FirstLine(oldBefore, oldCount), oldCount) +
              (" +" + (RangeText(FirstLine(newBefore, newCount), newCount) + " @@")))
  }

  function BlockHeader(before: seq<Block>, b: Block): Line
    requires Marked(before) && AllMarked(b.body)
  {
    Header(|OldLines(before)| + |b.gap|, |Old(b.body)|, |NewLines(before)| + |b.gap|, |New(b.body)|)
  }

  function Render(blocks: seq<Block>): seq<Line>
    requires Marked(blocks)
  {
    if blocks == [] then [] else
      var before, b := blocks[..|blocks| - 1], blocks[|blocks| - 1];
      Render(before) + ([BlockHeader(before, b)] + b.body)
  }

  // -------------------------------------------------------------------------
  // Reading the rendering back
  // -------------------------------------------------------------------------

  lemma {:induction false} NumberOfDecimal(n: nat)
    ensures Number(Decimal(n)) == n
  {
    if n >= 10 {
      NumberOfDecimal(n / 10);
      assert Decimal(n)[..|Decimal(n)| - 1] == Decimal(n / 10);
    } else {
      assert Decimal(n)[..0] == "";
    }
  }

  lemma {:induction false} RunOfDigits(d: string, rest: string)
    requires AllDigits(d) && (rest == "" || !IsDigit(rest[0]))
    ensures DigitRun(d + rest) == |d|
  {
    if d == "" {
      assert d + rest == rest;
    } else {
      RunOfDigits(d[1..], rest);
      assert (d + rest)[1..] == d[1..] + rest;
    }
  }

  lemma RangeRead(start: nat, count: nat, rest: string)
    requires rest != "" && rest[0] == ' '
    ensures ParseRange(RangeText(start, count) + rest) == Some(Range(start, count, rest))
  {
    hide Decimal, DigitRun, Number;
    var d := Decimal(start);
    NumberOfDecimal(start);
    NumberOfDecimal(count);
    if count == 1 {
      RunOfDigits(d, rest);
      assert (d + rest)[..|d|] == d && (d + rest)[|d|..] == rest;
    } else {
      var c := Decimal(count);
      var s := RangeText(start, count) + rest;
      assert s == d + ("," + (c + rest));
      RunOfDigits(d, "," + (c + rest));
      RunOfDigits(c, rest);
      assert s[..|d|] == d && s[|d| + 1..] == c + rest;
      assert (c + rest)[..|c|] == c && (c + rest)[|c|..] == rest;
    }
  }

  lemma HeaderRead(oldBefore: nat, oldCount: nat, newBefore: nat, newCount: nat)
    ensures var line := Header(oldBefore, oldCount, newBefore, newCount);
            && ParseHeader(line) == Some(Hunk(TargetIndex(FirstLine(oldBefore, oldCount)), oldCount, newCount, []))
            && IsHunkStart(line)
  {
    hide ParseRange;
    hide RangeText;
    hide FirstLine;
    var from, to := RangeText(FirstLine(oldBefore, oldCount), oldCount), RangeText(FirstLine(newBefore, newCount), newCount);
    var line := Header(oldBefore, oldCount, newBefore, newCount);
    assert line[4..] == from + (" +" + (to + " @@")) && line[..4] == "@@ -" && line[..3] == "@@ ";
    RangeRead(FirstLine(oldBefore, oldCount), oldCount, " +" + (to + " @@"));
    assert (" +" + (to + " @@"))[2..] == to + " @@" && (" +" + (to + " @@"))[..2] == " +";
    RangeRead(FirstLine(newBefore, newCount), newCount, " @@");
    assert " @@"[..3] == " @@" && " @@"[3..] == "";
  }

  /** The hunks that the applier reads from a rendering. */
  function HunksOf(blocks: seq<Block>): (hunks: seq<Hunk>)
    requires Marked(blocks)
    ensures |hunks| == |blocks| && WellMarked(hunks)
  {
    if blocks == [] then [] else
      var before, b := blocks[..|blocks| - 1], blocks[|blocks| - 1];
      HunksOf(before) + [HunkOf(before, b)]
  }

  function HunkOf(before: seq<Block>, b: Block): Hunk
    requires Marked(before) && AllMarked(b.body)
  {
    Hunk(TargetIndex(FirstLine(|OldLines(before)| + |b.gap|, |Old(b.body)|)), |Old(b.body)|, |New(b.body)|, b.body)
  }

  lemma MarkedIsNoHunkStart(body: seq<Line>)
    requires AllMarked(body)
    ensures BodyLength(body) == |body|
  {
    forall i | 0 <= i < |body| ensures !IsHunkStart(body[i]) {
      assert IsMarked(body[i]);
      FirstChar(body[i], "@@ ");
    }
    BodyLengthIs(body, |body|);
  }

  /** One more hunk at the end of a patch is one more hunk in what it parses to. */
  lemma {:induction false} ParseAppended(lines: seq<Line>, header: Line, body: seq<Line>)
    requires ParseHunks(lines).Some? && ParseHeader(header).Some? && IsHunkStart(header) && AllMarked(body)
    ensures ParseHunks(lines + ([header] + body))
            == Some(ParseHunks(lines).value + [ParseHeader(header).value.(body := body)])
    decreases |lines|
  {
    hide ParseHeader;
    hide ParseHunks;
    hide BodyLength;
    hide IsHunkStart;
    hide AllMarked;
    var extra := [header] + body;
    var all := lines + extra;
    ParseStep(all);
    ParsedNothing();
    if lines == [] {
      assert all[0] == header && all[1..] == body;
      MarkedIsNoHunkStart(body);
      assert body[..|body|] == body && body[|body|..] == [];
      var only := ParseHeader(header).value.(body := body);
      assert [only] + [] == [] + [only];
    } else {
      var n := BodyLength(lines[1..]);
      BodyEndsAtHunk(lines, extra);
      ParseStep(lines);
      ParseAppended(lines[1..][n..], header, body);
      var first := ParseHeader(lines[0]).value.(body := lines[1..][..n]);
      Associates(first, ParseHunks(lines[1..][n..]).value, ParseHeader(header).value.(body := body));
    }
  }

  lemma Associates(a: Hunk, hs: seq<Hunk>, b: Hunk)
    ensures [a] + (hs + [b]) == ([a] + hs) + [b]
  {}

  lemma ParsedNothing()
    ensures ParseHunks([]) == Some([])
  {}

  /** The first hunk of a patch is not changed by what is appended. */
  lemma BodyEndsAtHunk(lines: seq<Line>, extra: seq<Line>)
    requires lines != [] && extra != [] && IsHunkStart(extra[0])
    ensures var n := BodyLength(lines[1..]);
            && n <= |lines[1..]|
            && (lines + extra)[0] == lines[0]
            && BodyLength((lines + extra)[1..]) == n
            && (lines + extra)[1..][..n] == lines[1..][..n]
            && (lines + extra)[1..][n..] == lines[1..][n..] + extra
  {
    hide IsHunkStart;
    var n := BodyLength(lines[1..]);
    assert (lines + extra)[1..] == lines[1..] + extra;
    BodyLengthIs((lines + extra)[1..], n);
  }

  lemma {:induction false} RenderingRead(blocks: seq<Block>)
    requires Marked(blocks)
    ensures ParseHunks(Render(blocks)) == Some(HunksOf(blocks))
    ensures blocks != [] ==> Render(blocks) != [] && IsHunkStart(Render(blocks)[0])
  {
    hide ParseHeader;
    hide ParseHunks;
    hide Header;
    hide IsHunkStart;
    hide Old;
    hide New;
    hide OldLines;
    hide NewLines;
    ParsedNothing();
    if blocks != [] {
      var before, b := blocks[..|blocks| - 1], blocks[|blocks| - 1];
      RenderingRead(before);
      HeaderRead(|OldLines(before)| + |b.gap|, |Old(b.body)|, |NewLines(before)| + |b.gap|, |New(b.body)|);
      ParseAppended(Render(before), BlockHeader(before, b), b.body);
      if before != [] {
        assert Render(blocks)[0] == Render(before)[0];
      }
    }
  }

  // -------------------------------------------------------------------------
  // Where the applier puts each block
  // -------------------------------------------------------------------------

  /** A pure insertion that is not at the start of the file: the applier places it one line too early. */
  predicate Early(before: seq<Block>, b: Block)
    requires Marked(before) && AllMarked(b.body)
  {
    Old(b.body) == [] && |OldLines(before)| + |b.gap| > 0
  }

  /** What the applier makes of one block. */
  function Produced(before: seq<Block>, b: Block): (lines: seq<Line>)
    requires Marked(before) && AllMarked(b.body)
    requires Early(before, b) ==> b.gap != []
  {
    if Early(before, b) then b.gap[..|b.gap| - 1] + New(b.body) + [b.gap[|b.gap| - 1]] else b.gap + New(b.body)
  }

  function ProducedLines(blocks: seq<Block>): seq<Line>
    requires Marked(blocks) && Separated(blocks)
  {
    if blocks == [] then [] else
      var before, b := blocks[..|blocks| - 1], blocks[|blocks| - 1];
      assert before == [] ==> OldLines(before) == [];
      ProducedLines(before) + Produced(before, b)
  }

  /** How many source lines before the end of the last block the applier has not copied yet. */
  function Lag(blocks: seq<Block>): nat
    requires Marked(blocks)
  {
    if blocks != [] && Early(blocks[..|blocks| - 1], blocks[|blocks| - 1]) then 1 else 0
  }

  lemma {:induction false} Placed(source: seq<Line>, blocks: seq<Block>, rest: seq<Line>)
    requires Marked(blocks) && Separated(blocks)
    requires source == OldLines(blocks) + rest
    ensures Fits(source, HunksOf(blocks))
    ensures End(HunksOf(blocks)) == |OldLines(blocks)| - Lag(blocks)
    ensures Emitted(source, HunksOf(blocks)) + source[End(HunksOf(blocks))..|OldLines(blocks)|] == ProducedLines(blocks)
    decreases |blocks|
  {
    hide Old;
    hide New;
    hide Fits;
    hide Matches;
    hide Emitted;
    hide OldLines;
    hide ProducedLines;
    hide HunksOf;
    Snoc(blocks);
    if blocks == [] {
      Begin(source, []);
    } else {
      var before, b := blocks[..|blocks| - 1], blocks[|blocks| - 1];
      assert source == OldLines(before) + (b.gap + Old(b.body) + rest);
      Placed(source, before, b.gap + Old(b.body) + rest);
      PlacedStep(source, blocks, rest);
    }
  }

  lemma PlacedStep(source: seq<Line>, blocks: seq<Block>, rest: seq<Line>)
    requires blocks != [] && Marked(blocks) && Separated(blocks)
    requires source == OldLines(blocks) + rest
    requires var done, passed := HunksOf(blocks[..|blocks| - 1]), |OldLines(blocks[..|blocks| - 1])|;
             && Fits(source, done) && End(done) <= passed <= |source|
             && Emitted(source, done) + source[End(done)..passed] == ProducedLines(blocks[..|blocks| - 1])
    ensures Fits(source, HunksOf(blocks))
    ensures End(HunksOf(blocks)) == |OldLines(blocks)| - Lag(blocks) >= 0
    ensures Emitted(source, HunksOf(blocks)) + source[End(HunksOf(blocks))..|OldLines(blocks)|] == ProducedLines(blocks)
  {
    hide Old;
    hide New;
    hide Fits;
    hide Matches;
    hide Emitted;
    hide OldLines;
    hide ProducedLines;
    hide HunksOf;
    hide AllMarked;
    hide Early;
    hide Produced;
    hide HunkOf;
    Snoc(blocks);
    var before, b := blocks[..|blocks| - 1], blocks[|blocks| - 1];
    var h, done := HunkOf(before, b), HunksOf(before);
    var passed, end := |OldLines(before)|, |OldLines(blocks)|;
    HunkIs(before, b);
    SourceParts(source, OldLines(before), b.gap, Old(b.body), rest);
    Matching(source, h, passed + |b.gap|);
    AcceptedHunk(source, done, h);
    Gaps(source, OldLines(before), b.gap, Old(b.body) + rest, End(done), h.at);
    var kept := b.gap[..h.at - passed];
    var late := source[h.at + h.oldCount..end];
    Emission(Emitted(source, done), source[End(done)..passed], kept, New(b.body), late);
    LateLines(before, b, source, kept, late);
  }

  lemma SourceParts(source: seq<Line>, before: seq<Line>, gap: seq<Line>, body: seq<Line>, rest: seq<Line>)
    requires source == before + gap + body + rest
    ensures source == before + (gap + (body + rest))
    ensures source[|before| + |gap|..|before| + |gap| + |body|] == body
  {
    SliceOf(before + gap, body, rest, source);
  }

  lemma HunkIs(before: seq<Block>, b: Block)
    requires Marked(before) && AllMarked(b.body) && (Early(before, b) ==> b.gap != [])
    ensures var h := HunkOf(before, b);
            && h.body == b.body && h.oldCount == |Old(b.body)| && h.newCount == |New(b.body)|
            && h.at == |OldLines(before)| + |b.gap| - (if Early(before, b) then 1 else 0)
            && (Early(before, b) ==> Old(b.body) == [])
  {}

  /** What is copied in front of the hunk, its new lines, and what is copied behind it. */
  lemma LateLines(before: seq<Block>, b: Block, source: seq<Line>, kept: seq<Line>, late: seq<Line>)
    requires Marked(before) && AllMarked(b.body) && (Early(before, b) ==> b.gap != [])
    requires var k := |b.gap| - (if Early(before, b) then 1 else 0);
             kept == b.gap[..k] && late == b.gap[k..]
    ensures kept + New(b.body) + late == Produced(before, b)
  {}

  /** The recursive definitions, unfolded at the last block. */
  lemma Snoc(blocks: seq<Block>)
    requires Marked(blocks) && Separated(blocks)
    ensures blocks == [] ==> OldLines(blocks) == [] && NewLines(blocks) == [] && ProducedLines(blocks) == []
                             && HunksOf(blocks) == []
    ensures blocks != [] ==>
              var before, b := blocks[..|blocks| - 1], blocks[|blocks| - 1];
              && Marked(before) && Separated(before) && AllMarked(b.body)
              && (Early(before, b) ==> b.gap != [])
              && (before != [] ==> b.gap != [])
              && OldLines(blocks) == OldLines(before) + b.gap + Old(b.body)
              && NewLines(blocks) == NewLines(before) + b.gap + New(b.body)
              && ProducedLines(blocks) == ProducedLines(before) + Produced(before, b)
              && HunksOf(blocks) == HunksOf(before) + [HunkOf(before, b)]
              && HunkOf(before, b).at == |OldLines(before)| + |b.gap| - Lag(blocks) >= |OldLines(before)|
  {
    hide Old;
    hide New;
    hide AllMarked;
    if blocks != [] {
      var before := blocks[..|blocks| - 1];
      assert before == [] ==> OldLines(before) == [];
    }
  }

  lemma Matching(source: seq<Line>, h: Hunk, passed: nat)
    requires AllMarked(h.body) && h.oldCount == |Old(h.body)| && h.newCount == |New(h.body)|
    requires passed + h.oldCount <= |source| && source[passed..passed + h.oldCount] == Old(h.body)
    requires h.at == passed || (h.at + 1 == passed && h.oldCount == 0)
    ensures Matches(source, h)
  {}

  lemma SliceOf(a: seq<Line>, b: seq<Line>, c: seq<Line>, all: seq<Line>)
    requires all == a + b + c
    ensures all[|a|..|a| + |b|] == b
  {}

  /** Copying from `from` to `at` copies what was still due and then the block's gap, up to `at`. */
  lemma Gaps(source: seq<Line>, before: seq<Line>, gap: seq<Line>, rest: seq<Line>, from: nat, at: nat)
    requires source == before + (gap + rest)
    requires from <= |before| <= at <= |before| + |gap|
    ensures source[from..at] == source[from..|before|] + gap[..at - |before|]
    ensures source[at..|before| + |gap|] == gap[at - |before|..]
  {}

  lemma Emission(emitted: seq<Line>, due: seq<Line>, kept: seq<Line>, new': seq<Line>, late: seq<Line>)
    ensures (emitted + (due + kept) + new') + late == (emitted + due) + (kept + new' + late)
  {}

  // -------------------------------------------------------------------------
  // The round trip
  // -------------------------------------------------------------------------

  /** Nothing is inserted without a replaced or context line, except at the start or among copies of the line before. */
  predicate Faithful(blocks: seq<Block>)
    requires Marked(blocks) && Separated(blocks)
  {
    forall i :: 0 <= i < |blocks| ==> FaithfulBlock(blocks[i], i)
  }

  predicate FaithfulBlock(b: Block, i: nat)
    requires AllMarked(b.body) && (i > 0 ==> b.gap != [])
  {
    || Old(b.body) != []
    || b.gap == []
    || forall l :: l in New(b.body) ==> l == b.gap[|b.gap| - 1]
  }

  lemma {:induction false} Commutes(x: Line, w: seq<Line>)
    ensures w + [x] == [x] + w <==> forall l :: l in w ==> l == x
    decreases |w|
  {
    if w != [] {
      Commutes(x, w[1..]);
      if w + [x] == [x] + w {
        assert w[0] == (w + [x])[0] == x;
        assert w[1..] + [x] == (w + [x])[1..] == w == [x] + w[1..];
        assert w == [w[0]] + w[1..];
      }
      if forall l :: l in w ==> l == x {
        assert w[0] in w && forall l :: l in w[1..] ==> l in w;
        assert w == [x] + w[1..] == w[1..] + [x];
        assert w + [x] == [x] + (w[1..] + [x]) == [x] + w;
      }
    }
  }

  /** A block comes out right exactly when it is not early, or only repeats the line it was moved in front of. */
  lemma BlockRight(before: seq<Block>, b: Block)
    requires Marked(before) && AllMarked(b.body) && (before != [] ==> b.gap != [])
    requires Early(before, b) ==> b.gap != []
    ensures |Produced(before, b)| == |b.gap + New(b.body)|
    ensures Produced(before, b) == b.gap + New(b.body) <==> FaithfulBlock(b, |before|)
  {
    hide New, AllMarked, Marked;
    assert before == [] ==> OldLines(before) == [];
    if Early(before, b) {
      var head, last := b.gap[..|b.gap| - 1], b.gap[|b.gap| - 1];
      Commutes(last, New(b.body));
      assert b.gap + New(b.body) == head + ([last] + New(b.body));
      assert Produced(before, b) == head + (New(b.body) + [last]);
      SamePrefixed(head, [last] + New(b.body), New(b.body) + [last]);
    }
  }

  lemma SamePrefixed(a: seq<Line>, b: seq<Line>, c: seq<Line>)
    ensures a + b == a + c <==> b == c
  {
    if a + b == a + c {
      assert b == (a + b)[|a|..];
      assert c == (a + c)[|a|..];
    }
  }

  lemma SameParts(a: seq<Line>, b: seq<Line>, c: seq<Line>, d: seq<Line>)
    requires |a| == |c|
    ensures a + b == c + d <==> a == c && b == d
  {
    if a + b == c + d {
      assert a == (a + b)[..|a|] && c == (c + d)[..|c|];
      assert b == (a + b)[|a|..] && d == (c + d)[|c|..];
    }
  }

  lemma {:induction false} BlocksRight(blocks: seq<Block>)
    requires Marked(blocks) && Separated(blocks)
    ensures |ProducedLines(blocks)| == |NewLines(blocks)|
    ensures ProducedLines(blocks) == NewLines(blocks) <==> Faithful(blocks)
    decreases |blocks|
  {
    hide Old;
    hide New;
    hide OldLines;
    hide NewLines;
    hide ProducedLines;
    hide Produced;
    hide Early;
    hide FaithfulBlock;
    hide AllMarked;
    Snoc(blocks);
    if blocks != [] {
      var before, b := blocks[..|blocks| - 1], blocks[|blocks| - 1];
      BlocksRight(before);
      BlockRight(before, b);
      FaithfulStep(blocks);
      assert NewLines(blocks) == NewLines(before) + (b.gap + New(b.body));
      SameParts(ProducedLines(before), Produced(before, b), NewLines(before), b.gap + New(b.body));
    }
  }

  lemma FaithfulStep(blocks: seq<Block>)
    requires blocks != [] && Marked(blocks) && Separated(blocks)
    ensures var before, b := blocks[..|blocks| - 1], blocks[|blocks| - 1];
            Faithful(blocks) <==> Faithful(before) && FaithfulBlock(b, |before|)
  {
    hide AllMarked;
    hide FaithfulBlock;
    var before, b := blocks[..|blocks| - 1], blocks[|blocks| - 1];
    if Faithful(before) && FaithfulBlock(b, |before|) {
      forall i | 0 <= i < |blocks| ensures FaithfulBlock(blocks[i], i) {
        if i < |before| { assert FaithfulBlock(before[i], i); }
      }
    }
    if Faithful(blocks) {
      forall i | 0 <= i < |before| ensures FaithfulBlock(before[i], i) {
        assert FaithfulBlock(blocks[i], i);
      }
      assert FaithfulBlock(blocks[|before|], |before|);
    }
  }

  /**
   * The applier accepts every rendered edit script, and reproduces the second file exactly when every block that
   * only inserts stands at the start of the file or repeats the line before it.
   */
  lemma {:induction false} RoundTrip(fileHeaders: seq<Line>, blocks: seq<Block>, tail: seq<Line>)
    requires forall i :: 0 <= i < |fileHeaders| ==> IsFileHeader(fileHeaders[i])
    requires blocks != [] && Marked(blocks) && Separated(blocks)
    ensures var source, patch := OldLines(blocks) + tail, fileHeaders + Render(blocks);
            && Parse(patch).Some?
            && Fits(source, Parse(patch).value)
            && (ApplyBackwards(source, Parse(patch).value) == NewLines(blocks) + tail <==> Faithful(blocks))
  {
    hide ParseHunks;
    hide Render;
    hide Fits;
    hide Faithful;
    hide ApplyBackwards;
    hide Emitted;
    hide OldLines;
    hide NewLines;
    hide ProducedLines;
    hide HunksOf;
    hide IsFileHeader;
    hide IsHunkStart;
    hide AllMarked;
    hide End;
    hide Lag;
    var source := OldLines(blocks) + tail;
    RenderingParsed(fileHeaders, blocks);
    Placed(source, blocks, tail);
    ForwardIsBackwards(source, HunksOf(blocks));
    BlocksRight(blocks);
    Tail(Emitted(source, HunksOf(blocks)), OldLines(blocks), tail, End(HunksOf(blocks)));
    SameParts(ProducedLines(blocks), tail, NewLines(blocks), tail);
  }

  /** What a rendering with file headers in front of it parses to. */
  lemma RenderingParsed(fileHeaders: seq<Line>, blocks: seq<Block>)
    requires forall i :: 0 <= i < |fileHeaders| ==> IsFileHeader(fileHeaders[i])
    requires blocks != [] && Marked(blocks)
    ensures Parse(fileHeaders + Render(blocks)) == Some(HunksOf(blocks))
  {
    hide ParseHunks, Render, HunksOf, IsFileHeader, IsHunkStart, AllMarked;
    var patch := fileHeaders + Render(blocks);
    RenderingRead(blocks);
    HunkStartIsNoFileHeader(Render(blocks)[0]);
    FileHeadersAre(patch, |fileHeaders|);
    assert patch[|fileHeaders|..] == Render(blocks);
  }

  lemma Tail(emitted: seq<Line>, lines: seq<Line>, tail: seq<Line>, done: nat)
    requires done <= |lines|
    ensures emitted + (lines + tail)[done..] == (emitted + (lines + tail)[done..|lines|]) + tail
  {}

  lemma FileHeadersAre(lines: seq<Line>, n: nat)
    requires n < |lines| && (forall i :: 0 <= i < n ==> IsFileHeader(lines[i])) && !IsFileHeader(lines[n])
    ensures FileHeaders(lines) == n
  {}

  /** The smallest failure: inserting a line after line 1 of a two-line file puts it before line 1. */
  lemma InsertionAfterALine()
    ensures var blocks := [Block(["a"], ["+x"])];
            && Marked(blocks) && Separated(blocks)
            && OldLines(blocks) + ["b"] == ["a", "b"]
            && NewLines(blocks) + ["b"] == ["a", "x", "b"]
            && Fits(["a", "b"], HunksOf(blocks))
            && ApplyBackwards(["a", "b"], HunksOf(blocks)) == ["x", "a", "b"]
  {
    var b := Block(["a"], ["+x"]);
    var blocks := [b];
    assert blocks[..0] == [] && ["+x"][..0] == [];
    assert "+x"[1..] == "x";
    EmptyBody();
    assert OldLines([]) == [] && NewLines([]) == [] && HunksOf([]) == [];
    assert Old(b.body) == Old([]) + [] && New(b.body) == New([]) + ["x"];
    assert OldLines(blocks) == OldLines([]) + b.gap + Old(b.body) == ["a"];
    assert NewLines(blocks) == NewLines([]) + b.gap + New(b.body) == ["a", "x"];
    assert HunksOf(blocks) == HunksOf([]) + [HunkOf([], b)];
    assert HunkOf([], b) == Hunk(0, 0, 1, ["+x"]);
    Placed(["a", "b"], blocks, ["b"]);
    ForwardIsBackwards(["a", "b"], HunksOf(blocks));
    assert HunksOf(blocks)[..0] == [];
  }
}
