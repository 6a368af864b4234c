/**
 * What a patch is, as a grammar: its headers, its hunks and what the markers mean, without naming how the applier reads
 * them.
 */
module PatchRules {
  import opened UnifiedPatch
  import Rendering = PatchRendering

  // -------------------------------------------------------------------------
  // Markers
  // -------------------------------------------------------------------------

  /** A body expects and leaves its lines in order. */
  lemma {:induction false} BodyParts(a: seq<Line>, b: seq<Line>)
    requires AllMarked(a) && AllMarked(b)
    ensures AllMarked(a + b)
    ensures Old(a + b) == Old(a) + Old(b) && New(a + b) == New(a) + New(b)
    decreases |b|
  {
    hide Old, New, IsMarked;
    EmptyBody();
    if b == [] {
      assert a + b == a && Old(a) + [] == Old(a) && New(a) + [] == New(a);
    } else {
      var before, last := b[..|b| - 1], b[|b| - 1];
      BodyParts(a, before);
      assert a + b == (a + before) + [last] && b == before + [last];
      BodyStep(a + before, last);
      BodyStep(before, last);
    }
  }

  /** A context line is expected and left, a removed one only expected, an added one only left. */
  lemma MarkersMean(text: Line)
    ensures Old([" " + text]) == [text] && New([" " + text]) == [text]
    ensures Old(["-" + text]) == [text] && New(["-" + text]) == []
    ensures Old(["+" + text]) == [] && New(["+" + text]) == [text]
  {
    EmptyBody();
    forall marker | marker in [" ", "-", "+"]
      ensures AllMarked([marker + text])
      ensures Old([marker + text]) == (if marker == "+" then [] else [text])
      ensures New([marker + text]) == (if marker == "-" then [] else [text])
    {
      var line := marker + text;
      assert line[0] == marker[0] && line[1..] == text;
      BodyStep([], line);
      assert [] + [line] == [line];
    }
    assert " " in [" ", "-", "+"] && "-" in [" ", "-", "+"] && "+" in [" ", "-", "+"];
  }

  // -------------------------------------------------------------------------
  // Headers
  // -------------------------------------------------------------------------

  /** `start`, for one line, or `start,count`. */
  ghost predicate IsRange(text: string, start: nat, count: nat) {
    || (text != "" && AllDigits(text) && start == Number(text) && count == 1)
    || exists a, b :: IsPair(text, a, b) && start == Number(a) && count == Number(b)
  }

  predicate IsPair(text: string, a: string, b: string) {
    text == a + "," + b && a != "" && AllDigits(a) && b != "" && AllDigits(b)
  }

  predicate IsSpelling(line: Line, old': string, new': string, tail: string) {
    line == "@@ -" + old' + " +" + new' + " @@" + tail && (tail == "" || tail[0] == ' ')
  }

  /** The header of a hunk that goes before the line numbered `from`, or at the start for 0. */
  ghost predicate IsHeader(line: Line, from: nat, oldCount: nat, to: nat, newCount: nat) {
    exists old', new', tail ::
      IsSpelling(line, old', new', tail) && IsRange(old', from, oldCount) && IsRange(new', to, newCount)
  }

  /** The header line of this hunk. */
  ghost predicate HeaderOf(line: Line, h: Hunk) {
    exists from: nat, to: nat ::
      IsHeader(line, from, h.oldCount, to, h.newCount) && h.at == (if from > 0 then from - 1 else 0)
  }

  lemma RangeSound(s: string) returns (text: string)
    requires ParseRange(s).Some?
    ensures var r := ParseRange(s).value; s == text + r.rest && IsRange(text, r.start, r.count)
  {
    hide DigitRun, Number, AllDigits;
    var n := DigitRun(s);
    if n < |s| && s[n] == ',' {
      var m := DigitRun(s[n + 1..]);
      var a, b := s[..n], s[n + 1..][..m];
      text := a + "," + b;
      Cut(s, n, m);
      assert IsPair(text, a, b);
    } else {
      text := s[..n];
    }
  }

  lemma Cut(s: string, n: nat, m: nat)
    requires n < |s| && s[n] == ',' && m <= |s[n + 1..]|
    ensures s == s[..n] + "," + s[n + 1..][..m] + s[n + 1..][m..]
  {
    assert s == s[..n] + [s[n]] + s[n + 1..];
  }

  lemma RangeComplete(text: string, start: nat, count: nat, rest: string)
    requires IsRange(text, start, count) && rest != "" && rest[0] == ' '
    ensures ParseRange(text + rest) == Some(Range(start, count, rest))
  {
    hide ParseRange, Number, AllDigits;
    if text != "" && AllDigits(text) && start == Number(text) && count == 1 {
      OneRead(text, rest);
    } else {
      var a, b :| IsPair(text, a, b) && start == Number(a) && count == Number(b);
      PairRead(a, b, rest);
    }
  }

  /** Digits in front of something else. */
  lemma RunSplit(s: string, a: string, rest: string)
    requires s == a + rest && AllDigits(a) && rest != "" && !IsDigit(rest[0])
    ensures DigitRun(s) == |a| < |s| && s[..|a|] == a && s[|a|..] == rest
    ensures s[|a|] == rest[0] && s[|a| + 1..] == rest[1..]
  {
    Rendering.RunOfDigits(a, rest);
  }

  lemma OneRead(a: string, rest: string)
    requires a != "" && AllDigits(a) && rest != "" && rest[0] == ' '
    ensures ParseRange(a + rest) == Some(Range(Number(a), 1, rest))
  {
    hide DigitRun, Number, AllDigits;
    RunSplit(a + rest, a, rest);
  }

  lemma PairRead(a: string, b: string, rest: string)
    requires a != "" && AllDigits(a) && b != "" && AllDigits(b) && rest != "" && rest[0] == ' '
    ensures ParseRange((a + "," + b) + rest) == Some(Range(Number(a), Number(b), rest))
  {
    hide ParseRange, DigitRun, Number, AllDigits;
    var behind := "," + (b + rest);
    var s := (a + "," + b) + rest;
    assert s == a + behind;
    assert behind[1..] == b + rest;
    PairReadIn(s, a, behind, b, rest);
  }

  lemma PairReadIn(s: string, a: string, behind: string, b: string, rest: string)
    requires a != "" && AllDigits(a) && b != "" && AllDigits(b) && rest != "" && rest[0] == ' '
    requires s == a + behind && behind != "" && behind[0] == ',' && behind[1..] == b + rest
    ensures ParseRange(s) == Some(Range(Number(a), Number(b), rest))
  {
    hide DigitRun, Number, AllDigits;
    RunSplit(s, a, behind);
    RunSplit(behind[1..], b, rest);
  }

  lemma Prefixed(s: string, prefix: string)
    ensures StartsWith(s, prefix) ==> s == prefix + s[|prefix|..]
    ensures StartsWith(prefix + s, prefix) && (prefix + s)[|prefix|..] == s
  {}

  lemma Assembled(line: Line, s: string, old': string, t: string, u: string, new': string, v: string, tail: string)
    requires line == "@@ -" + s && s == old' + t && t == " +" + u && u == new' + v && v == " @@" + tail
    ensures line == "@@ -" + old' + " +" + new' + " @@" + tail
  {
    assert s == old' + (" +" + (new' + (" @@" + tail)));
    assert line == "@@ -" + (old' + (" +" + (new' + (" @@" + tail))));
  }

  lemma HeaderSound(line: Line)
    requires ParseHeader(line).Some?
    ensures HeaderOf(line, ParseHeader(line).value) && ParseHeader(line).value.body == []
  {
    hide ParseRange, IsRange, StartsWith;
    Prefixed(line, "@@ -");
    var from := ParseRange(line[4..]).value;
    var old' := RangeSound(line[4..]);
    Prefixed(from.rest, " +");
    var to := ParseRange(from.rest[2..]).value;
    var new' := RangeSound(from.rest[2..]);
    Prefixed(to.rest, " @@");
    var tail := to.rest[3..];
    Assembled(line, line[4..], old', from.rest, from.rest[2..], new', to.rest, tail);
    assert IsSpelling(line, old', new', tail);
    assert IsHeader(line, from.start, from.count, to.start, to.count);
  }

  lemma HeaderComplete(line: Line, h: Hunk)
    requires HeaderOf(line, h) && h.body == []
    ensures ParseHeader(line) == Some(h)
  {
    hide ParseRange, IsRange;
    var from: nat, to: nat :|
      IsHeader(line, from, h.oldCount, to, h.newCount) && h.at == (if from > 0 then from - 1 else 0);
    var old', new', tail :|
      IsSpelling(line, old', new', tail) && IsRange(old', from, h.oldCount) && IsRange(new', to, h.newCount);
    SpellingRead(line, old', from, h.oldCount, new', to, h.newCount, tail);
  }

  lemma SpellingRead(line: Line, old': string, from: nat, oldCount: nat, new': string, to: nat, newCount: nat, tail: string)
    requires IsSpelling(line, old', new', tail) && IsRange(old', from, oldCount) && IsRange(new', to, newCount)
    ensures ParseHeader(line) == Some(Hunk(TargetIndex(from), oldCount, newCount, []))
  {
    hide ParseRange, IsRange, StartsWith;
    var third := " @@" + tail;
    var second := " +" + (new' + third);
    assert line == "@@ -" + (old' + second);
    Prefixed(old' + second, "@@ -");
    RangeComplete(old', from, oldCount, second);
    Prefixed(new' + third, " +");
    RangeComplete(new', to, newCount, third);
    Prefixed(tail, " @@");
  }

  /** The header reader accepts exactly the spelled headers, and reads the numbers spelled in them. */
  lemma HeaderIff(line: Line, h: Hunk)
    ensures ParseHeader(line) == Some(h) <==> HeaderOf(line, h) && h.body == []
  {
    hide ParseHeader, HeaderOf;
    if ParseHeader(line) == Some(h) {
      HeaderSound(line);
    }
    if HeaderOf(line, h) && h.body == [] {
      HeaderComplete(line, h);
    }
  }

  // -------------------------------------------------------------------------
  // Patches
  // -------------------------------------------------------------------------

  /** Each hunk's header line and body, in order. */
  function Spelled(headers: seq<Line>, hunks: seq<Hunk>): seq<Line>
    requires |headers| == |hunks|
  {
    if hunks == [] then [] else [headers[0]] + hunks[0].body + Spelled(headers[1..], hunks[1..])
  }

  ghost predicate AreHunks(headers: seq<Line>, hunks: seq<Hunk>) {
    && |headers| == |hunks|
    && forall i :: 0 <= i < |hunks| ==> IsHunk(headers[i], hunks[i])
  }

  ghost predicate IsHunk(header: Line, h: Hunk) {
    HeaderOf(header, h.(body := [])) && AllMarked(h.body)
  }

  /** A patch: lines in front that belong to file headers, and then these hunks, at least one. */
  ghost predicate IsPatch(patch: seq<Line>, hunks: seq<Hunk>) {
    exists front, headers :: IsSplit(patch, front, headers, hunks)
  }

  ghost predicate IsSplit(patch: seq<Line>, front: seq<Line>, headers: seq<Line>, hunks: seq<Hunk>) {
    && (forall i :: 0 <= i < |front| ==> IsFileHeader(front[i]))
    && hunks != [] && AreHunks(headers, hunks)
    && patch == front + Spelled(headers, hunks)
  }

  lemma OneMore(header: Line, h: Hunk, headers: seq<Line>, hunks: seq<Hunk>)
    requires |headers| == |hunks|
    ensures Spelled([header] + headers, [h] + hunks) == [header] + h.body + Spelled(headers, hunks)
    ensures AreHunks([header] + headers, [h] + hunks) <==>
              IsHunk(header, h) && AreHunks(headers, hunks)
  {
    hide IsHunk;
    var all, more := [header] + headers, [h] + hunks;
    assert all[1..] == headers && more[1..] == hunks;
    assert all[0] == header && more[0] == h;
    if AreHunks(all, more) {
      forall i | 0 <= i < |hunks| ensures IsHunk(headers[i], hunks[i]) {
        assert IsHunk(all[i + 1], more[i + 1]);
      }
    }
    if IsHunk(header, h) && AreHunks(headers, hunks) {
      forall i | 0 <= i < |more| ensures IsHunk(all[i], more[i]) {
        if i > 0 {
          assert IsHunk(headers[i - 1], hunks[i - 1]);
        }
      }
    }
  }

  lemma {:induction false} HunksSound(lines: seq<Line>) returns (headers: seq<Line>)
    requires ParseHunks(lines).Some?
    ensures AreHunks(headers, ParseHunks(lines).value) && lines == Spelled(headers, ParseHunks(lines).value)
    decreases |lines|
  {
    hide ParseHeader, HeaderOf, AllMarked, BodyLength, ParseHunks, Spelled;
    headers := [];
    Rendering.ParsedNothing();
    if lines == [] {
      NothingSpelled();
    } else {
      ParseStep(lines);
      var n := BodyLength(lines[1..]);
      var rest := HunksSound(lines[1..][n..]);
      HeaderSound(lines[0]);
      var first := ParseHeader(lines[0]).value.(body := lines[1..][..n]);
      OneMore(lines[0], first, rest, ParseHunks(lines[1..][n..]).value);
      headers := [lines[0]] + rest;
      assert lines == [lines[0]] + lines[1..][..n] + lines[1..][n..];
    }
  }

  lemma NothingSpelled()
    ensures AreHunks([], []) && Spelled([], []) == []
  {}

  lemma HeaderIsHunkStart(line: Line, h: Hunk)
    requires HeaderOf(line, h)
    ensures IsHunkStart(line) && !IsFileHeader(line)
  {
    hide IsRange;
    var from: nat, to: nat :|
      IsHeader(line, from, h.oldCount, to, h.newCount) && h.at == (if from > 0 then from - 1 else 0);
    var old', new', tail :|
      IsSpelling(line, old', new', tail) && IsRange(old', from, h.oldCount) && IsRange(new', to, h.newCount);
    assert line[..3] == "@@ ";
    HunkStartIsNoFileHeader(line);
  }

  lemma {:induction false} HunksComplete(headers: seq<Line>, hunks: seq<Hunk>)
    requires AreHunks(headers, hunks)
    ensures ParseHunks(Spelled(headers, hunks)) == Some(hunks)
    ensures hunks != [] ==> Spelled(headers, hunks) != [] && Spelled(headers, hunks)[0] == headers[0]
    decreases |hunks|
  {
    hide ParseHeader, HeaderOf, IsMarked, BodyLength, AllMarked, IsHunkStart, IsFileHeader, ParseHunks, Spelled;
    Rendering.ParsedNothing();
    NothingSpelled();
    if hunks != [] {
      var h := hunks[0];
      var rest := Spelled(headers[1..], hunks[1..]);
      assert headers == [headers[0]] + headers[1..] && hunks == [h] + hunks[1..];
      OneMore(headers[0], h, headers[1..], hunks[1..]);
      HunksComplete(headers[1..], hunks[1..]);
      HeaderComplete(headers[0], h.(body := []));
      if rest != [] {
        HeaderIsHunkStart(headers[1], hunks[1].(body := []));
      }
      OneHunkRead(headers[0], h, rest);
      assert h.(body := []).(body := h.body) == h;
    }
  }

  lemma OneHunkRead(header: Line, h: Hunk, rest: seq<Line>)
    requires ParseHeader(header) == Some(h.(body := [])) && AllMarked(h.body)
    requires rest == [] || IsHunkStart(rest[0])
    ensures ParseHunks([header] + h.body + rest) == Joined([h], ParseHunks(rest))
  {
    hide ParseHeader, BodyLength, AllMarked, IsHunkStart, ParseHunks;
    var lines := [header] + h.body + rest;
    assert lines[0] == header && lines[1..] == h.body + rest;
    BodyUpTo(h.body, rest);
    assert (h.body + rest)[..|h.body|] == h.body && (h.body + rest)[|h.body|..] == rest;
    ParseStep(lines);
  }

  lemma BodyUpTo(body: seq<Line>, rest: seq<Line>)
    requires AllMarked(body) && (rest == [] || IsHunkStart(rest[0]))
    ensures BodyLength(body + rest) == |body|
  {
    hide IsHunkStart;
    Rendering.MarkedIsNoHunkStart(body);
    BodyLengthIs(body + rest, |body|);
  }

  /** A patch is accepted exactly if it is one, and read as the hunks it spells. */
  lemma ParsedIff(patch: seq<Line>, hunks: seq<Hunk>)
    ensures Parse(patch) == Some(hunks) <==> IsPatch(patch, hunks)
  {
    hide ParseHunks, HeaderOf, IsFileHeader;
    if Parse(patch) == Some(hunks) {
      var n := FileHeaders(patch);
      var headers := HunksSound(patch[n..]);
      assert IsSplit(patch, patch[..n], headers, hunks);
    }
    if IsPatch(patch, hunks) {
      var front, headers :| IsSplit(patch, front, headers, hunks);
      HunksComplete(headers, hunks);
      HeaderIsHunkStart(headers[0], hunks[0].(body := []));
      assert patch[|front|] == headers[0] && patch[|front|..] == Spelled(headers, hunks);
      Rendering.FileHeadersAre(patch, |front|);
    }
  }
}
