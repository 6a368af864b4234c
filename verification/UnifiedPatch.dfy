/**
 * The unified-diff applier, over the line lists that `splitlines` yields. One forward pass over the patch is proved
 * to be the application of the parsed hunks, last to first, as independent slice replacements.
 */
module UnifiedPatch {

  type Line = string

  datatype Option<+T> = None | Some(value: T)

  /** A hunk as parsed: where it goes in the source, its two declared counts, and its marked lines. */
  datatype Hunk = Hunk(at: nat, oldCount: nat, newCount: nat, body: seq<Line>)

  // -------------------------------------------------------------------------
  // Hunk headers
  // -------------------------------------------------------------------------

  predicate IsDigit(c: char) { '0' <= c <= '9' }

  function DigitValue(c: char): nat
    requires IsDigit(c)
  {
    c as int - '0' as int
  }

  predicate AllDigits(s: string) { forall i :: 0 <= i < |s| ==> IsDigit(s[i]) }

  function Number(s: string): nat
    requires AllDigits(s)
  {
    if s == "" then 0 else 10 * Number(s[..|s| - 1]) + DigitValue(s[|s| - 1])
  }

  /** The length of the run of digits that `s` begins with. */
  function DigitRun(s: string): (n: nat)
    ensures n <= |s| && AllDigits(s[..n]) && (n < |s| ==> !IsDigit(s[n]))
  {
    if s == "" || !IsDigit(s[0]) then 0 else
      var n := DigitRun(s[1..]);
      assert s[..n + 1] == [s[0]] + s[1..][..n];
      1 + n
  }

  predicate StartsWith(s: string, prefix: string) {
    |prefix| <= |s| && s[..|prefix|] == prefix
  }

  /** A range `start` or `start,count`; an absent count is 1. */
  datatype Range = Range(start: nat, count: nat, rest: string)

  function ParseRange(s: string): Option<Range> {
    var n := DigitRun(s);
    if n == 0 then None
    else if n < |s| && s[n] == ',' then
      var m := DigitRun(s[n + 1..]);
      if m == 0 then None
      else Some(Range(Number(s[..n]), Number(s[n + 1..][..m]), s[n + 1..][m..]))
    else Some(Range(Number(s[..n]), 1, s[n..]))
  }

  /** The header pattern `@@ -a[,b] +c[,d] @@[ text]`; the result has no body yet. */
  function ParseHeader(line: Line): Option<Hunk> {
    if !StartsWith(line, "@@ -") then None else
      var from := ParseRange(line[4..]);
      if from.None? || !StartsWith(from.value.rest, " +") then None else
        var to := ParseRange(from.value.rest[2..]);
        if to.None? || !StartsWith(to.value.rest, " @@") then None else
          var tail := to.value.rest[3..];
          if tail != "" && tail[0] != ' ' then None
          else Some(Hunk(TargetIndex(from.value.start), from.value.count, to.value.count, []))
  }

  /** The zero-based line index at which a hunk with this old start is placed. */
  function TargetIndex(oldStart: nat): nat {
    if oldStart == 0 then 0 else oldStart - 1
  }

  // -------------------------------------------------------------------------
  // Parsing a patch
  // -------------------------------------------------------------------------

  predicate IsFileHeader(line: Line) {
    StartsWith(line, "--- ") || StartsWith(line, "+++ ") || StartsWith(line, "diff ") || StartsWith(line, "index ")
  }

  predicate IsHunkStart(line: Line) { StartsWith(line, "@@ ") }

  predicate IsMarked(line: Line) { line != "" && line[0] in {' ', '+', '-'} }

  /** The lines up to the next hunk. */
  function BodyLength(lines: seq<Line>): (n: nat)
    ensures n <= |lines|
    ensures forall i :: 0 <= i < n ==> !IsHunkStart(lines[i])
    ensures n < |lines| ==> IsHunkStart(lines[n])
  {
    if lines == [] || IsHunkStart(lines[0]) then 0 else 1 + BodyLength(lines[1..])
  }

  predicate AllMarked(body: seq<Line>) { forall i :: 0 <= i < |body| ==> IsMarked(body[i]) }

  function ParseHunks(lines: seq<Line>): (hunks: Option<seq<Hunk>>)
    ensures hunks.Some? ==> WellMarked(hunks.value)
    decreases |lines|
  {
    if lines == [] then Some([]) else
      var header := ParseHeader(lines[0]);
      var n := BodyLength(lines[1..]);
      var body := lines[1..][..n];
      if header.None? || !AllMarked(body) then None else
        var rest := ParseHunks(lines[1..][n..]);
        if rest.None? then None else Some([header.value.(body := body)] + rest.value)
  }

  function FileHeaders(lines: seq<Line>): (n: nat)
    ensures n <= |lines|
    ensures forall i :: 0 <= i < n ==> IsFileHeader(lines[i])
    ensures n < |lines| ==> !IsFileHeader(lines[n])
  {
    if lines == [] || !IsFileHeader(lines[0]) then 0 else 1 + FileHeaders(lines[1..])
  }

  /** A patch: file headers, then at least one hunk, and nothing else. */
  function Parse(patch: seq<Line>): (parsed: Option<seq<Hunk>>)
    ensures parsed.Some? ==> WellMarked(parsed.value)
  {
    var hunks := ParseHunks(patch[FileHeaders(patch)..]);
    if hunks.None? || hunks.value == [] then None else hunks
  }

  // -------------------------------------------------------------------------
  // What hunks mean
  // -------------------------------------------------------------------------

  /** The lines a body expects in the source: context and removals. */
  function Old(body: seq<Line>): seq<Line>
    requires AllMarked(body)
  {
    if body == [] then [] else
      var l := body[|body| - 1];
      Old(body[..|body| - 1]) + (if l[0] != '+' then [l[1..]] else [])
  }

  /** The lines a body leaves in the result: context and additions. */
  function New(body: seq<Line>): seq<Line>
    requires AllMarked(body)
  {
    if body == [] then [] else
      var l := body[|body| - 1];
      New(body[..|body| - 1]) + (if l[0] != '-' then [l[1..]] else [])
  }

  predicate WellMarked(hunks: seq<Hunk>) { forall i :: 0 <= i < |hunks| ==> AllMarked(hunks[i].body) }

  /** The hunk's counts are its true ones, and the source has the expected lines where the hunk goes. */
  predicate Matches(source: seq<Line>, h: Hunk)
    requires AllMarked(h.body)
  {
    && |Old(h.body)| == h.oldCount
    && |New(h.body)| == h.newCount
    && h.at + h.oldCount <= |source|
    && source[h.at..h.at + h.oldCount] == Old(h.body)
  }

  /** Ordered, non-overlapping, in range, matching and count-consistent. */
  predicate Fits(source: seq<Line>, hunks: seq<Hunk>)
    requires WellMarked(hunks)
  {
    && (forall i :: 0 <= i < |hunks| ==> Matches(source, hunks[i]))
    && (forall i :: 0 < i < |hunks| ==> hunks[i - 1].at + hunks[i - 1].oldCount <= hunks[i].at)
  }

  /** Reference meaning: replace slices independently, from the last hunk to the first. */
  function ApplyBackwards(source: seq<Line>, hunks: seq<Hunk>): seq<Line>
    requires WellMarked(hunks)
    decreases |hunks|
  {
    if hunks == [] then source else
      var h := hunks[|hunks| - 1];
      if h.at + h.oldCount > |source| then source
      else ApplyBackwards(source[..h.at] + New(h.body) + source[h.at + h.oldCount..], hunks[..|hunks| - 1])
  }

  // -------------------------------------------------------------------------
  // The forward pass
  // -------------------------------------------------------------------------

  function End(hunks: seq<Hunk>): nat {
    if hunks == [] then 0 else hunks[|hunks| - 1].at + hunks[|hunks| - 1].oldCount
  }

  /** What the forward pass has emitted after these hunks. */
  function Emitted(source: seq<Line>, hunks: seq<Hunk>): seq<Line>
    requires WellMarked(hunks) && Fits(source, hunks)
  {
    if hunks == [] then [] else
      var before, h := hunks[..|hunks| - 1], hunks[|hunks| - 1];
      FitsPrefix(source, before, h);
      Emitted(source, before) + source[End(before)..h.at] + New(h.body)
  }

  lemma FitsPrefix(source: seq<Line>, before: seq<Hunk>, h: Hunk)
    requires WellMarked(before + [h])
    ensures WellMarked(before) && AllMarked(h.body)
    ensures Fits(source, before + [h]) <==>
              Fits(source, before) && Matches(source, h) && End(before) <= h.at
  {
    var all := before + [h];
    assert forall i :: 0 <= i < |before| ==> all[i] == before[i];
    assert all[|before|] == h;
    if Fits(source, before) && Matches(source, h) && End(before) <= h.at {
      forall i | 0 <= i < |all| ensures Matches(source, all[i]) {
        if i < |before| { assert Matches(source, before[i]); }
      }
      forall i | 0 < i < |all| ensures all[i - 1].at + all[i - 1].oldCount <= all[i].at {
        if i < |before| { assert before[i - 1].at + before[i - 1].oldCount <= before[i].at; }
      }
    }
    if Fits(source, all) {
      assert Matches(source, all[|before|]);
      forall i | 0 <= i < |before| ensures Matches(source, before[i]) {
        assert Matches(source, all[i]);
      }
      if before != [] {
        assert all[|before| - 1].at + all[|before| - 1].oldCount <= all[|before|].at;
      }
    }
  }

  /** Hunks look at the source only up to the end of the last one. */
  lemma {:induction false} FitsLocally(a: seq<Line>, b: seq<Line>, hunks: seq<Hunk>)
    requires WellMarked(hunks) && Fits(a, hunks)
    requires End(hunks) <= |b| && End(hunks) <= |a| && a[..End(hunks)] == b[..End(hunks)]
    ensures Fits(b, hunks) && Emitted(b, hunks) == Emitted(a, hunks)
    decreases |hunks|
  {
    hide Fits;
    hide New;
    hide Old;
    if hunks == [] {
      Begin(b, []);
    } else {
      var before, h := hunks[..|hunks| - 1], hunks[|hunks| - 1];
      assert hunks == before + [h];
      FitsPrefix(a, before, h);
      SamePrefix(a, b, End(hunks), End(before), h.at);
      SamePrefix(a, b, End(hunks), h.at, End(hunks));
      FitsLocally(a, b, before);
      FitsPrefix(b, before, h);
    }
  }

  lemma SamePrefix(a: seq<Line>, b: seq<Line>, n: nat, i: nat, j: nat)
    requires i <= j <= n <= |a| && n <= |b| && a[..n] == b[..n]
    ensures a[..i] == b[..i] && a[i..j] == b[i..j]
  {
    assert a[..i] == a[..n][..i] && b[..i] == b[..n][..i];
    assert a[i..j] == a[..n][i..j] && b[i..j] == b[..n][i..j];
  }

  lemma MatchInRange(source: seq<Line>, h: Hunk)
    requires AllMarked(h.body) && Matches(source, h)
    ensures h.at + h.oldCount <= |source|
  {}

  lemma Regroup(a: seq<Line>, b: seq<Line>, c: seq<Line>, d: seq<Line>)
    ensures a + (b + (c + d)) == (a + b + c) + d
  {}

  /** The forward pass and the last-to-first replacement agree. */
  lemma {:induction false} ForwardIsBackwards(source: seq<Line>, hunks: seq<Hunk>)
    requires WellMarked(hunks) && Fits(source, hunks)
    ensures End(hunks) <= |source|
    ensures ApplyBackwards(source, hunks) == Emitted(source, hunks) + source[End(hunks)..]
    decreases |hunks|
  {
    hide Matches;
    hide New;
    if hunks != [] {
      var before, h := hunks[..|hunks| - 1], hunks[|hunks| - 1];
      assert hunks == before + [h];
      FitsPrefix(source, before, h);
      MatchInRange(source, h);
      var tail := New(h.body) + source[h.at + h.oldCount..];
      var changed := source[..h.at] + tail;
      assert changed == source[..h.at] + New(h.body) + source[h.at + h.oldCount..];
      assert changed[..End(before)] == source[..End(before)];
      FitsLocally(source, changed, before);
      ForwardIsBackwards(changed, before);
      assert changed[End(before)..] == source[End(before)..h.at] + tail;
      Regroup(Emitted(source, before), source[End(before)..h.at], New(h.body), source[End(hunks)..]);
    }
  }

  /** Net number of lines added. */
  function Growth(hunks: seq<Hunk>): int {
    if hunks == [] then 0
    else Growth(hunks[..|hunks| - 1]) + hunks[|hunks| - 1].newCount - hunks[|hunks| - 1].oldCount
  }

  /** The result has the source's length plus the sum of the count differences. */
  lemma {:induction false} ResultLength(source: seq<Line>, hunks: seq<Hunk>)
    requires WellMarked(hunks) && Fits(source, hunks)
    ensures |ApplyBackwards(source, hunks)| == |source| + Growth(hunks)
    decreases |hunks|
  {
    ForwardIsBackwards(source, hunks);
    EmittedLength(source, hunks);
  }

  lemma {:induction false} EmittedLength(source: seq<Line>, hunks: seq<Hunk>)
    requires WellMarked(hunks) && Fits(source, hunks)
    ensures |Emitted(source, hunks)| == End(hunks) + Growth(hunks)
    decreases |hunks|
  {
    if hunks != [] {
      var before, h := hunks[..|hunks| - 1], hunks[|hunks| - 1];
      assert hunks == before + [h];
      FitsPrefix(source, before, h);
      EmittedLength(source, before);
    }
  }

  // -------------------------------------------------------------------------
  // The loops
  // -------------------------------------------------------------------------

  lemma BodyLengthIs(lines: seq<Line>, n: nat)
    requires n <= |lines| && forall i :: 0 <= i < n ==> !IsHunkStart(lines[i])
    ensures n <= BodyLength(lines)
    ensures n == |lines| || IsHunkStart(lines[n]) ==> n == BodyLength(lines)
  {}

  lemma {:induction false} BodyPrefix(body: seq<Line>, k: nat)
    requires AllMarked(body) && k <= |body|
    ensures Old(body[..k]) <= Old(body) && New(body[..k]) <= New(body)
    decreases |body|
  {
    if k < |body| {
      BodyPrefix(body[..|body| - 1], k);
      assert body[..|body| - 1][..k] == body[..k];
    } else {
      assert body[..k] == body;
    }
  }

  lemma EmptyBody()
    ensures Old([]) == [] && New([]) == []
  {}

  lemma BodyStep(body: seq<Line>, l: Line)
    requires AllMarked(body) && IsMarked(l)
    ensures AllMarked(body + [l])
    ensures Old(body + [l]) == Old(body) + (if l[0] != '+' then [l[1..]] else [])
    ensures New(body + [l]) == New(body) + (if l[0] != '-' then [l[1..]] else [])
  {
    assert (body + [l])[..|body|] == body;
  }

  /** Does the body that starts at patch line `start` match the source at `at`? */
  predicate BodyMatches(source: seq<Line>, at: nat, body: seq<Line>) {
    && AllMarked(body)
    && at + |Old(body)| <= |source|
    && source[at..at + |Old(body)|] == Old(body)
  }

  function BodyAt(patch: seq<Line>, start: nat): seq<Line>
    requires start <= |patch|
  {
    patch[start..][..BodyLength(patch[start..])]
  }

  /** A line that fails the context test makes the whole body fail. */
  lemma Mismatch(source: seq<Line>, at: nat, body: seq<Line>, k: nat)
    requires k < |body| && AllMarked(body[..k]) && BodyMatches(source, at, body[..k])
    requires !IsMarked(body[k]) || (body[k][0] != '+' &&
               (at + |Old(body[..k])| >= |source| || source[at + |Old(body[..k])|] != body[k][1..]))
    ensures !BodyMatches(source, at, body)
  {
    if !IsMarked(body[k]) || !AllMarked(body) {
      return;
    }
    var seen, text := Old(body[..k]), body[k][1..];
    BodyStep(body[..k], body[k]);
    assert body[..k] + [body[k]] == body[..k + 1];
    BodyPrefix(body, k + 1);
    assert Old(body[..k + 1]) == seen + [text];
    assert Old(body)[|seen|] == text;
    if at + |Old(body)| <= |source| {
      assert source[at..at + |Old(body)|][|seen|] != text;
    }
  }

  /** The inner loop: consume one hunk body, comparing its context and removals with the source. */
  method ConsumeBody(source: seq<Line>, patch: seq<Line>, start: nat, at: nat, before: seq<Line>)
    returns (ok: bool, patchIndex: nat, sourceIndex: nat, result: seq<Line>, consumed: nat, produced: nat)
    requires start <= |patch| && at <= |source|
    ensures ok <==> BodyMatches(source, at, BodyAt(patch, start))
    ensures ok ==>
              var body := BodyAt(patch, start);
              && patchIndex == start + |body|
              && sourceIndex == at + consumed
              && result == before + New(body)
              && consumed == |Old(body)| && produced == |New(body)|
  {
    hide Old;
    hide New;
    hide BodyLength;
    patchIndex, sourceIndex, result, consumed, produced := start, at, before, 0, 0;
    ghost var rest := patch[start..];
    assert rest[..0] == [];
    EmptyBody();
    while patchIndex < |patch| && !IsHunkStart(patch[patchIndex])
      invariant start <= patchIndex <= |patch|
      invariant forall i :: 0 <= i < patchIndex - start ==> !IsHunkStart(rest[i])
      invariant BodyMatches(source, at, rest[..patchIndex - start])
      invariant consumed == |Old(rest[..patchIndex - start])| && produced == |New(rest[..patchIndex - start])|
      invariant sourceIndex == at + consumed
      invariant result == before + New(rest[..patchIndex - start])
      decreases |patch| - patchIndex
    {
      var item := patch[patchIndex];
      ghost var k := patchIndex - start;
      BodyLengthIs(rest, k + 1);
      assert BodyAt(patch, start)[..k] == rest[..k] && BodyAt(patch, start)[k] == item;
      assert rest[..k + 1] == rest[..k] + [item];
      if !IsMarked(item) {
        Mismatch(source, at, BodyAt(patch, start), k);
        return false, patchIndex, sourceIndex, result, consumed, produced;
      }
      BodyStep(rest[..k], item);
      var marker, text := item[0], item[1..];
      if marker == ' ' || marker == '-' {
        if sourceIndex >= |source| || source[sourceIndex] != text {
          Mismatch(source, at, BodyAt(patch, start), k);
          return false, patchIndex, sourceIndex, result, consumed, produced;
        }
        sourceIndex := sourceIndex + 1;
        consumed := consumed + 1;
      }
      if marker == ' ' || marker == '+' {
        result := result + [text];
        produced := produced + 1;
      }
      patchIndex := patchIndex + 1;
    }
    BodyLengthIs(rest, patchIndex - start);
    ok := true;
  }

  /** The hunks already applied, followed by what the remaining lines parse to. */
  function Joined(done: seq<Hunk>, rest: Option<seq<Hunk>>): Option<seq<Hunk>> {
    if rest.None? then None else Some(done + rest.value)
  }

  /** The loop's invariant: the hunks applied so far fit, and with the unread lines they make up the patch. */
  ghost predicate Progress(source: seq<Line>, patch: seq<Line>, done: seq<Hunk>, patchIndex: nat) {
    && patchIndex <= |patch|
    && (if done == [] then patchIndex <= FileHeaders(patch)
        else patchIndex == |patch| || IsHunkStart(patch[patchIndex]))
    && ParseHunks(patch[FileHeaders(patch)..])
       == Joined(done, ParseHunks(patch[if done == [] then FileHeaders(patch) else patchIndex..]))
    && WellMarked(done)
    && Fits(source, done)
    && End(done) <= |source|
  }

  /** The hunk that starts at this patch line, when its header is well-formed. */
  ghost function HunkAt(patch: seq<Line>, patchIndex: nat): Hunk
    requires patchIndex < |patch| && ParseHeader(patch[patchIndex]).Some?
  {
    ParseHeader(patch[patchIndex]).value.(body := BodyAt(patch, patchIndex + 1))
  }

  /** Can the hunk at this patch line be placed after the hunks already applied? */
  ghost predicate Placeable(source: seq<Line>, patch: seq<Line>, done: seq<Hunk>, patchIndex: nat)
    requires patchIndex < |patch|
  {
    && ParseHeader(patch[patchIndex]).Some?
    && var h := HunkAt(patch, patchIndex);
       AllMarked(h.body) && Matches(source, h) && End(done) <= h.at
  }

  /**
   * The applier's forward pass. It succeeds exactly on a well-formed patch whose hunks fit the source, and then its
   * result is the independent slice replacement of the hunks from last to first.
   */
  method ApplyUnifiedPatch(source: seq<Line>, patch: seq<Line>) returns (applied: Option<seq<Line>>)
    ensures applied.Some? <==> Parse(patch).Some? && Fits(source, Parse(patch).value)
    ensures applied.Some? ==> applied.value == ApplyBackwards(source, Parse(patch).value)
  {
    hide Progress;
    hide Placeable;
    hide Fits;
    hide Parse;
    hide BodyMatches;
    hide ApplyBackwards;
    hide IsFileHeader;
    hide ParseHeader;
    hide BodyAt;
    hide Old;
    hide New;
    hide AllMarked;
    var result: seq<Line> := [];
    var sourceIndex, patchIndex, hunkCount := 0, 0, 0;
    ghost var done: seq<Hunk> := [];
    Begin(source, patch);
    while patchIndex < |patch|
      invariant hunkCount == |done|
      invariant Progress(source, patch, done, patchIndex)
      invariant WellMarked(done) && Fits(source, done)
      invariant 0 <= patchIndex <= |patch|
      invariant sourceIndex == End(done) <= |source|
      invariant result == Emitted(source, done)
      decreases |patch| - patchIndex
    {
      var line := patch[patchIndex];
      if IsFileHeader(line) {
        SkipFileHeader(source, patch, done, patchIndex);
        patchIndex := patchIndex + 1;
        continue;
      }
      var header := ParseHeader(line);
      if header.None? {
        Stuck(source, patch, done, patchIndex);
        return None;
      }
      hunkCount := hunkCount + 1;
      var target := header.value.at;
      PlaceableParts(source, patch, done, patchIndex);
      if target < sourceIndex || target > |source| {
        Stuck(source, patch, done, patchIndex);
        return None;
      }
      result := result + source[sourceIndex..target];
      var ok, next, end, extended, consumed, produced := ConsumeBody(source, patch, patchIndex + 1, target, result);
      if !ok || consumed != header.value.oldCount || produced != header.value.newCount {
        Stuck(source, patch, done, patchIndex);
        return None;
      }
      Advance(source, patch, done, patchIndex);
      done := done + [HunkAt(patch, patchIndex)];
      result, sourceIndex, patchIndex := extended, end, next;
    }
    Finish(source, patch, done, patchIndex);
    if hunkCount == 0 {
      return None;
    }
    return Some(result + source[sourceIndex..]);
  }

  lemma Begin(source: seq<Line>, patch: seq<Line>)
    ensures Progress(source, patch, [], 0) && WellMarked([]) && Fits(source, []) && Emitted(source, []) == []
  {
    var hunks := ParseHunks(patch[FileHeaders(patch)..]);
    if hunks.Some? {
      assert [] + hunks.value == hunks.value;
    }
  }

  lemma SkipFileHeader(source: seq<Line>, patch: seq<Line>, done: seq<Hunk>, patchIndex: nat)
    requires Progress(source, patch, done, patchIndex) && patchIndex < |patch| && IsFileHeader(patch[patchIndex])
    ensures Progress(source, patch, done, patchIndex + 1)
  {
    HunkStartIsNoFileHeader(patch[patchIndex]);
  }

  lemma PlaceableParts(source: seq<Line>, patch: seq<Line>, done: seq<Hunk>, patchIndex: nat)
    requires patchIndex < |patch| && ParseHeader(patch[patchIndex]).Some?
    ensures var h, body := HunkAt(patch, patchIndex), BodyAt(patch, patchIndex + 1);
            Placeable(source, patch, done, patchIndex) <==>
              && BodyMatches(source, h.at, body)
              && |Old(body)| == h.oldCount
              && |New(body)| == h.newCount
              && End(done) <= h.at <= |source|
  {
    hide IsMarked;
    var h := HunkAt(patch, patchIndex);
    if AllMarked(h.body) {
      HunkMatches(source, h);
    }
  }

  lemma Advance(source: seq<Line>, patch: seq<Line>, done: seq<Hunk>, patchIndex: nat)
    requires Progress(source, patch, done, patchIndex) && patchIndex < |patch| && !IsFileHeader(patch[patchIndex])
    requires Placeable(source, patch, done, patchIndex)
    ensures var h := HunkAt(patch, patchIndex);
            && WellMarked(done + [h]) && Fits(source, done + [h])
            && patchIndex + 1 + |h.body| <= |patch|
            && Progress(source, patch, done + [h], patchIndex + 1 + |h.body|)
            && End(done + [h]) == h.at + |Old(h.body)| <= |source|
            && WellMarked(done) && Fits(source, done) && End(done) <= h.at <= |source|
            && Emitted(source, done + [h]) == Emitted(source, done) + source[End(done)..h.at] + New(h.body)
  {
    hide Fits;
    hide Matches;
    hide ParseHunks;
    hide Emitted;
    hide IsMarked;
    hide IsHunkStart;
    hide Old;
    hide New;
    hide BodyMatches;
    hide BodyLength;
    hide FileHeaders;
    hide ParseHeader;
    hide AllMarked;
    hide ApplyBackwards;
    var lines := patch[patchIndex..];
    var h := HunkAt(patch, patchIndex);
    var next := patchIndex + 1 + |h.body|;
    assert lines[0] == patch[patchIndex] && lines[1..] == patch[patchIndex + 1..];
    ParseStep(lines);
    assert lines[1..][|h.body|..] == patch[next..];
    JoinedStep(done, h, ParseHunks(patch[next..]));
    BodyEnd(patch, patchIndex + 1);
    MatchInRange(source, h);
    AcceptedHunk(source, done, h);
  }

  lemma Stuck(source: seq<Line>, patch: seq<Line>, done: seq<Hunk>, patchIndex: nat)
    requires Progress(source, patch, done, patchIndex) && patchIndex < |patch| && !IsFileHeader(patch[patchIndex])
    requires ParseHeader(patch[patchIndex]).None? || !Placeable(source, patch, done, patchIndex)
    ensures Parse(patch).Some? ==> !Fits(source, Parse(patch).value)
  {
    hide Fits;
    hide Matches;
    hide ParseHunks;
    hide IsMarked;
    hide IsHunkStart;
    var lines := patch[patchIndex..];
    assert lines[0] == patch[patchIndex] && lines[1..] == patch[patchIndex + 1..];
    ParseStep(lines);
    if ParseHeader(lines[0]).Some? {
      var h := HunkAt(patch, patchIndex);
      if AllMarked(h.body) {
        RejectedHunk(source, done, h, ParseHunks(lines[1..][|h.body|..]));
      }
    }
  }

  lemma Finish(source: seq<Line>, patch: seq<Line>, done: seq<Hunk>, patchIndex: nat)
    requires Progress(source, patch, done, patchIndex) && patchIndex == |patch|
    ensures if done == [] then Parse(patch).None? else Parse(patch) == Some(done)
    ensures WellMarked(done) && Fits(source, done) && End(done) <= |source|
    ensures ApplyBackwards(source, done) == Emitted(source, done) + source[End(done)..]
  {
    hide Fits;
    hide Matches;
    hide Emitted;
    hide ApplyBackwards;
    hide ParseHunks;
    hide BodyLength;
    hide IsHunkStart;
    ForwardIsBackwards(source, done);
    assert patch[patchIndex..] == [];
    NothingLeft(done);
  }

  lemma NothingLeft(done: seq<Hunk>)
    ensures Joined(done, ParseHunks([])) == Some(done)
  {
    assert done + [] == done;
  }

  lemma HunkStartIsNoFileHeader(line: Line)
    ensures IsHunkStart(line) ==> !IsFileHeader(line)
  {
    FirstChar(line, "@@ ");
    FirstChar(line, "--- ");
    FirstChar(line, "+++ ");
    FirstChar(line, "diff ");
    FirstChar(line, "index ");
  }

  lemma FirstChar(s: string, prefix: string)
    requires prefix != ""
    ensures StartsWith(s, prefix) ==> s != "" && s[0] == prefix[0]
  {
    if StartsWith(s, prefix) {
      assert s[..|prefix|][0] == s[0];
    }
  }

  /** Parsing one hunk off the front. */
  lemma ParseStep(lines: seq<Line>)
    requires lines != []
    ensures var body := lines[1..][..BodyLength(lines[1..])];
            && lines[1..][|body|..] == lines[1 + |body|..]
            && (ParseHeader(lines[0]).None? || !AllMarked(body) ==> ParseHunks(lines).None?)
            && (ParseHeader(lines[0]).Some? && AllMarked(body) ==>
                  ParseHunks(lines) == Joined([ParseHeader(lines[0]).value.(body := body)],
                                              ParseHunks(lines[1..][|body|..])))
  {}

  lemma JoinedStep(done: seq<Hunk>, h: Hunk, rest: Option<seq<Hunk>>)
    ensures Joined(done, Joined([h], rest)) == Joined(done + [h], rest)
  {
    if rest.Some? {
      assert done + ([h] + rest.value) == (done + [h]) + rest.value;
    }
  }

  lemma BodyEnd(patch: seq<Line>, start: nat)
    requires start <= |patch|
    ensures var end := start + |BodyAt(patch, start)|;
            end == |patch| || IsHunkStart(patch[end])
  {}

  lemma HunkMatches(source: seq<Line>, h: Hunk)
    requires AllMarked(h.body)
    ensures Matches(source, h) <==>
              BodyMatches(source, h.at, h.body) && |Old(h.body)| == h.oldCount && |New(h.body)| == h.newCount
  {}

  lemma AcceptedHunk(source: seq<Line>, done: seq<Hunk>, h: Hunk)
    requires WellMarked(done) && AllMarked(h.body)
    requires Fits(source, done) && Matches(source, h) && End(done) <= h.at
    ensures WellMarked(done + [h]) && Fits(source, done + [h])
    ensures End(done + [h]) == h.at + |Old(h.body)|
    ensures Emitted(source, done + [h]) == Emitted(source, done) + source[End(done)..h.at] + New(h.body)
  {
    assert (done + [h])[..|done|] == done;
    FitsPrefix(source, done, h);
  }

  /** A hunk that cannot be placed makes every continuation of the patch a failure. */
  lemma RejectedHunk(source: seq<Line>, done: seq<Hunk>, h: Hunk, rest: Option<seq<Hunk>>)
    requires WellMarked(done) && AllMarked(h.body)
    requires rest.Some? ==> WellMarked(rest.value)
    requires !Matches(source, h) || End(done) > h.at
    ensures rest.Some? ==> WellMarked(done + ([h] + rest.value)) && !Fits(source, done + ([h] + rest.value))
  {
    if rest.Some? {
      var all := done + ([h] + rest.value);
      assert all[|done|] == h;
      assert forall i :: 0 <= i < |done| ==> all[i] == done[i];
      assert forall i :: 0 <= i < |rest.value| ==> all[|done| + 1 + i] == rest.value[i];
      if !Matches(source, h) {
        assert !Matches(source, all[|done|]);
      } else {
        assert !(all[|done| - 1].at + all[|done| - 1].oldCount <= all[|done|].at);
      }
    }
  }
}
