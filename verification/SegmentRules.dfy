/**
 * Where a reply is cut, stated over positions of the text: which boundaries end a unit, and which do not. Nothing here
 * names the scans that find them.
 */
module SegmentRules {
  import opened WhiteSpace
  import opened SpeechSegments

  /** The characters that end a sentence, those that end a clause, and white space. */
  lemma CharactersAre(c: char)
    ensures EndsSentence(c) <==> c in ".!?\U{3002}\U{FF01}\U{FF1F}"
    ensures IsClauseMark(c) <==> c in ",;:\U{FF0C}\U{3001}\U{FF1B}\U{FF1A}"
    ensures IsSpace(c) <==>
            || '\t' <= c <= '\r' || '\U{1C}' <= c <= ' ' || '\U{2000}' <= c <= '\U{200A}'
            || c in "\U{85}\U{A0}\U{1680}\U{2028}\U{2029}\U{202F}\U{205F}\U{3000}"
  {}

  // -------------------------------------------------------------------------
  // Stripping
  // -------------------------------------------------------------------------

  lemma {:induction false} RightStripSpaces(a: string, spaces: string)
    requires AllSpace(spaces)
    ensures RightStrip(a + spaces) == RightStrip(a)
    decreases |spaces|
  {
    if spaces == "" {
      assert a + spaces == a;
    } else {
      RightStripSpaces(a, spaces[..|spaces| - 1]);
      assert (a + spaces)[..|a + spaces| - 1] == a + spaces[..|spaces| - 1];
    }
  }

  lemma {:induction false} LeftStripSpaces(a: string, spaces: string)
    requires AllSpace(spaces)
    ensures LeftStrip(a + spaces) == if AllSpace(a) then "" else LeftStrip(a) + spaces
    decreases |a|
  {
    if a == "" {
      assert a + spaces == spaces;
      AllStripped(spaces);
    } else if IsSpace(a[0]) {
      assert (a + spaces)[1..] == a[1..] + spaces;
      assert AllSpace(a) <==> AllSpace(a[1..]) by {
        assert a == [a[0]] + a[1..];
      }
      LeftStripSpaces(a[1..], spaces);
    }
  }

  lemma {:induction false} AllStripped(s: string)
    ensures AllSpace(s) <==> LeftStrip(s) == ""
    decreases |s|
  {
    if s != "" && IsSpace(s[0]) {
      AllStripped(s[1..]);
      assert s == [s[0]] + s[1..];
    }
  }

  /** Spaces behind a text do not count. */
  lemma StripSpaces(a: string, spaces: string)
    requires AllSpace(spaces)
    ensures Strip(a + spaces) == Strip(a)
  {
    LeftStripSpaces(a, spaces);
    AllStripped(a);
    if !AllSpace(a) {
      RightStripSpaces(LeftStrip(a), spaces);
    }
  }

  // -------------------------------------------------------------------------
  // Sentences and blank lines
  // -------------------------------------------------------------------------

  /** The characters from `i` to `end` satisfy `p`, and the next one does not. */
  ghost predicate Stretch(s: string, i: nat, end: nat, p: char -> bool) {
    && i <= end <= |s|
    && (forall k :: i <= k < end ==> p(s[k]))
    && (end < |s| ==> !p(s[end]))
  }

  /** A hard boundary: all the white space behind the end of a sentence, or else two or more line feeds. */
  ghost predicate IsBoundary(s: string, i: nat, end: nat) {
    && i < end <= |s|
    && if i > 0 && EndsSentence(s[i - 1]) && IsSpace(s[i]) then Stretch(s, i, end, IsSpace)
       else Stretch(s, i, end, IsNewline) && end >= i + 2
  }

  lemma HardAtIs(s: string, i: nat, end: nat)
    requires i < |s|
    ensures IsBoundary(s, i, end) <==> HardAt(s, i) == end && end > i
  {
    if IsBoundary(s, i, end) {
      var p := if i > 0 && EndsSentence(s[i - 1]) && IsSpace(s[i]) then IsSpace else IsNewline;
      StretchIsRun(s, i, end, p);
    }
  }

  lemma StretchIsRun(s: string, i: nat, end: nat, p: char -> bool)
    requires i <= |s|
    ensures Stretch(s, i, end, p) <==> Run(s, i, p) == end
  {}

  /** No boundary in this part of the text ends enough for a unit. */
  ghost predicate NoneReady(text: string, begin: nat, upTo: nat)
    requires begin <= upTo <= |text|
  {
    forall k, end :: begin <= k < upTo && IsBoundary(text, k, end) ==> |Strip(text[begin..k])| < 18
  }

  /** The boundaries that end units from `begin` on: each the first behind at least 18 characters. */
  ghost predicate HardEnds(text: string, begin: nat, spans: seq<Span>)
    requires begin <= |text|
    decreases |spans|
  {
    if spans == [] then NoneReady(text, begin, |text|)
    else
      var at := spans[0];
      && begin <= at.start < at.end <= |text|
      && IsBoundary(text, at.start, at.end)
      && |Strip(text[begin..at.start])| >= 18
      && NoneReady(text, begin, at.start)
      && HardEnds(text, at.end, spans[1..])
  }

  /** The units in front of these boundaries, and what is left. */
  ghost predicate HardPieces(text: string, begin: nat, spans: seq<Span>, cut: Cut)
    requires begin <= |text|
    decreases |spans|
  {
    if spans == [] then cut == Cut([], text[begin..])
    else
      var at := spans[0];
      && begin <= at.start < at.end <= |text|
      && cut.units != [] && cut.units[0] == Strip(text[begin..at.start])
      && HardPieces(text, at.end, spans[1..], Cut(cut.units[1..], cut.pending))
  }

  lemma {:induction false} NoBoundaryBefore(text: string, from: nat, k: nat, end: nat)
    requires from <= k < |text| && IsBoundary(text, k, end)
    ensures NextHard(text, from).Some? && NextHard(text, from).value.start <= k
    decreases |text| - from
  {
    hide HardAt, IsBoundary;
    if HardAt(text, from) <= from {
      HardAtIs(text, k, end);
      NoBoundaryBefore(text, from + 1, k, end);
    }
  }

  lemma {:induction false} NextHardIs(text: string, from: nat)
    requires from <= |text| && NextHard(text, from).Some?
    ensures var m := NextHard(text, from).value; m.start < |text| && IsBoundary(text, m.start, m.end)
    decreases |text| - from
  {
    hide HardAt, IsBoundary;
    if HardAt(text, from) > from {
      HardAtIs(text, from, HardAt(text, from));
    } else {
      NextHardIs(text, from + 1);
    }
  }

  /** A boundary too early for a unit, and everything up to its end. */
  lemma NotReady(text: string, begin: nat, from: nat, m: Span)
    requires begin <= from <= m.start < m.end <= |text| && NoneReady(text, begin, from)
    requires NextHard(text, from) == Some(m) && |Strip(text[begin..m.start])| < 18
    ensures NoneReady(text, begin, m.end)
  {
    hide IsBoundary, Strip, NextHard;
    forall k, end | begin <= k < m.end && IsBoundary(text, k, end) ensures |Strip(text[begin..k])| < 18 {
      if from <= k {
        InText(text, k, end);
        NoBoundaryBefore(text, from, k, end);
        assert AllSpace(text[m.start..k]) by {
          SpanIsSpace(text, from, k);
        }
        assert text[begin..k] == text[begin..m.start] + text[m.start..k];
        StripSpaces(text[begin..m.start], text[m.start..k]);
      }
    }
  }

  lemma InText(s: string, i: nat, end: nat)
    requires IsBoundary(s, i, end)
    ensures i < end <= |s|
  {}

  lemma SpanIsSpace(text: string, from: nat, k: nat)
    requires from <= |text| && NextHard(text, from).Some?
    requires var m := NextHard(text, from).value; m.start <= k <= m.end
    ensures AllSpace(text[NextHard(text, from).value.start..k])
  {}

  lemma StillNone(text: string, begin: nat, from: nat, upTo: nat)
    requires begin <= from <= upTo <= |text| && NoneReady(text, begin, from)
    requires NextHard(text, from).None? || upTo <= NextHard(text, from).value.start
    ensures NoneReady(text, begin, upTo)
  {
    hide IsBoundary, Strip, NextHard;
    forall k, end | begin <= k < upTo && IsBoundary(text, k, end) ensures |Strip(text[begin..k])| < 18 {
      if from <= k {
        NoBoundaryBefore(text, from, k, end);
      }
    }
  }

  /** Sentences are cut at the first boundary that leaves a unit of at least 18 characters, and at no other. */
  lemma {:induction false} SentencesAre(text: string, begin: nat, from: nat) returns (spans: seq<Span>)
    requires begin <= from <= |text| && NoneReady(text, begin, from)
    ensures HardEnds(text, begin, spans) && HardPieces(text, begin, spans, HardCut(text, begin, from))
    decreases |text| - from
  {
    hide Strip, NextHard, NoneReady, IsBoundary;
    spans := [];
    var next := NextHard(text, from);
    if next.None? {
      StillNone(text, begin, from, |text|);
    } else {
      var m := next.value;
      if |Strip(text[begin..m.start])| >= 18 {
        StillNone(text, begin, from, m.start);
        NextHardIs(text, from);
        NoneYet(text, m.end);
        var rest := SentencesAre(text, m.end, m.end);
        spans := [m] + rest;
        assert spans[1..] == rest;
        var cut, later := HardCut(text, begin, from), HardCut(text, m.end, m.end);
        assert cut.units[1..] == later.units && Cut(cut.units[1..], cut.pending) == later;
      } else {
        NotReady(text, begin, from, m);
        spans := SentencesAre(text, begin, m.end);
      }
    }
  }

  lemma NoneYet(text: string, begin: nat)
    requires begin <= |text|
    ensures NoneReady(text, begin, begin)
  {}

  // -------------------------------------------------------------------------
  // Clauses
  // -------------------------------------------------------------------------

  /** From `from` on, the first clause mark and all the white space behind it end here. */
  ghost predicate ClauseEnd(s: string, from: nat, end: nat) {
    exists mark: nat :: IsFirstMark(s, from, mark) && Stretch(s, mark + 1, end, IsSpace)
  }

  ghost predicate IsFirstMark(s: string, from: nat, mark: nat) {
    from <= mark < |s| && IsClauseMark(s[mark]) && forall k :: from <= k < mark ==> !IsClauseMark(s[k])
  }

  lemma NextClauseIs(s: string, from: nat, end: nat)
    ensures ClauseEnd(s, from, end) <==> NextClause(s, from) == Some(end)
  {
    if from <= |s| {
      var mark := First(s, from, IsClauseMark);
      if mark < |s| {
        assert IsFirstMark(s, from, mark);
        StretchIsRun(s, mark + 1, end, IsSpace);
      }
      if ClauseEnd(s, from, end) {
        var m: nat :| IsFirstMark(s, from, m) && Stretch(s, m + 1, end, IsSpace);
        assert m == mark;
      }
    }
  }

  /** The same boundary seen from the beginning of the text. */
  lemma ClauseEndShifted(text: string, begin: nat, from: nat, end: nat)
    requires begin <= |text|
    ensures ClauseEnd(text[begin..], from, end) <==> ClauseEnd(text, begin + from, begin + end)
  {
    var rest := text[begin..];
    if ClauseEnd(rest, from, end) {
      var m: nat :| IsFirstMark(rest, from, m) && Stretch(rest, m + 1, end, IsSpace);
      StretchShifted(text, begin, m + 1, end);
      assert forall k :: begin + from <= k < begin + m ==> text[k] == rest[k - begin];
      assert IsFirstMark(text, begin + from, begin + m);
    }
    if ClauseEnd(text, begin + from, begin + end) {
      var m: nat :| IsFirstMark(text, begin + from, m) && Stretch(text, m + 1, begin + end, IsSpace);
      StretchShifted(text, begin, m + 1 - begin, end);
      assert forall k :: from <= k < m - begin ==> rest[k] == text[begin + k];
      assert IsFirstMark(rest, from, m - begin);
    }
  }

  lemma StretchShifted(text: string, begin: nat, i: nat, end: nat)
    requires begin <= |text|
    ensures Stretch(text[begin..], i, end, IsSpace) <==> Stretch(text, begin + i, begin + end, IsSpace)
  {
    var rest := text[begin..];
    assert forall k :: 0 <= k < |rest| ==> rest[k] == text[begin + k];
    if Stretch(text[begin..], i, end, IsSpace) {
      forall k | begin + i <= k < begin + end ensures IsSpace(text[k]) {
        assert IsSpace(rest[k - begin]);
      }
    }
  }

  ghost predicate NoneWithin(text: string, from: nat, limit: nat) {
    forall end: nat :: ClauseEnd(text, from, end) ==> end > limit
  }

  /** The ends of the clauses: each the first from 22 characters on, and at most 72 behind the one before. */
  ghost predicate ClauseEnds(text: string, begin: nat, ends: seq<nat>)
    decreases |ends|
  {
    if ends == [] then NoneWithin(text, begin + 22, begin + 72)
    else ClauseEnd(text, begin + 22, ends[0]) && ends[0] <= begin + 72 && ClauseEnds(text, ends[0], ends[1..])
  }

  /** What lies between these ends, stripped, without what is only white space; and what is left. */
  ghost predicate Pieces(text: string, begin: nat, ends: seq<nat>, cut: Cut)
    requires begin <= |text|
    decreases |ends|
  {
    if ends == [] then cut == Cut([], text[begin..])
    else
      && begin <= ends[0] <= |text|
      && var unit := Strip(text[begin..ends[0]]);
         if unit == "" then Pieces(text, ends[0], ends[1..], cut)
         else && cut.units != [] && cut.units[0] == unit
              && Pieces(text, ends[0], ends[1..], Cut(cut.units[1..], cut.pending))
  }

  /** One piece more at the front. */
  lemma OnePiece(text: string, begin: nat, end: nat, ends: seq<nat>, cut: Cut)
    requires begin <= end <= |text| && Pieces(text, end, ends, cut)
    ensures Pieces(text, begin, [end] + ends, Cut(NonEmpty(Strip(text[begin..end])) + cut.units, cut.pending))
  {
    hide Strip;
    assert ([end] + ends)[1..] == ends;
    var unit := Strip(text[begin..end]);
    if unit == "" {
      assert [] + cut.units == cut.units && Cut(cut.units, cut.pending) == cut;
    } else {
      assert ([unit] + cut.units)[1..] == cut.units && Cut(cut.units, cut.pending) == cut;
    }
  }

  /** Clauses are cut at these ends, and at no other. */
  lemma {:induction false} ClausesAre(text: string, begin: nat) returns (ends: seq<nat>)
    requires begin <= |text|
    ensures ClauseEnds(text, begin, ends) && Pieces(text, begin, ends, ClauseCut(text[begin..]))
    decreases |text| - begin
  {
    hide Strip, NextClause, ClauseEnd, NonEmpty;
    ends := [];
    var rest := text[begin..];
    var next := NextClause(rest, 22);
    if next.Some? && next.value <= 72 {
      var end := begin + next.value;
      NextClauseIs(rest, 22, next.value);
      ClauseEndShifted(text, begin, 22, next.value);
      var later := ClausesAre(text, end);
      assert rest[next.value..] == text[end..] && rest[..next.value] == text[begin..end];
      OnePiece(text, begin, end, later, ClauseCut(text[end..]));
      ends := [end] + later;
      assert ends[1..] == later;
    } else {
      NoneSoon(text, begin, next);
    }
  }

  lemma NoneSoon(text: string, begin: nat, next: Option<nat>)
    requires begin <= |text| && next == NextClause(text[begin..], 22) && (next.Some? ==> next.value > 72)
    ensures NoneWithin(text, begin + 22, begin + 72)
  {
    hide NextClause, ClauseEnd;
    var from := begin + 22;
    forall end: nat | ClauseEnd(text, from, end) ensures end > begin + 72 {
      Behind(text, from, end);
      NextClauseIs(text[begin..], 22, end - begin);
      ClauseEndShifted(text, begin, 22, end - begin);
    }
  }

  lemma Behind(s: string, from: nat, end: nat)
    requires ClauseEnd(s, from, end)
    ensures from < end <= |s|
  {}

  // -------------------------------------------------------------------------
  // Forced splits
  // -------------------------------------------------------------------------

  ghost predicate NoneFrom(s: string, from: nat, p: char -> bool) {
    forall k :: from <= k < |s| ==> !p(s[k])
  }

  /** The last character of the text, from `from` on, that satisfies `p`. */
  ghost predicate IsLast(s: string, from: nat, at: nat, p: char -> bool) {
    from <= at < |s| && p(s[at]) && NoneFrom(s, at + 1, p)
  }

  /** Behind the last clause mark and its spaces; without a mark behind the last space; without both after 72 characters. */
  ghost predicate SplitsAt(window: string, at: nat) {
    if !NoneFrom(window, 22, IsClauseMark) then
      BehindLastMark(window, 22, at)
    else if !NoneFrom(window, 22, IsSpace) then at > 0 && IsLast(window, 22, at - 1, IsSpace)
    else at == 72
  }

  ghost predicate BehindLastMark(s: string, from: nat, at: nat) {
    exists mark: nat :: IsLast(s, from, mark, IsClauseMark) && Stretch(s, mark + 1, at, IsSpace)
  }

  lemma {:induction false} LastClauseIs(window: string, from: nat)
    ensures LastClause(window, from).None? <==> NoneFrom(window, from, IsClauseMark)
    ensures LastClause(window, from).Some? ==> BehindLastMark(window, from, LastClause(window, from).value)
    decreases if from <= |window| then |window| - from else 0
  {
    hide NextClause, NoneFrom, BehindLastMark;
    var next := NextClause(window, from);
    if next.None? {
      NoMark(window, from);
    } else {
      LastClauseIs(window, next.value);
      NextClauseIs(window, from, next.value);
      LaterMark(window, from, next.value, LastClause(window, next.value));
    }
  }

  lemma NoMark(s: string, from: nat)
    requires NextClause(s, from).None?
    ensures NoneFrom(s, from, IsClauseMark)
  {}

  /** Behind a first mark either a later one is the last, or it is. */
  lemma LaterMark(s: string, from: nat, end: nat, later: Option<nat>)
    requires ClauseEnd(s, from, end)
    requires later.None? <==> NoneFrom(s, end, IsClauseMark)
    requires later.Some? ==> BehindLastMark(s, end, later.value)
    ensures !NoneFrom(s, from, IsClauseMark)
    ensures BehindLastMark(s, from, if later.Some? then later.value else end)
  {
    var first: nat :| IsFirstMark(s, from, first) && Stretch(s, first + 1, end, IsSpace);
    if later.Some? {
      var mark: nat :| IsLast(s, end, mark, IsClauseMark) && Stretch(s, mark + 1, later.value, IsSpace);
      assert IsLast(s, from, mark, IsClauseMark);
    } else {
      forall k | first < k < |s| ensures !IsClauseMark(s[k]) {
        if k < end {
          MarkIsNoSpace(s[k]);
        }
      }
      assert IsLast(s, from, first, IsClauseMark);
    }
  }

  lemma MarkIsNoSpace(c: char)
    ensures !(IsClauseMark(c) && IsSpace(c))
  {}

  lemma {:induction false} LastWordIs(window: string, from: nat)
    ensures LastWord(window, from).None? <==> NoneFrom(window, from, IsSpace)
    ensures LastWord(window, from).Some? ==>
              LastWord(window, from).value > 0 && IsLast(window, from, LastWord(window, from).value - 1, IsSpace)
    decreases if from <= |window| then |window| - from else 0
  {
    var next := NextWord(window, from);
    if next.Some? {
      LastWordIs(window, next.value);
    }
  }

  lemma SplitIs(pending: string)
    requires |pending| >= 72
    ensures SplitsAt(if |pending| <= 73 then pending else pending[..73], ForcedSplit(pending))
  {
    hide LastClause, LastWord;
    var window := if |pending| <= 73 then pending else pending[..73];
    LastClauseIs(window, 22);
    LastWordIs(window, 22);
  }

  /** The forced splits: only while 72 characters or more are left. */
  ghost predicate ForcedEnds(text: string, begin: nat, ends: seq<nat>)
    requires begin <= |text|
    decreases |ends|
  {
    if ends == [] then |Strip(text[begin..])| < 72
    else
      && |Strip(text[begin..])| >= 72
      && begin <= ends[0] <= |text|
      && SplitsAt(if |text| - begin <= 73 then text[begin..] else text[begin..begin + 73], ends[0] - begin)
      && ForcedEnds(text, ends[0], ends[1..])
  }

  lemma {:induction false} ForcedAre(text: string, begin: nat) returns (ends: seq<nat>)
    requires begin <= |text|
    ensures ForcedEnds(text, begin, ends) && Pieces(text, begin, ends, ForcedCut(text[begin..]))
    decreases |text| - begin
  {
    hide Strip, ForcedSplit, SplitsAt, NonEmpty;
    ends := [];
    var rest := text[begin..];
    if |Strip(rest)| >= 72 {
      var at := ForcedSplit(rest);
      SplitIs(rest);
      var end := begin + at;
      assert |rest| > 73 ==> rest[..73] == text[begin..begin + 73];
      var later := ForcedAre(text, end);
      assert rest[at..] == text[end..] && rest[..at] == text[begin..end];
      OnePiece(text, begin, end, later, ForcedCut(text[end..]));
      ends := [end] + later;
      assert ends[1..] == later;
    }
  }

  // -------------------------------------------------------------------------
  // One take
  // -------------------------------------------------------------------------

  /** The text cut into sentences, what they leave into clauses, and what these leave by force. */
  ghost predicate CutInto(text: string, hard: Cut, clauses: Cut, forced: Cut) {
    && (exists spans :: HardEnds(text, 0, spans) && HardPieces(text, 0, spans, hard))
    && (exists ends :: ClauseEnds(hard.pending, 0, ends) && Pieces(hard.pending, 0, ends, clauses))
    && (exists ends :: ForcedEnds(clauses.pending, 0, ends) && Pieces(clauses.pending, 0, ends, forced))
  }

  /** What a take cuts off, and what it leaves. */
  lemma TakeIs(text: string) returns (hard: Cut, clauses: Cut, forced: Cut)
    ensures CutInto(text, hard, clauses, forced)
    ensures Take(text) == Cut(hard.units + clauses.units + forced.units, forced.pending)
  {
    hide HardEnds, HardPieces, ClauseEnds, ForcedEnds, Pieces, HardCut, ClauseCut, ForcedCut;
    hard := HardCut(text, 0, 0);
    clauses := ClauseCut(hard.pending);
    forced := ForcedCut(clauses.pending);
    NoneYet(text, 0);
    var spans := SentencesAre(text, 0, 0);
    var ends := ClausesAre(hard.pending, 0);
    var splits := ForcedAre(clauses.pending, 0);
    assert hard.pending[0..] == hard.pending && clauses.pending[0..] == clauses.pending;
  }
}
