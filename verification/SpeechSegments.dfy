/**
 * Cutting a reply into speech units, while it streams in. The boundary patterns are written as scans with the
 * matching rules of the regular expressions: leftmost match, greedy repetition, continuing at the previous end.
 */
module SpeechSegments {
  import opened WhiteSpace

  const MIN_UNIT: nat := 22
  const MIN_HARD_UNIT: nat := 18
  const MAX_UNIT: nat := 72
  const MAX_REPLY: nat := 2 * 1024 * 1024

  datatype Option<+T> = None | Some(value: T)

  predicate EndsSentence(c: char) { c in ".!?" || c as int in {0x3002, 0xFF01, 0xFF1F} }

  predicate IsClauseMark(c: char) { c in ",;:" || c as int in {0xFF0C, 0x3001, 0xFF1B, 0xFF1A} }

  predicate IsNewline(c: char) { c == '\n' }

  /** The first index at or after `from` whose character satisfies `p`, or the length. */
  function First(s: string, from: nat, p: char -> bool): (i: nat)
    requires from <= |s|
    ensures from <= i <= |s| && (i < |s| ==> p(s[i])) && forall k :: from <= k < i ==> !p(s[k])
    decreases |s| - from
  {
    if from == |s| || p(s[from]) then from else First(s, from + 1, p)
  }

  /** The end of the run of characters satisfying `p` that starts at `from`. */
  function Run(s: string, from: nat, p: char -> bool): (i: nat)
    requires from <= |s|
    ensures from <= i <= |s| && (i < |s| ==> !p(s[i])) && forall k :: from <= k < i ==> p(s[k])
    decreases |s| - from
  {
    if from == |s| || !p(s[from]) then from else Run(s, from + 1, p)
  }

  // -------------------------------------------------------------------------
  // Strings without their white space
  // -------------------------------------------------------------------------

  function NonSpace(s: string): string {
    if s == "" then "" else NonSpace(s[..|s| - 1]) + (if IsSpace(s[|s| - 1]) then "" else [s[|s| - 1]])
  }

  predicate AllSpace(s: string) { forall i :: 0 <= i < |s| ==> IsSpace(s[i]) }

  function LeftStrip(s: string): (t: string)
    ensures t != "" ==> !IsSpace(t[0])
    ensures |t| <= |s|
  {
    if s == "" || !IsSpace(s[0]) then s else LeftStrip(s[1..])
  }

  function RightStrip(s: string): (t: string)
    ensures t <= s
    ensures t != "" ==> !IsSpace(t[|t| - 1])
  {
    if s == "" || !IsSpace(s[|s| - 1]) then s else RightStrip(s[..|s| - 1])
  }

  function Strip(s: string): (t: string)
    ensures t != "" ==> !IsSpace(t[0]) && !IsSpace(t[|t| - 1])
    ensures |t| <= |s|
  {
    RightStrip(LeftStrip(s))
  }

  lemma {:induction false} NonSpaceConcat(a: string, b: string)
    ensures NonSpace(a + b) == NonSpace(a) + NonSpace(b)
    decreases |b|
  {
    if b == "" {
      assert a + b == a;
    } else {
      assert (a + b)[..|a + b| - 1] == a + b[..|b| - 1];
      NonSpaceConcat(a, b[..|b| - 1]);
    }
  }

  lemma {:induction false} NonSpaceOfSpaces(s: string)
    requires AllSpace(s)
    ensures NonSpace(s) == ""
  {
    if s != "" {
      NonSpaceOfSpaces(s[..|s| - 1]);
    }
  }

  lemma {:induction false} NonSpaceStripped(s: string)
    ensures NonSpace(Strip(s)) == NonSpace(s)
  {
    NonSpaceLeft(s);
    NonSpaceRight(LeftStrip(s));
  }

  lemma {:induction false} NonSpaceLeft(s: string)
    ensures NonSpace(LeftStrip(s)) == NonSpace(s)
  {
    if s != "" && IsSpace(s[0]) {
      NonSpaceLeft(s[1..]);
      NonSpaceOfSpaces(s[..1]);
      NonSpaceConcat(s[..1], s[1..]);
      assert s == s[..1] + s[1..];
    }
  }

  lemma {:induction false} NonSpaceRight(s: string)
    ensures NonSpace(RightStrip(s)) == NonSpace(s)
  {
    if s != "" && IsSpace(s[|s| - 1]) {
      NonSpaceRight(s[..|s| - 1]);
    }
  }

  function Concat(parts: seq<string>): string {
    if parts == [] then "" else Concat(parts[..|parts| - 1]) + parts[|parts| - 1]
  }

  /** The non-white-space characters of all parts, in order. */
  function Spoken(parts: seq<string>): string { NonSpace(Concat(parts)) }

  lemma SpokenMore(parts: seq<string>, part: string)
    ensures Spoken(parts + [part]) == Spoken(parts) + NonSpace(part)
  {
    assert (parts + [part])[..|parts|] == parts;
    NonSpaceConcat(Concat(parts), part);
  }

  lemma NothingSpoken()
    ensures Spoken([]) == ""
  {
  }

  lemma {:induction false} SpokenConcat(a: seq<string>, b: seq<string>)
    ensures Spoken(a + b) == Spoken(a) + Spoken(b)
    decreases |b|
  {
    hide NonSpace, Spoken;
    NothingSpoken();
    if b == [] {
      assert a + b == a;
    } else {
      var before, last := b[..|b| - 1], b[|b| - 1];
      SpokenConcat(a, before);
      SpokenMore(a + before, last);
      SpokenMore(before, last);
      assert a + b == (a + before) + [last] && b == before + [last];
    }
  }

  // -------------------------------------------------------------------------
  // Boundaries
  // -------------------------------------------------------------------------

  datatype Span = Span(start: nat, end: nat)

  /** Does a hard boundary start here: white space after a sentence end, or two or more newlines? */
  function HardAt(s: string, i: nat): (end: nat)
    requires i < |s|
    ensures i <= end <= |s| && forall k :: i <= k < end ==> IsSpace(s[k])
  {
    if i > 0 && EndsSentence(s[i - 1]) && IsSpace(s[i]) then Run(s, i, IsSpace)
    else if Run(s, i, IsNewline) >= i + 2 then Run(s, i, IsNewline)
    else i
  }

  /** The leftmost hard boundary at or after `from`. */
  function NextHard(s: string, from: nat): (m: Option<Span>)
    requires from <= |s|
    ensures m.Some? ==> from <= m.value.start < m.value.end <= |s|
                        && forall k :: m.value.start <= k < m.value.end ==> IsSpace(s[k])
    decreases |s| - from
  {
    if from == |s| then None
    else if HardAt(s, from) > from then Some(Span(from, HardAt(s, from)))
    else NextHard(s, from + 1)
  }

  /** The end of the first clause boundary (a clause mark and the spaces after it) at or after `from`. */
  function NextClause(s: string, from: nat): (end: Option<nat>)
    ensures end.Some? ==> from < end.value <= |s|
  {
    if from > |s| || First(s, from, IsClauseMark) == |s| then None
    else Some(Run(s, First(s, from, IsClauseMark) + 1, IsSpace))
  }

  function NextWord(s: string, from: nat): (end: Option<nat>)
    ensures end.Some? ==> from < end.value <= |s|
  {
    if from > |s| || First(s, from, IsSpace) == |s| then None
    else Some(Run(s, First(s, from, IsSpace), IsSpace))
  }

  /** The end of the last clause boundary of a window. */
  function LastClause(window: string, from: nat): (end: Option<nat>)
    ensures end.Some? ==> from < end.value <= |window|
    decreases if from <= |window| then |window| - from else 0
  {
    var next := NextClause(window, from);
    if next.None? then None else
      var later := LastClause(window, next.value);
      if later.Some? then later else next
  }

  function LastWord(window: string, from: nat): (end: Option<nat>)
    ensures end.Some? ==> from < end.value <= |window|
    decreases if from <= |window| then |window| - from else 0
  {
    var next := NextWord(window, from);
    if next.None? then None else
      var later := LastWord(window, next.value);
      if later.Some? then later else next
  }

  // -------------------------------------------------------------------------
  // Specification of one take
  // -------------------------------------------------------------------------

  datatype Cut = Cut(units: seq<string>, pending: string)

  /** Hard boundaries: a unit ends at one only if it has at least MIN_HARD_UNIT characters. */
  function HardCut(text: string, start: nat, from: nat): Cut
    requires start <= from <= |text|
    decreases |text| - from
  {
    var m := NextHard(text, from);
    if m.None? then Cut([], text[start..]) else
      var unit := Strip(text[start..m.value.start]);
      if |unit| >= MIN_HARD_UNIT then
        var rest := HardCut(text, m.value.end, m.value.end);
        Cut([unit] + rest.units, rest.pending)
      else HardCut(text, start, m.value.end)
  }

  function NonEmpty(s: string): seq<string> { if s == "" then [] else [s] }

  /** Clause boundaries from MIN_UNIT on, as long as the unit is not too long. */
  function ClauseCut(pending: string): Cut
    decreases |pending|
  {
    var end := NextClause(pending, MIN_UNIT);
    if end.None? || end.value > MAX_UNIT then Cut([], pending) else
      var rest := ClauseCut(pending[end.value..]);
      Cut(NonEmpty(Strip(pending[..end.value])) + rest.units, rest.pending)
  }

  /** Where an over-long text is forced apart: its last clause, else its last word, else after MAX_UNIT. */
  function ForcedSplit(pending: string): (at: nat)
    requires |pending| >= MAX_UNIT
    ensures MIN_UNIT < at <= MAX_UNIT + 1 && at <= |pending|
  {
    var window := if |pending| <= MAX_UNIT + 1 then pending else pending[..MAX_UNIT + 1];
    var clause := LastClause(window, MIN_UNIT);
    if clause.Some? then clause.value else
      var word := LastWord(window, MIN_UNIT);
      if word.Some? then word.value else MAX_UNIT
  }

  function ForcedCut(pending: string): Cut
    decreases |pending|
  {
    if |Strip(pending)| < MAX_UNIT then Cut([], pending) else
      var at := ForcedSplit(pending);
      var rest := ForcedCut(pending[at..]);
      Cut(NonEmpty(Strip(pending[..at])) + rest.units, rest.pending)
  }

  function Take(text: string): Cut {
    var hard := HardCut(text, 0, 0);
    var clause := ClauseCut(hard.pending);
    var forced := ForcedCut(clause.pending);
    Cut(hard.units + clause.units + forced.units, forced.pending)
  }

  // -------------------------------------------------------------------------
  // What one take keeps and guarantees
  // -------------------------------------------------------------------------

  /** All units are non-empty, trimmed, and between the given lengths. */
  ghost predicate Units(units: seq<string>, low: nat, high: int) {
    forall i :: 0 <= i < |units| ==> UnitWithin(units[i], low, high)
  }

  ghost predicate UnitWithin(u: string, low: nat, high: int) {
    u != "" && !IsSpace(u[0]) && !IsSpace(u[|u| - 1]) && low <= |u| && (high >= 0 ==> |u| <= high)
  }

  lemma ThreePieces(text: string, a: nat, b: nat, c: nat)
    requires a <= b <= c <= |text|
    ensures text[a..] == text[a..b] + (text[b..c] + text[c..])
  {}

  lemma {:induction false} HardCutKeeps(text: string, start: nat, from: nat)
    requires start <= from <= |text|
    ensures var cut := HardCut(text, start, from);
            && Spoken(cut.units) + NonSpace(cut.pending) == NonSpace(text[start..])
            && Units(cut.units, MIN_HARD_UNIT, -1)
    decreases |text| - from
  {
    hide Strip;
    hide NonSpace;
    hide NextHard;
    var m := NextHard(text, from);
    NoParts();
    if m.Some? {
      var unit := Strip(text[start..m.value.start]);
      if |unit| >= MIN_HARD_UNIT {
        HardCutKeeps(text, m.value.end, m.value.end);
        var rest := HardCut(text, m.value.end, m.value.end);
        NonSpaceStripped(text[start..m.value.start]);
        NonSpaceOfSpaces(text[m.value.start..m.value.end]);
        ThreePieces(text, start, m.value.start, m.value.end);
        NonSpaceConcat(text[start..m.value.start], text[m.value.start..m.value.end] + text[m.value.end..]);
        NonSpaceConcat(text[m.value.start..m.value.end], text[m.value.end..]);
        OneMore(unit, rest.units);
      } else {
        HardCutKeeps(text, start, m.value.end);
      }
    }
  }

  lemma NoParts()
    ensures Spoken([]) == "" && NonSpace("") == ""
  {}

  lemma OneMore(unit: string, units: seq<string>)
    ensures Spoken([unit] + units) == NonSpace(unit) + Spoken(units)
    ensures Spoken(NonEmpty(unit) + units) == NonSpace(unit) + Spoken(units)
  {
    hide NonSpace;
    hide Spoken;
    NoParts();
    SpokenConcat([unit], units);
    SpokenMore([], unit);
    assert [] + [unit] == [unit];
    if unit == "" {
      assert NonEmpty(unit) + units == units;
    }
  }

  /** Cutting off a stripped piece keeps every visible character. */
  lemma CutOff(pending: string, at: nat, units: seq<string>, rest: string)
    requires at <= |pending| && Spoken(units) + NonSpace(rest) == NonSpace(pending[at..])
    ensures Spoken(NonEmpty(Strip(pending[..at])) + units) + NonSpace(rest) == NonSpace(pending)
  {
    hide Strip;
    hide NonSpace;
    hide Spoken;
    NonSpaceStripped(pending[..at]);
    NonSpaceConcat(pending[..at], pending[at..]);
    assert pending == pending[..at] + pending[at..];
    OneMore(Strip(pending[..at]), units);
  }

  lemma {:induction false} ClauseCutKeeps(pending: string)
    ensures var cut := ClauseCut(pending);
            && Spoken(cut.units) + NonSpace(cut.pending) == NonSpace(pending)
            && Units(cut.units, 1, MAX_UNIT)
    decreases |pending|
  {
    hide Strip;
    hide NonSpace;
    hide Spoken;
    hide NextClause;
    var end := NextClause(pending, MIN_UNIT);
    NoParts();
    if end.Some? && end.value <= MAX_UNIT {
      ClauseCutKeeps(pending[end.value..]);
      var rest := ClauseCut(pending[end.value..]);
      CutOff(pending, end.value, rest.units, rest.pending);
    }
  }

  lemma {:induction false} ForcedCutKeeps(pending: string)
    ensures var cut := ForcedCut(pending);
            && Spoken(cut.units) + NonSpace(cut.pending) == NonSpace(pending)
            && Units(cut.units, 1, MAX_UNIT + 1)
            && |Strip(cut.pending)| < MAX_UNIT
    decreases |pending|
  {
    hide Strip;
    hide NonSpace;
    hide Spoken;
    hide ForcedSplit;
    NoParts();
    if |Strip(pending)| >= MAX_UNIT {
      var at := ForcedSplit(pending);
      ForcedCutKeeps(pending[at..]);
      var rest := ForcedCut(pending[at..]);
      CutOff(pending, at, rest.units, rest.pending);
    }
  }

  /**
   * One take: no visible character is lost, invented or reordered; what stays pending is short; every unit is
   * non-empty and trimmed, and only a unit that ends at a hard boundary can exceed MAX_UNIT + 1 characters.
   */
  lemma {:induction false} TakeKeeps(text: string)
    ensures var cut := Take(text);
            && Spoken(cut.units) + NonSpace(cut.pending) == NonSpace(text)
            && |Strip(cut.pending)| < MAX_UNIT
            && Units(cut.units, 1, -1)
            && forall i :: 0 <= i < |cut.units| && |cut.units[i]| > MAX_UNIT + 1 ==> i < |HardCut(text, 0, 0).units|
    ensures Units(HardCut(text, 0, 0).units, MIN_HARD_UNIT, -1)
  {
    hide HardCut;
    hide ClauseCut;
    hide ForcedCut;
    hide Strip;
    hide NonSpace;
    hide Spoken;
    var hard := HardCut(text, 0, 0);
    var clause := ClauseCut(hard.pending);
    var forced := ForcedCut(clause.pending);
    HardCutKeeps(text, 0, 0);
    assert text[0..] == text;
    ClauseCutKeeps(hard.pending);
    ForcedCutKeeps(clause.pending);
    SpokenConcat(hard.units, clause.units);
    SpokenConcat(hard.units + clause.units, forced.units);
    var all := hard.units + clause.units + forced.units;
    forall i | 0 <= i < |all|
      ensures UnitWithin(all[i], 1, -1) && (|all[i]| > MAX_UNIT + 1 ==> i < |hard.units|)
    {
      var h, c := |hard.units|, |clause.units|;
      if i < h {
        assert UnitWithin(hard.units[i], MIN_HARD_UNIT, -1);
      } else if i < h + c {
        assert UnitWithin(clause.units[i - h], 1, MAX_UNIT);
      } else {
        assert UnitWithin(forced.units[i - h - c], 1, MAX_UNIT + 1);
      }
    }
  }

  // -------------------------------------------------------------------------
  // The loops
  // -------------------------------------------------------------------------

  function After(units: seq<string>, rest: Cut): Cut { Cut(units + rest.units, rest.pending) }

  lemma AfterMore(units: seq<string>, more: seq<string>, rest: Cut)
    ensures After(units, After(more, rest)) == After(units + more, rest)
  {
    assert units + (more + rest.units) == (units + more) + rest.units;
  }

  lemma AfterNone(units: seq<string>, pending: string)
    ensures After(units, Cut([], pending)) == Cut(units, pending)
    ensures After([], Cut(units, pending)) == Cut(units, pending)
  {
    assert units + [] == [] + units == units;
  }

  lemma OnlyIfVisible(unit: string)
    ensures NonEmpty(unit) == if unit == "" then [] else [unit]
  {}

  /** The first loop: whole sentences, unless they are too short to stand alone. */
  method TakeSentences(text: string) returns (units: seq<string>, pending: string)
    ensures Cut(units, pending) == HardCut(text, 0, 0)
  {
    hide NextHard;
    hide Strip;
    units := [];
    var start: nat, from: nat := 0, 0;
    var boundary := NextHard(text, 0);
    AfterNone(HardCut(text, 0, 0).units, HardCut(text, 0, 0).pending);
    while boundary.Some?
      invariant start <= from <= |text| && boundary == NextHard(text, from)
      invariant After(units, HardCut(text, start, from)) == HardCut(text, 0, 0)
      decreases |text| - from
    {
      var unit := Strip(text[start..boundary.value.start]);
      from := boundary.value.end;
      if unit != "" && |unit| >= MIN_HARD_UNIT {
        AfterMore(units, [unit], HardCut(text, from, from));
        units := units + [unit];
        start := from;
      }
      boundary := NextHard(text, from);
    }
    pending := text[start..];
    AfterNone(units, pending);
  }

  /** The second loop: clauses, as long as one ends early enough. */
  method TakeClauses(text: string) returns (units: seq<string>, pending: string)
    ensures Cut(units, pending) == ClauseCut(text)
  {
    hide NextClause;
    hide Strip;
    hide NonEmpty;
    units, pending := [], text;
    AfterNone(ClauseCut(text).units, ClauseCut(text).pending);
    while true
      invariant After(units, ClauseCut(pending)) == ClauseCut(text)
      decreases |pending|
    {
      var end := NextClause(pending, MIN_UNIT);
      if end.None? || end.value > MAX_UNIT {
        break;
      }
      var unit := Strip(pending[..end.value]);
      AfterMore(units, NonEmpty(unit), ClauseCut(pending[end.value..]));
      OnlyIfVisible(unit);
      assert units + [] == units;
      if unit != "" {
        units := units + [unit];
      }
      pending := pending[end.value..];
    }
    AfterNone(units, pending);
  }

  /** The third loop: forced splits while too much is pending. */
  method TakeForced(text: string) returns (units: seq<string>, pending: string)
    ensures Cut(units, pending) == ForcedCut(text)
  {
    hide ForcedSplit;
    hide Strip;
    hide NonEmpty;
    units, pending := [], text;
    AfterNone(ForcedCut(text).units, ForcedCut(text).pending);
    while |Strip(pending)| >= MAX_UNIT
      invariant After(units, ForcedCut(pending)) == ForcedCut(text)
      decreases |pending|
    {
      var splitAt := ForcedSplit(pending);
      var unit := Strip(pending[..splitAt]);
      AfterMore(units, NonEmpty(unit), ForcedCut(pending[splitAt..]));
      OnlyIfVisible(unit);
      assert units + [] == units;
      if unit != "" {
        units := units + [unit];
      }
      pending := pending[splitAt..];
    }
    AfterNone(units, pending);
  }

  /** Take every complete speech unit off the front of the text. */
  method TakeCompleteSpeechUnits(text: string) returns (units: seq<string>, pending: string)
    ensures Cut(units, pending) == Take(text)
  {
    hide HardCut;
    hide ClauseCut;
    hide ForcedCut;
    var clauses, parts;
    units, pending := TakeSentences(text);
    clauses, pending := TakeClauses(pending);
    parts, pending := TakeForced(pending);
    units := units + clauses + parts;
  }

  /** What is left over is joined to a short last unit if there is room, and a unit of its own otherwise. */
  predicate EndsWith(units: seq<string>, ready: seq<string>, trailing: string) {
    var short := ready != [] && |ready[|ready| - 1]| < 22 && |ready[|ready| - 1]| + |trailing| + 1 <= 72;
    units == if trailing == "" then ready
             else if short then ready[..|ready| - 1] + [ready[|ready| - 1] + " " + trailing]
             else ready + [trailing]
  }

  /**
   * The batch cut: the same visible characters in the same order, whole reply at once. It fails exactly on a reply
   * without any visible character.
   */
  method SpeechUnits(text: string) returns (ok: bool, units: seq<string>)
    ensures ok <==> NonSpace(text) != ""
    ensures ok ==> units != [] && Spoken(units) == NonSpace(text)
    ensures ok ==> EndsWith(units, Take(Strip(text)).units, Strip(Take(Strip(text)).pending))
  {
    hide Take;
    hide Strip;
    hide Spoken;
    hide NonSpace;
    var pending: string;
    units, pending := TakeCompleteSpeechUnits(Strip(text));
    TakeKeeps(Strip(text));
    NonSpaceStripped(text);
    NonSpaceStripped(pending);
    NoParts();
    var trailing := Strip(pending);
    if trailing != "" {
      if units != [] && |units[|units| - 1]| < MIN_UNIT && |units[|units| - 1]| + |trailing| + 1 <= MAX_UNIT {
        Merged(units, trailing);
        units := units[..|units| - 1] + [units[|units| - 1] + " " + trailing];
      } else {
        SpokenMore(units, trailing);
        units := units + [trailing];
      }
    }
    VisibleIffSpoken(Take(Strip(text)).units, trailing);
    ok := units != [];
  }

  lemma Merged(units: seq<string>, trailing: string)
    requires units != []
    ensures Spoken(units[..|units| - 1] + [units[|units| - 1] + " " + trailing]) == Spoken(units) + NonSpace(trailing)
  {
    hide NonSpace;
    hide Spoken;
    var before, last := units[..|units| - 1], units[|units| - 1];
    SpokenMore(before, last);
    SpokenMore(before, last + " " + trailing);
    assert units == before + [last];
    NonSpaceConcat(last, " ");
    NonSpaceConcat(last + " ", trailing);
    NonSpaceOfSpaces(" ");
  }

  /** A trimmed non-empty text shows at least one character. */
  lemma Visible(s: string)
    requires s != "" && !IsSpace(s[|s| - 1])
    ensures NonSpace(s) != ""
  {}

  lemma VisibleIffSpoken(units: seq<string>, trailing: string)
    requires Units(units, 1, -1) && (trailing != "" ==> !IsSpace(trailing[|trailing| - 1]))
    ensures units == [] && trailing == "" <==> Spoken(units) + NonSpace(trailing) == ""
  {
    hide NonSpace;
    hide Spoken;
    NoParts();
    if trailing != "" {
      Visible(trailing);
    }
    if units != [] {
      VisibleUnits(units);
    }
  }

  lemma VisibleUnits(units: seq<string>)
    requires units != [] && Units(units, 1, -1)
    ensures Spoken(units) != ""
  {
    hide NonSpace;
    hide Spoken;
    var before, last := units[..|units| - 1], units[|units| - 1];
    assert UnitWithin(units[|units| - 1], 1, -1);
    Visible(last);
    SpokenMore(before, last);
    assert units == before + [last];
  }

  function TotalLength(deltas: seq<string>): nat {
    if deltas == [] then 0 else TotalLength(deltas[..|deltas| - 1]) + |deltas[|deltas| - 1]|
  }

  /** The units taken while the deltas arrive, each from what was pending with the delta behind it. */
  function Streamed(deltas: seq<string>): Cut {
    if deltas == [] then Cut([], "")
    else
      var before, delta := Streamed(deltas[..|deltas| - 1]), deltas[|deltas| - 1];
      if delta == "" then before
      else
        var taken := Take(before.pending + delta);
        Cut(before.units + taken.units, taken.pending)
  }

  /**
   * Streaming: units are queued while the reply arrives in deltas, and the rest is queued at the end. However the
   * reply is cut into deltas, the queue holds exactly its visible characters in order. It fails exactly on a reply
   * that is too long or shows nothing.
   */
  method StreamReply(deltas: seq<string>) returns (ok: bool, queue: seq<string>, last: string)
    ensures ok <==> TotalLength(deltas) <= MAX_REPLY && NonSpace(Concat(deltas)) != ""
    ensures ok ==> Spoken(queue) == NonSpace(Concat(deltas))
    ensures ok ==> Units(queue, 1, -1)
    ensures ok ==> last == Strip(Streamed(deltas).pending) && queue == Streamed(deltas).units + NonEmpty(last)
    ensures ok ==> |last| < MAX_UNIT && (last == "" || (queue != [] && queue[|queue| - 1] == last))
  {
    hide Strip;
    hide Spoken;
    hide NonSpace;
    hide Take;
    hide UnitWithin;
    queue, last := [], "";
    var pending, total := "", 0;
    NoParts();
    assert deltas[..0] == [];
    for i := 0 to |deltas|
      invariant total == TotalLength(deltas[..i]) <= MAX_REPLY
      invariant Cut(queue, pending) == Streamed(deltas[..i])
      invariant Spoken(queue) + NonSpace(pending) == NonSpace(Concat(deltas[..i]))
      invariant Units(queue, 1, -1)
      invariant |Strip(pending)| < MAX_UNIT
    {
      var delta := deltas[i];
      assert deltas[..i + 1][..i] == deltas[..i] && deltas[..i + 1][i] == delta;
      if delta != "" {
        total := total + |delta|;
        if total > MAX_REPLY {
          LengthGrows(deltas, i + 1);
          return false, queue, last;
        }
        var ready: seq<string>;
        ghost var before := pending;
        ready, pending := TakeCompleteSpeechUnits(pending + delta);
        TakeKeeps(before + delta);
        NonSpaceConcat(before, delta);
        NonSpaceConcat(Concat(deltas[..i]), delta);
        SpokenConcat(queue, ready);
        Regroup(Spoken(queue), NonSpace(before), NonSpace(delta), Spoken(ready), NonSpace(pending));
        BothUnits(queue, ready);
        queue := queue + ready;
      } else {
        assert Concat(deltas[..i + 1]) == Concat(deltas[..i]);
      }
    }
    assert deltas[..|deltas|] == deltas;
    NonSpaceStripped(Concat(deltas));
    var response := Strip(Concat(deltas));
    if response == "" {
      return false, queue, last;
    }
    Visible(response);
    NonSpaceStripped(pending);
    last := Strip(pending);
    if last != "" {
      SpokenMore(queue, last);
      assert Units([last], 1, -1) by {
        assert [last][0] == last;
        Trimmed(pending);
      }
      BothUnits(queue, [last]);
      queue := queue + [last];
    }
    ok := true;
  }

  lemma Regroup(queued: string, before: string, delta: string, ready: string, pending: string)
    requires ready + pending == before + delta
    ensures (queued + ready) + pending == (queued + before) + delta
  {
    assert (queued + ready) + pending == queued + (ready + pending);
    assert (queued + before) + delta == queued + (before + delta);
  }

  lemma Trimmed(s: string)
    ensures Strip(s) != "" ==> UnitWithin(Strip(s), 1, -1)
  {
    hide Strip;
  }

  lemma BothUnits(a: seq<string>, b: seq<string>)
    requires Units(a, 1, -1) && Units(b, 1, -1)
    ensures Units(a + b, 1, -1)
  {
    hide UnitWithin;
  }

  lemma {:induction false} LengthGrows(deltas: seq<string>, i: nat)
    requires i <= |deltas|
    ensures TotalLength(deltas[..i]) <= TotalLength(deltas)
    decreases |deltas|
  {
    if i < |deltas| {
      LengthGrows(deltas[..|deltas| - 1], i);
      assert deltas[..|deltas| - 1][..i] == deltas[..i];
    } else {
      assert deltas[..i] == deltas;
    }
  }
}
