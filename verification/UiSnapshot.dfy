/** The iterative snapshot of a window's element tree, proved to be a prefix of the recursive preorder walk. */
module UiSnapshot {

  /** At most this many children of one element are walked. */
  const CHILD_LIMIT: nat := 500

  /** What the automation library answers when an element is asked for its children. */
  datatype Children = Unavailable | Listed(elements: seq<Element>)

  /** A UI element; reading the attributes of an unreadable element raises before anything is recorded. */
  datatype Element = Element(readable: bool, attributes: string, children: Children)

  datatype Option<+T> = None | Some(value: T)

  /** One snapshot record; `parent` is the index of the parent's record. */
  datatype Record = Record(index: nat, parent: Option<nat>, depth: nat, attributes: string)

  /** A record together with the element it was taken from (the source keeps two parallel lists). */
  datatype Entry = Entry(record: Record, element: Element)

  /** An element waiting on the stack. */
  datatype Pending = Pending(element: Element, depth: nat, parent: Option<nat>)

  function RecordsOf(entries: seq<Entry>): (records: seq<Record>)
    ensures |records| == |entries|
  {
    seq(|entries|, i requires 0 <= i < |entries| => entries[i].record)
  }

  function ElementsOf(entries: seq<Entry>): (elements: seq<Element>)
    ensures |elements| == |entries|
  {
    seq(|entries|, i requires 0 <= i < |entries| => entries[i].element)
  }

  /** The children that are walked below an element at the given depth. */
  function Walked(e: Element, depth: nat, maxDepth: nat): seq<Element> {
    if depth < maxDepth && e.children.Listed? then
      var es := e.children.elements;
      if |es| <= CHILD_LIMIT then es else es[..CHILD_LIMIT]
    else []
  }

  /** Does the child limit hide children of this element? */
  predicate Cut(e: Element, depth: nat, maxDepth: nat) {
    depth < maxDepth && e.children.Listed? && |e.children.elements| > CHILD_LIMIT
  }

  // -------------------------------------------------------------------------
  // The recursive walk
  // -------------------------------------------------------------------------

  /** Preorder of one subtree whose first record gets number `base`. */
  function Preorder(e: Element, depth: nat, parent: Option<nat>, base: nat, maxDepth: nat): seq<Entry>
    requires depth <= maxDepth
    decreases maxDepth - depth, 0
  {
    if !e.readable then []
    else
      [Entry(Record(base, parent, depth, e.attributes), e)] +
      (if depth < maxDepth then Forest(Walked(e, depth, maxDepth), depth + 1, Some(base), base + 1, maxDepth) else [])
  }

  /** Preorder of a row of siblings. */
  function Forest(es: seq<Element>, depth: nat, parent: Option<nat>, base: nat, maxDepth: nat): seq<Entry>
    requires depth <= maxDepth
    decreases maxDepth - depth, |es|
  {
    if es == [] then []
    else
      var first := Preorder(es[0], depth, parent, base, maxDepth);
      first + Forest(es[1..], depth, parent, base + |first|, maxDepth)
  }

  // -------------------------------------------------------------------------
  // The stack, topmost element last
  // -------------------------------------------------------------------------

  predicate StackFits(stack: seq<Pending>, maxDepth: nat) {
    forall i :: 0 <= i < |stack| ==> stack[i].depth <= maxDepth
  }

  /** What walking everything on the stack, top first, still has to record. */
  ghost function StackWalk(stack: seq<Pending>, base: nat, maxDepth: nat): seq<Entry>
    requires StackFits(stack, maxDepth)
  {
    if stack == [] then []
    else
      var top := stack[|stack| - 1];
      var first := Preorder(top.element, top.depth, top.parent, base, maxDepth);
      first + StackWalk(stack[..|stack| - 1], base + |first|, maxDepth)
  }

  /** Siblings as they are pushed: in reverse, so that the first one ends up on top. */
  function Reversed(es: seq<Element>, depth: nat, parent: Option<nat>): (ps: seq<Pending>)
    ensures |ps| == |es|
    ensures forall i :: 0 <= i < |ps| ==> ps[i].depth == depth
  {
    if es == [] then [] else Reversed(es[1..], depth, parent) + [Pending(es[0], depth, parent)]
  }

  /** Pushing a row of siblings in reverse order puts exactly their preorder in front of the rest. */
  lemma {:induction false} PushedSiblings(
    stack: seq<Pending>, es: seq<Element>, depth: nat, parent: Option<nat>, base: nat, maxDepth: nat)
    requires depth <= maxDepth && StackFits(stack, maxDepth)
    ensures StackFits(stack + Reversed(es, depth, parent), maxDepth)
    ensures var row := Forest(es, depth, parent, base, maxDepth);
            StackWalk(stack + Reversed(es, depth, parent), base, maxDepth)
            == row + StackWalk(stack, base + |row|, maxDepth)
    decreases |es|
  {
    hide StackWalk, Preorder;
    var pushed := stack + Reversed(es, depth, parent);
    if es == [] {
      assert pushed == stack;
    } else {
      var first := Preorder(es[0], depth, parent, base, maxDepth);
      var rest := Forest(es[1..], depth, parent, base + |first|, maxDepth);
      var below := stack + Reversed(es[1..], depth, parent);
      assert pushed == below + [Pending(es[0], depth, parent)];
      PushedSiblings(stack, es[1..], depth, parent, base + |first|, maxDepth);
      Topmost(below, Pending(es[0], depth, parent), base, maxDepth);
      Grouped(first, rest, StackWalk(stack, base + |first| + |rest|, maxDepth));
    }
  }

  lemma Grouped(a: seq<Entry>, b: seq<Entry>, c: seq<Entry>)
    ensures a + (b + c) == (a + b) + c
  {}

  /** Walking a stack walks its topmost element first. */
  lemma Topmost(rest: seq<Pending>, top: Pending, base: nat, maxDepth: nat)
    requires StackFits(rest, maxDepth) && top.depth <= maxDepth
    ensures StackFits(rest + [top], maxDepth)
    ensures var first := Preorder(top.element, top.depth, top.parent, base, maxDepth);
            StackWalk(rest + [top], base, maxDepth) == first + StackWalk(rest, base + |first|, maxDepth)
  {
    assert (rest + [top])[..|rest|] == rest;
  }

  /** The entry recorded for a popped element. */
  function EntryFor(p: Pending, index: nat): Entry {
    Entry(Record(index, p.parent, p.depth, p.element.attributes), p.element)
  }

  /** The stack after a readable element was popped and its children were pushed. */
  function AfterPop(rest: seq<Pending>, top: Pending, index: nat, maxDepth: nat): seq<Pending> {
    rest + Reversed(Walked(top.element, top.depth, maxDepth), top.depth + 1, Some(index))
  }

  /** One turn of the loop on a readable element moves the first entry of the remaining walk to the records. */
  lemma {:induction false} PopReadable(rest: seq<Pending>, top: Pending, base: nat, maxDepth: nat)
    requires StackFits(rest, maxDepth) && top.depth <= maxDepth && top.element.readable
    ensures var next := AfterPop(rest, top, base, maxDepth);
            && StackFits(rest + [top], maxDepth)
            && StackFits(next, maxDepth)
            && StackWalk(rest + [top], base, maxDepth) == [EntryFor(top, base)] + StackWalk(next, base + 1, maxDepth)
            && StackWeight(next, maxDepth) < StackWeight(rest + [top], maxDepth)
  {
    hide StackWalk;
    hide Forest;
    hide StackWeight;
    var children := Walked(top.element, top.depth, maxDepth);
    Topmost(rest, top, base, maxDepth);
    TopmostWeight(rest, top, maxDepth);
    if top.depth < maxDepth {
      PushedSiblings(rest, children, top.depth + 1, Some(base), base + 1, maxDepth);
      PushedWeight(rest, children, top.depth + 1, Some(base), maxDepth);
    } else {
      assert AfterPop(rest, top, base, maxDepth) == rest;
    }
  }

  lemma TopmostWeight(rest: seq<Pending>, top: Pending, maxDepth: nat)
    requires StackFits(rest, maxDepth) && top.depth <= maxDepth
    ensures StackFits(rest + [top], maxDepth)
    ensures StackWeight(rest + [top], maxDepth)
            == Weight(top.element, top.depth, maxDepth) + StackWeight(rest, maxDepth)
            > StackWeight(rest, maxDepth)
  {
    assert (rest + [top])[..|rest|] == rest;
  }

  function Min(a: nat, b: nat): nat { if a <= b then a else b }

  /** The number of elements in a tree, as far as it is walked; bounds the loop. */
  ghost function Weight(e: Element, depth: nat, maxDepth: nat): nat
    requires depth <= maxDepth
    decreases maxDepth - depth, 0
  {
    1 + (if depth < maxDepth then RowWeight(Walked(e, depth, maxDepth), depth + 1, maxDepth) else 0)
  }

  ghost function RowWeight(es: seq<Element>, depth: nat, maxDepth: nat): nat
    requires depth <= maxDepth
    decreases maxDepth - depth, |es|
  {
    if es == [] then 0 else Weight(es[0], depth, maxDepth) + RowWeight(es[1..], depth, maxDepth)
  }

  ghost function StackWeight(stack: seq<Pending>, maxDepth: nat): nat
    requires StackFits(stack, maxDepth)
  {
    if stack == [] then 0
    else Weight(stack[|stack| - 1].element, stack[|stack| - 1].depth, maxDepth)
         + StackWeight(stack[..|stack| - 1], maxDepth)
  }

  lemma {:induction false} PushedWeight(stack: seq<Pending>, es: seq<Element>, depth: nat, parent: Option<nat>, maxDepth: nat)
    requires depth <= maxDepth && StackFits(stack, maxDepth)
    ensures StackFits(stack + Reversed(es, depth, parent), maxDepth)
    ensures StackWeight(stack + Reversed(es, depth, parent), maxDepth)
            == RowWeight(es, depth, maxDepth) + StackWeight(stack, maxDepth)
    decreases |es|
  {
    var pushed := stack + Reversed(es, depth, parent);
    if es == [] {
      assert pushed == stack;
    } else {
      assert pushed[..|pushed| - 1] == stack + Reversed(es[1..], depth, parent);
      PushedWeight(stack, es[1..], depth, parent, maxDepth);
    }
  }

  /** Did the child limit hide children below one of these entries? */
  ghost predicate AnyCut(entries: seq<Entry>, maxDepth: nat) {
    exists i :: 0 <= i < |entries| && Cut(entries[i].element, entries[i].record.depth, maxDepth)
  }

  lemma Appended(kept: seq<Entry>, e: Entry, maxDepth: nat)
    ensures RecordsOf(kept + [e]) == RecordsOf(kept) + [e.record]
    ensures ElementsOf(kept + [e]) == ElementsOf(kept) + [e.element]
    ensures AnyCut(kept + [e], maxDepth) <==> AnyCut(kept, maxDepth) || Cut(e.element, e.record.depth, maxDepth)
  {
    var all := kept + [e];
    assert all[|kept|] == e;
    assert forall i :: 0 <= i < |kept| ==> all[i] == kept[i];
  }

  /** The loop's invariant: what is recorded, followed by what the stack still has to record, is the preorder. */
  ghost predicate Progress(root: Element, kept: seq<Entry>, pending: seq<Pending>, maxDepth: nat) {
    && StackFits(pending, maxDepth)
    && Preorder(root, 0, None, 0, maxDepth) == kept + StackWalk(pending, |kept|, maxDepth)
  }

  lemma ProgressStart(root: Element, maxDepth: nat)
    ensures Progress(root, [], [Pending(root, 0, None)], maxDepth)
    ensures RecordsOf([]) == [] && ElementsOf([]) == [] && !AnyCut([], maxDepth)
  {
    Topmost([], Pending(root, 0, None), 0, maxDepth);
    assert [] + [Pending(root, 0, None)] == [Pending(root, 0, None)];
  }

  lemma ProgressReadable(root: Element, kept: seq<Entry>, rest: seq<Pending>, top: Pending, maxDepth: nat)
    requires Progress(root, kept, rest + [top], maxDepth) && top.element.readable
    ensures Progress(root, kept + [EntryFor(top, |kept|)], AfterPop(rest, top, |kept|, maxDepth), maxDepth)
    ensures StackFits(rest + [top], maxDepth) && StackFits(AfterPop(rest, top, |kept|, maxDepth), maxDepth)
    ensures StackWeight(AfterPop(rest, top, |kept|, maxDepth), maxDepth) < StackWeight(rest + [top], maxDepth)
  {
    hide Preorder;
    hide StackWalk;
    assert StackFits(rest, maxDepth) && (rest + [top])[|rest|] == top by {
      assert forall i :: 0 <= i < |rest| ==> (rest + [top])[i] == rest[i];
    }
    PopReadable(rest, top, |kept|, maxDepth);
  }

  lemma ProgressUnreadable(root: Element, kept: seq<Entry>, rest: seq<Pending>, top: Pending, maxDepth: nat)
    requires Progress(root, kept, rest + [top], maxDepth) && !top.element.readable
    ensures Progress(root, kept, rest, maxDepth)
    ensures StackFits(rest + [top], maxDepth) && StackFits(rest, maxDepth)
    ensures StackWeight(rest, maxDepth) < StackWeight(rest + [top], maxDepth)
  {
    hide Preorder, StackWalk, StackWeight, Weight;
    assert StackFits(rest, maxDepth) && (rest + [top])[|rest|] == top by {
      assert forall i :: 0 <= i < |rest| ==> (rest + [top])[i] == rest[i];
    }
    Topmost(rest, top, |kept|, maxDepth);
    TopmostWeight(rest, top, maxDepth);
    NothingRecorded(top, |kept|, maxDepth);
    assert [] + StackWalk(rest, |kept|, maxDepth) == StackWalk(rest, |kept|, maxDepth);
  }

  lemma NothingRecorded(p: Pending, base: nat, maxDepth: nat)
    requires p.depth <= maxDepth && !p.element.readable
    ensures Preorder(p.element, p.depth, p.parent, base, maxDepth) == []
  {}


  lemma ProgressEnd(root: Element, kept: seq<Entry>, pending: seq<Pending>, maxDepth: nat)
    requires Progress(root, kept, pending, maxDepth)
    ensures var full := Preorder(root, 0, None, 0, maxDepth);
            |kept| <= |full| && kept == full[..|kept|] && (pending == [] ==> kept == full)
  {}

  /**
   * The snapshot loop. It records exactly the first `maxNodes` entries of the recursive preorder, and reports
   * truncation whenever something of that preorder or of the real tree below a recorded element is missing.
   */
  method SnapshotTree(root: Element, maxDepth: nat, maxNodes: nat)
    returns (records: seq<Record>, wrappers: seq<Element>, truncated: bool)
    ensures var full := Preorder(root, 0, None, 0, maxDepth);
            var kept := full[..Min(maxNodes, |full|)];
            && records == RecordsOf(kept)
            && wrappers == ElementsOf(kept)
            && (!truncated ==> kept == full && !AnyCut(full, maxDepth))
            && (truncated ==> |records| == maxNodes || AnyCut(kept, maxDepth))
  {
    hide Preorder;
    hide Progress;
    hide StackWalk;
    hide StackWeight;
    hide AfterPop;
    hide AnyCut;
    records, wrappers, truncated := [], [], false;
    var pending := [Pending(root, 0, None)];
    ghost var kept: seq<Entry> := [];
    ProgressStart(root, maxDepth);
    while pending != [] && |records| < maxNodes
      invariant |kept| == |records| <= maxNodes
      invariant records == RecordsOf(kept) && wrappers == ElementsOf(kept)
      invariant StackFits(pending, maxDepth)
      invariant Progress(root, kept, pending, maxDepth)
      invariant truncated <==> AnyCut(kept, maxDepth)
      decreases StackWeight(pending, maxDepth)
    {
      var rest, top := pending[..|pending| - 1], pending[|pending| - 1];
      assert pending == rest + [top];
      if top.element.readable {
        var entry := EntryFor(top, |records|);
        ProgressReadable(root, kept, rest, top, maxDepth);
        Appended(kept, entry, maxDepth);
        records := records + [entry.record];
        wrappers := wrappers + [top.element];
        kept := kept + [entry];
        pending := AfterPop(rest, top, entry.record.index, maxDepth);
        if Cut(top.element, top.depth, maxDepth) {
          truncated := true;
        }
      } else {
        ProgressUnreadable(root, kept, rest, top, maxDepth);
        pending := rest;
      }
    }
    ProgressEnd(root, kept, pending, maxDepth);
    if pending != [] {
      truncated := true;
    }
  }

  // -------------------------------------------------------------------------
  // Shape of the preorder
  // -------------------------------------------------------------------------

  /**
   * Entry `i` has the next number, and its parent is the given one or the last earlier entry that is not as deep, which is
   * one level up.
   */
  ghost predicate NestedAt(entries: seq<Entry>, i: nat, depth: nat, parent: Option<nat>, base: nat, maxDepth: nat)
    requires i < |entries|
  {
    var r := entries[i].record;
    && r.index == base + i
    && depth <= r.depth <= maxDepth
    && ((r.parent == parent && r.depth == depth)
        || (&& r.parent.Some? && base <= r.parent.value < base + i
            && r.depth == entries[r.parent.value - base].record.depth + 1
            && forall j :: r.parent.value - base < j < i ==> entries[j].record.depth >= r.depth))
  }

  ghost predicate WellNested(entries: seq<Entry>, depth: nat, parent: Option<nat>, base: nat, maxDepth: nat) {
    forall i :: 0 <= i < |entries| ==> NestedAt(entries, i, depth, parent, base, maxDepth)
  }

  lemma NestedRow(first: seq<Entry>, rest: seq<Entry>, depth: nat, parent: Option<nat>, base: nat, maxDepth: nat)
    requires WellNested(first, depth, parent, base, maxDepth)
    requires WellNested(rest, depth, parent, base + |first|, maxDepth)
    ensures WellNested(first + rest, depth, parent, base, maxDepth)
  {
    var all := first + rest;
    forall i | 0 <= i < |all| ensures NestedAt(all, i, depth, parent, base, maxDepth) {
      if i < |first| {
        assert NestedAt(first, i, depth, parent, base, maxDepth);
      } else {
        assert NestedAt(rest, i - |first|, depth, parent, base + |first|, maxDepth);
      }
    }
  }

  lemma NestedUnder(e: Entry, below: seq<Entry>, maxDepth: nat)
    requires e.record.depth <= maxDepth
    requires WellNested(below, e.record.depth + 1, Some(e.record.index), e.record.index + 1, maxDepth)
    ensures WellNested([e] + below, e.record.depth, e.record.parent, e.record.index, maxDepth)
    ensures forall i :: 0 < i < |[e] + below| ==> ([e] + below)[i].record.parent.Some?
  {
    var all := [e] + below;
    forall i | 0 <= i < |all|
      ensures NestedAt(all, i, e.record.depth, e.record.parent, e.record.index, maxDepth)
      ensures i > 0 ==> all[i].record.parent.Some?
    {
      if i > 0 {
        assert NestedAt(below, i - 1, e.record.depth + 1, Some(e.record.index), e.record.index + 1, maxDepth);
        forall j | 0 < j < i ensures all[j] == below[j - 1] && all[j].record.depth >= e.record.depth + 1 {
          assert NestedAt(below, j - 1, e.record.depth + 1, Some(e.record.index), e.record.index + 1, maxDepth);
        }
      }
    }
  }

  lemma {:induction false} PreorderWellNested(e: Element, depth: nat, parent: Option<nat>, base: nat, maxDepth: nat)
    requires depth <= maxDepth
    ensures var all := Preorder(e, depth, parent, base, maxDepth);
            && WellNested(all, depth, parent, base, maxDepth)
            && forall i :: 0 < i < |all| ==> all[i].record.parent.Some?
    decreases maxDepth - depth, 0
  {
    if e.readable {
      var entry := EntryFor(Pending(e, depth, parent), base);
      if depth < maxDepth {
        ForestWellNested(Walked(e, depth, maxDepth), depth + 1, Some(base), base + 1, maxDepth);
        NestedUnder(entry, Forest(Walked(e, depth, maxDepth), depth + 1, Some(base), base + 1, maxDepth), maxDepth);
      } else {
        NestedUnder(entry, [], maxDepth);
      }
    }
  }

  lemma {:induction false} ForestWellNested(es: seq<Element>, depth: nat, parent: Option<nat>, base: nat, maxDepth: nat)
    requires depth <= maxDepth
    ensures WellNested(Forest(es, depth, parent, base, maxDepth), depth, parent, base, maxDepth)
    decreases maxDepth - depth, |es|
  {
    if es != [] {
      var first := Preorder(es[0], depth, parent, base, maxDepth);
      PreorderWellNested(es[0], depth, parent, base, maxDepth);
      ForestWellNested(es[1..], depth, parent, base + |first|, maxDepth);
      NestedRow(first, Forest(es[1..], depth, parent, base + |first|, maxDepth), depth, parent, base, maxDepth);
    }
  }

  /**
   * In every snapshot a record's parent is the last one before it that is not as deep, one level up; only the root has no
   * parent.
   */
  lemma {:induction false} SnapshotWellNested(root: Element, maxDepth: nat, maxNodes: nat)
    ensures var full := Preorder(root, 0, None, 0, maxDepth);
            var records := RecordsOf(full[..Min(maxNodes, |full|)]);
            forall i :: 0 <= i < |records| ==>
              && records[i].index == i
              && records[i].depth <= maxDepth
              && (records[i].parent.None? <==> i == 0)
              && (i > 0 ==> records[i].parent.value < i
                            && records[i].depth == records[records[i].parent.value].depth + 1
                            && forall j :: records[i].parent.value < j < i ==> records[j].depth >= records[i].depth)
  {
    var full := Preorder(root, 0, None, 0, maxDepth);
    PreorderWellNested(root, 0, None, 0, maxDepth);
    var kept := full[..Min(maxNodes, |full|)];
    forall i | 0 <= i < |kept|
      ensures RecordsOf(kept)[i] == full[i].record && NestedAt(full, i, 0, None, 0, maxDepth)
    {}
  }

  // -------------------------------------------------------------------------
  // Completeness of the preorder
  // -------------------------------------------------------------------------

  /** The children that a complete walk shows below an element: the readable ones among the first 500. */
  function Shown(e: Element, depth: nat, maxDepth: nat): seq<Element> {
    if depth >= maxDepth || e.children.Unavailable? then []
    else Readable(e.children.elements[..Min(500, |e.children.elements|)])
  }

  function Readable(es: seq<Element>): seq<Element> {
    if es == [] then [] else (if es[0].readable then [es[0]] else []) + Readable(es[1..])
  }

  /** The elements recorded with this parent, in order. */
  function Kids(entries: seq<Entry>, parent: Option<nat>): seq<Element> {
    if entries == [] then []
    else (if entries[0].record.parent == parent then [entries[0].element] else []) + Kids(entries[1..], parent)
  }

  lemma {:induction false} KidsParts(a: seq<Entry>, b: seq<Entry>, parent: Option<nat>)
    ensures Kids(a + b, parent) == Kids(a, parent) + Kids(b, parent)
    decreases |a|
  {
    if a == [] {
      assert a + b == b;
      assert [] + Kids(b, parent) == Kids(b, parent);
    } else {
      assert (a + b)[1..] == a[1..] + b && (a + b)[0] == a[0];
      KidsParts(a[1..], b, parent);
      InOrder(if a[0].record.parent == parent then [a[0].element] else [], Kids(a[1..], parent), Kids(b, parent));
    }
  }

  lemma InOrder(a: seq<Element>, b: seq<Element>, c: seq<Element>)
    ensures a + (b + c) == (a + b) + c
  {}

  /** Below entry `i` are recorded the children it shows, and the record carries the element's own attributes. */
  ghost predicate CompleteAt(entries: seq<Entry>, i: nat, base: nat, maxDepth: nat)
    requires i < |entries|
  {
    var e := entries[i];
    && e.record.attributes == e.element.attributes && e.element.readable
    && Kids(entries, Some(base + i)) == Shown(e.element, e.record.depth, maxDepth)
  }

  ghost predicate Complete(entries: seq<Entry>, base: nat, maxDepth: nat) {
    forall i :: 0 <= i < |entries| ==> CompleteAt(entries, i, base, maxDepth)
  }

  /** Parents are the given one or numbers from `base` to the end of the entries. */
  ghost predicate ParentsWithin(entries: seq<Entry>, parent: Option<nat>, base: nat) {
    forall i :: 0 <= i < |entries| ==>
      var p := entries[i].record.parent;
      p == parent || (p.Some? && base <= p.value < base + |entries|)
  }

  lemma {:induction false} NoKids(entries: seq<Entry>, parent: Option<nat>)
    requires forall i :: 0 <= i < |entries| ==> entries[i].record.parent != parent
    ensures Kids(entries, parent) == []
    decreases |entries|
  {
    if entries != [] {
      NoKids(entries[1..], parent);
    }
  }

  /** Two neighbouring stretches of a row. */
  lemma CompleteRow(first: seq<Entry>, rest: seq<Entry>, parent: Option<nat>, base: nat, maxDepth: nat)
    requires parent.Some? ==> parent.value < base
    requires Complete(first, base, maxDepth) && ParentsWithin(first, parent, base)
    requires Complete(rest, base + |first|, maxDepth) && ParentsWithin(rest, parent, base + |first|)
    ensures Complete(first + rest, base, maxDepth) && ParentsWithin(first + rest, parent, base)
  {
    hide Kids, Shown;
    var all := first + rest;
    forall i | 0 <= i < |all| ensures CompleteAt(all, i, base, maxDepth) {
      KidsParts(first, rest, Some(base + i));
      if i < |first| {
        assert CompleteAt(first, i, base, maxDepth);
        NoKids(rest, Some(base + i));
      } else {
        assert CompleteAt(rest, i - |first|, base + |first|, maxDepth);
        NoKids(first, Some(base + i));
      }
    }
  }

  lemma FirstKids(e: Entry, below: seq<Entry>, parent: Option<nat>)
    ensures Kids([e] + below, parent) == (if e.record.parent == parent then [e.element] else []) + Kids(below, parent)
  {
    KidsParts([e], below, parent);
    assert [e][1..] == [];
  }

  /** An entry in front of the complete rows below it. */
  lemma CompleteUnder(e: Entry, below: seq<Entry>, maxDepth: nat)
    requires e.record.attributes == e.element.attributes && e.element.readable
    requires e.record.parent.Some? ==> e.record.parent.value < e.record.index
    requires Complete(below, e.record.index + 1, maxDepth)
    requires ParentsWithin(below, Some(e.record.index), e.record.index + 1)
    requires Kids(below, Some(e.record.index)) == Shown(e.element, e.record.depth, maxDepth)
    ensures Complete([e] + below, e.record.index, maxDepth)
    ensures ParentsWithin([e] + below, e.record.parent, e.record.index)
    ensures Kids([e] + below, e.record.parent) == [e.element]
  {
    hide Shown, Kids;
    var base := e.record.index;
    var all := [e] + below;
    forall i | 0 <= i < |all| ensures CompleteAt(all, i, base, maxDepth) {
      FirstKids(e, below, Some(base + i));
      if i == 0 {
        assert [] + Kids(below, Some(base)) == Kids(below, Some(base));
      } else {
        assert CompleteAt(below, i - 1, base + 1, maxDepth);
        assert [] + Kids(below, Some(base + i)) == Kids(below, Some(base + i));
      }
    }
    FirstKids(e, below, e.record.parent);
    NoKids(below, e.record.parent);
    assert [e.element] + [] == [e.element];
  }

  lemma {:induction false} PreorderComplete(e: Element, depth: nat, parent: Option<nat>, base: nat, maxDepth: nat)
    requires depth <= maxDepth && (parent.Some? ==> parent.value < base)
    ensures var all := Preorder(e, depth, parent, base, maxDepth);
            && Complete(all, base, maxDepth) && ParentsWithin(all, parent, base)
            && Kids(all, parent) == Readable([e])
    decreases maxDepth - depth, 0
  {
    hide Kids, Complete, ParentsWithin, Readable, Forest;
    var all := Preorder(e, depth, parent, base, maxDepth);
    OneReadable(e);
    NothingComplete(parent, base, maxDepth);
    if e.readable {
      var entry := EntryFor(Pending(e, depth, parent), base);
      NothingComplete(Some(base), base + 1, maxDepth);
      if depth < maxDepth {
        ForestComplete(Walked(e, depth, maxDepth), depth + 1, Some(base), base + 1, maxDepth);
        WalkedIsShown(e, depth, maxDepth);
        CompleteUnder(entry, Forest(Walked(e, depth, maxDepth), depth + 1, Some(base), base + 1, maxDepth), maxDepth);
      } else {
        CompleteUnder(entry, [], maxDepth);
      }
    }
  }

  lemma OneReadable(e: Element)
    ensures Readable([e]) == (if e.readable then [e] else []) && Readable([]) == []
  {}

  lemma WalkedIsShown(e: Element, depth: nat, maxDepth: nat)
    ensures Readable(Walked(e, depth, maxDepth)) == Shown(e, depth, maxDepth)
  {
    OneReadable(e);
    if e.children.Listed? {
      var es := e.children.elements;
      assert es[..|es|] == es;
    }
  }

  lemma NothingComplete(parent: Option<nat>, base: nat, maxDepth: nat)
    ensures Complete([], base, maxDepth) && ParentsWithin([], parent, base) && Kids([], parent) == []
  {}

  lemma {:induction false} ForestComplete(es: seq<Element>, depth: nat, parent: Option<nat>, base: nat, maxDepth: nat)
    requires depth <= maxDepth && (parent.Some? ==> parent.value < base)
    ensures var all := Forest(es, depth, parent, base, maxDepth);
            && Complete(all, base, maxDepth) && ParentsWithin(all, parent, base)
            && Kids(all, parent) == Readable(es)
    decreases maxDepth - depth, |es|
  {
    hide Kids, Complete, ParentsWithin, Preorder;
    NothingComplete(parent, base, maxDepth);
    if es != [] {
      var first := Preorder(es[0], depth, parent, base, maxDepth);
      var rest := Forest(es[1..], depth, parent, base + |first|, maxDepth);
      PreorderComplete(es[0], depth, parent, base, maxDepth);
      ForestComplete(es[1..], depth, parent, base + |first|, maxDepth);
      CompleteRow(first, rest, parent, base, maxDepth);
      KidsParts(first, rest, parent);
      assert Readable([es[0]]) == (if es[0].readable then [es[0]] else []) by {
        OneReadable(es[0]);
      }
    }
  }

  /**
   * The whole walk of a readable root records the root and, below every element it records above the depth limit, exactly
   * the readable ones among the first 500 children, in their order.
   */
  lemma WalkIsComplete(root: Element, maxDepth: nat)
    ensures var full := Preorder(root, 0, None, 0, maxDepth);
            && Kids(full, None) == (if root.readable then [root] else [])
            && forall i :: 0 <= i < |full| ==>
                 && full[i].record.attributes == full[i].element.attributes
                 && Kids(full, Some(i)) == Shown(full[i].element, full[i].record.depth, maxDepth)
  {
    hide Kids, Preorder, Shown;
    var full := Preorder(root, 0, None, 0, maxDepth);
    PreorderComplete(root, 0, None, 0, maxDepth);
    OneReadable(root);
    forall i | 0 <= i < |full|
      ensures full[i].record.attributes == full[i].element.attributes
      ensures Kids(full, Some(i)) == Shown(full[i].element, full[i].record.depth, maxDepth)
    {
      assert CompleteAt(full, i, 0, maxDepth);
    }
  }
}
