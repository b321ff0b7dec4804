/** The `while True` loop of `pretty_repr`: retry at the next expansion level until an attempt is not aborted. */
module Retry {
  import opened Wrappers
  import opened Values
  import opened Strings
  import opened Lines
  import opened Layout
  import opened LayoutFacts
  import opened Budget
  import opened Traversal

  /** One attempt: `traverse(_object)` at `expand_level`, starting from a single empty line. */
  function Attempt(heap: Heap, indentSize: nat, maxWidth: Option<int>, root: Id, expandLevel: nat, lineBreak: Option<nat>): Run
    requires WellFormed(heap) && root in heap
  {
    Play(maxWidth, Emit(Style(heap, indentSize, expandLevel), root, 0, {}), Running([[]], 0, lineBreak))
  }

  /**
   * An attempt that goes through leaves `line_break` alone; an aborted one
   * raises it, never past the lines a full expansion makes; with no
   * `max_width` none is aborted.
   */
  lemma AttemptOutcome(heap: Heap, indentSize: nat, maxWidth: Option<int>, root: Id, expandLevel: nat, lineBreak: Option<nat>)
    requires WellFormed(heap) && root in heap
    ensures var r := Attempt(heap, indentSize, maxWidth, root, expandLevel, lineBreak);
      && (r.Running? ==> r.lineBreak == lineBreak)
      && (r.Stopped? ==> r.lineBreak.Some? && Height(lineBreak) < r.lineBreak.value <= LineBound(heap, root, {}) + 1)
      && (maxWidth.None? ==> r.Running?)
  {
    var ops := Emit(Style(heap, indentSize, expandLevel), root, 0, {});
    if maxWidth.None? {
      PlayUnbounded(ops, [[]], 0, lineBreak);
    } else if Play(maxWidth, ops, Running([[]], 0, lineBreak)).Stopped? {
      PlayAbort(maxWidth, ops, [[]], 0, lineBreak);
      BreaksBounded(Style(heap, indentSize, expandLevel), root, 0, {});
    } else {
      PlayRunning(maxWidth, ops, [[]], 0, lineBreak);
    }
  }

  /** `line_break` as a number, `None` counting as 0. */
  function Height(lineBreak: Option<nat>): nat
  {
    if lineBreak.Some? then lineBreak.value else 0
  }

  /** The outcome of the loop: the lines of the attempt that went through, and the state it ran in. */
  datatype Rendered = Rendered(doc: Document, expandLevel: nat, lineBreak: Option<nat>)

  /**
   * The loop from `expand_level` on. It ends because every abort raises
   * `line_break` strictly, and `line_break` never exceeds the number of lines
   * an attempt can make. The attempt it returns is one that was not aborted,
   * and the number of aborted attempts before it is bounded by that gap.
   */
  function RetryFrom(heap: Heap, indentSize: nat, maxWidth: Option<int>, root: Id, expandLevel: nat, lineBreak: Option<nat>): (r: Rendered)
    requires WellFormed(heap) && root in heap
    requires Height(lineBreak) <= LineBound(heap, root, {}) + 1
    ensures var a := Attempt(heap, indentSize, maxWidth, root, r.expandLevel, r.lineBreak);
      a.Running? && a.doc == r.doc && a.lineBreak == r.lineBreak
    ensures expandLevel <= r.expandLevel <= expandLevel + LineBound(heap, root, {}) + 1 - Height(lineBreak)
    decreases LineBound(heap, root, {}) + 1 - Height(lineBreak)
  {
    var ops := Emit(Style(heap, indentSize, expandLevel), root, 0, {});
    var a := Attempt(heap, indentSize, maxWidth, root, expandLevel, lineBreak);
    if a.Running? then
      PlayRunning(maxWidth, ops, [[]], 0, lineBreak);
      Rendered(a.doc, expandLevel, lineBreak)
    else
      PlayAbort(maxWidth, ops, [[]], 0, lineBreak);
      BreaksBounded(Style(heap, indentSize, expandLevel), root, 0, {});
      RetryFrom(heap, indentSize, maxWidth, root, expandLevel + 1, a.lineBreak)
  }

  /**
   * One pass of the loop: an attempt that goes through ends the loop with
   * its lines; an aborted one moves on to the next `expand_level` with a
   * strictly higher `line_break`, still within the bound.
   */
  lemma RetryStep(heap: Heap, indentSize: nat, maxWidth: Option<int>, root: Id, expandLevel: nat, lineBreak: Option<nat>)
    requires WellFormed(heap) && root in heap
    requires Height(lineBreak) <= LineBound(heap, root, {}) + 1
    ensures var a := Walk(maxWidth, Style(heap, indentSize, expandLevel), root, 0, {}, Running([[]], 0, lineBreak));
      if a.Running? then
        && a.lineBreak == lineBreak
        && RetryFrom(heap, indentSize, maxWidth, root, expandLevel, lineBreak) == Rendered(a.doc, expandLevel, lineBreak)
      else
        && Height(lineBreak) < Height(a.lineBreak) <= LineBound(heap, root, {}) + 1
        && RetryFrom(heap, indentSize, maxWidth, root, expandLevel, lineBreak)
           == RetryFrom(heap, indentSize, maxWidth, root, expandLevel + 1, a.lineBreak)
  {
    var ops := Emit(Style(heap, indentSize, expandLevel), root, 0, {});
    WalkIsPlay(maxWidth, Style(heap, indentSize, expandLevel), root, 0, {}, Running([[]], 0, lineBreak));
    if Play(maxWidth, ops, Running([[]], 0, lineBreak)).Stopped? {
      PlayAbort(maxWidth, ops, [[]], 0, lineBreak);
      BreaksBounded(Style(heap, indentSize, expandLevel), root, 0, {});
    } else {
      PlayRunning(maxWidth, ops, [[]], 0, lineBreak);
    }
  }

  /** The whole loop, from `expand_level = 0` and `line_break = None`. */
  function PrettyLines(heap: Heap, indentSize: nat, maxWidth: Option<int>, root: Id): Rendered
    requires WellFormed(heap) && root in heap
  {
    RetryFrom(heap, indentSize, maxWidth, root, 0, None)
  }

  /** `line.text` for every line. */
  function LineTexts(doc: seq<seq<string>>): (texts: seq<string>)
    ensures |texts| == |doc|
    ensures forall i :: 0 <= i < |doc| ==> texts[i] == Concat(doc[i])
  {
    if doc == [] then [] else LineTexts(doc[..|doc| - 1]) + [Concat(doc[|doc| - 1])]
  }

  /**
   * `"\n".join(line.text for line in lines)`. With no `max_width` it is the
   * one-line rendering.
   */
  function PrettyText(heap: Heap, indentSize: nat, maxWidth: Option<int>, root: Id): (t: string)
    requires WellFormed(heap) && root in heap
    ensures maxWidth.None? ==> t == InlineRepr(heap, root, {})
  {
    var texts := LineTexts(PrettyLines(heap, indentSize, maxWidth, root).doc);
    if maxWidth.None? then
      AttemptOutcome(heap, indentSize, maxWidth, root, 0, None);
      InlineLines(heap, indentSize, maxWidth, root);
      JoinWith("\n", texts)
    else JoinWith("\n", texts)
  }

  /**
   * When the attempt at `expand_level = 0` goes through (always so with no
   * budget), the output is one line: the one-line rendering of the value.
   */
  lemma FirstAttemptIsInline(heap: Heap, indentSize: nat, maxWidth: Option<int>, root: Id)
    requires WellFormed(heap) && root in heap
    requires Attempt(heap, indentSize, maxWidth, root, 0, None).Running?
    ensures PrettyLines(heap, indentSize, maxWidth, root).expandLevel == 0
    ensures |PrettyLines(heap, indentSize, maxWidth, root).doc| == 1
    ensures PrettyText(heap, indentSize, maxWidth, root) == InlineRepr(heap, root, {})
  {
    InlineLines(heap, indentSize, maxWidth, root);
  }

  /** The lines of a first attempt that goes through: a single one, the one-line rendering. */
  lemma InlineLines(heap: Heap, indentSize: nat, maxWidth: Option<int>, root: Id)
    requires WellFormed(heap) && root in heap
    requires Attempt(heap, indentSize, maxWidth, root, 0, None).Running?
    ensures PrettyLines(heap, indentSize, maxWidth, root).expandLevel == 0
    ensures LineTexts(PrettyLines(heap, indentSize, maxWidth, root).doc) == [InlineRepr(heap, root, {})]
  {
    var st := Style(heap, indentSize, 0);
    var ops := Emit(st, root, 0, {});
    PlayRunning(maxWidth, ops, [[]], 0, None);
    InlineNoBreaks(st, root, 0, {});
    ApplyNoBreaks(ops, [[]]);
    InlineMatchesReference(st, root, 0, {});
    var doc := PrettyLines(heap, indentSize, maxWidth, root).doc;
    assert doc == Apply(ops, [[]]);
    assert Concat([]) == "";
    assert Concat(doc[0]) == InlineRepr(heap, root, {});
    assert LineTexts(doc) == [InlineRepr(heap, root, {})];
  }

  /**
   * Every line of the output is within the budget unless the hysteresis let
   * it through: a line wider than `max_width` lies within the first
   * `line_break` lines. With no abort at all, every line fits.
   */
  lemma OverwideLinesTolerated(heap: Heap, indentSize: nat, maxWidth: Option<int>, root: Id, i: nat)
    requires WellFormed(heap) && root in heap
    requires maxWidth.Some?
    requires var r := PrettyLines(heap, indentSize, maxWidth, root);
      i < |r.doc| && |r.doc[i]| > 0 && EffectiveWidth(r.doc[i]) > maxWidth.value
    ensures var r := PrettyLines(heap, indentSize, maxWidth, root);
      r.lineBreak.Some? && i < r.lineBreak.value
  {
    var r := PrettyLines(heap, indentSize, maxWidth, root);
    var ops := Emit(Style(heap, indentSize, r.expandLevel), root, 0, {});
    assert Tolerated(maxWidth, [[]], r.lineBreak);
    assert Counted(Running([[]], 0, r.lineBreak));
    PlayKeepsTolerated(maxWidth, ops, [[]], 0, r.lineBreak);
  }
}
