/**
 * The width budget: `append_text`'s overflow test and the `line_break`
 * hysteresis, folded over the calls of one attempt.
 */
module Budget {
  import opened Wrappers
  import opened Strings
  import opened Lines
  import opened Layout
  import opened LayoutFacts

  /**
   * The state of an attempt: still running, or aborted (`MaxLineReached`)
   * by the frame at depth `level`. `cells` is the current line's `_cell_len`
   * and `lineBreak` the `nonlocal line_break`.
   */
  datatype Run =
    | Running(doc: Document, cells: int, lineBreak: Option<nat>)
    | Stopped(level: nat, doc: Document, lineBreak: Option<nat>)

  /**
   * How a call, or a whole walk, moves the state: once aborted nothing more
   * happens; a run that goes on keeps `line_break`; an abort raises it.
   */
  ghost predicate Advances(s: Run, r: Run)
  {
    && (s.Stopped? ==> r == s)
    && (r.Running? ==> s.Running? && r.lineBreak == s.lineBreak)
    && (s.Running? && r.Stopped? ==> r.lineBreak.Some? && (s.lineBreak.Some? ==> s.lineBreak.value < r.lineBreak.value))
  }

  /** One call: `lines.append(_Line())`, or `append_text(text)` with its overflow test. */
  function Step(maxWidth: Option<int>, s: Run, op: Op): Run
  {
    match s
    case Stopped(_, _, _) => s
    case Running(doc, cells, lineBreak) =>
      match op
      case Break => Running(doc + [[]], 0, lineBreak)
      case Put(text, level) =>
        var d := AppendToLast(doc, text);
        if maxWidth.Some? && WidthAfter(cells, text) > maxWidth.value then
          if lineBreak.Some? && |d| <= lineBreak.value then Running(d, cells + CellLen(text), lineBreak)
          else Stopped(level, d, Some(|d|))
        else Running(d, cells + CellLen(text), lineBreak)
  }

  /**
   * Only a text can abort, at the level of the frame that wrote it, and
   * `line_break` is then the number of lines, above its old value; a new line
   * adds one line; with no `max_width` nothing aborts.
   */
  lemma StepAdvances(maxWidth: Option<int>, s: Run, op: Op)
    ensures var r := Step(maxWidth, s, op);
      && Advances(s, r)
      && (s.Running? ==> |r.doc| == |s.doc| + (if op.Break? then 1 else 0))
      && (s.Running? && r.Stopped? ==> op.Put? && r.level == op.level && r.lineBreak == Some(|r.doc|))
      && (maxWidth.None? ==> r.Running? == s.Running?)
  {
  }

  /** A running attempt's counter is the width of its current line. */
  ghost predicate Counted(s: Run)
  {
    s.Running? ==> s.cells == TotalCells(s.doc[|s.doc| - 1])
  }

  /**
   * Each call keeps the counter right, and the overflow test is the one on
   * `cell_len` of the current line once the text is on it.
   */
  lemma StepCounted(maxWidth: Option<int>, s: Run, op: Op)
    requires Counted(s)
    ensures Counted(Step(maxWidth, s, op))
    ensures s.Running? && op.Put? ==>
      WidthAfter(s.cells, op.text) == EffectiveWidth(AppendToLast(s.doc, op.text)[|s.doc| - 1])
  {
    if s.Running? && op.Put? {
      EffectiveWidthAfterAppend(s.doc[|s.doc| - 1], op.text);
    }
  }

  /** The calls made one after another; once aborted, nothing more happens. */
  function Play(maxWidth: Option<int>, ops: seq<Op>, s: Run): Run
  {
    if ops == [] then s else Play(maxWidth, ops[1..], Step(maxWidth, s, ops[0]))
  }

  lemma {:induction false} PlayAppend(maxWidth: Option<int>, a: seq<Op>, b: seq<Op>, s: Run)
    ensures Play(maxWidth, a + b, s) == Play(maxWidth, b, Play(maxWidth, a, s))
    decreases |a|
  {
    if a == [] {
      assert a + b == b;
    } else {
      assert (a + b)[0] == a[0];
      assert (a + b)[1..] == a[1..] + b;
      PlayAppend(maxWidth, a[1..], b, Step(maxWidth, s, a[0]));
    }
  }

  /** An aborted attempt stays aborted: the exception unwinds every frame. */
  lemma {:induction false} PlayStopped(maxWidth: Option<int>, ops: seq<Op>, s: Run)
    requires s.Stopped?
    ensures Play(maxWidth, ops, s) == s
    decreases |ops|
  {
    if ops != [] {
      PlayStopped(maxWidth, ops[1..], s);
    }
  }

  /** Once a prefix of the calls has aborted the attempt, the remaining calls change nothing. */
  lemma PlayPrefixStopped(maxWidth: Option<int>, pre: seq<Op>, rest: seq<Op>, s: Run)
    requires Play(maxWidth, pre, s).Stopped?
    ensures Play(maxWidth, pre + rest, s) == Play(maxWidth, pre, s)
  {
    PlayAppend(maxWidth, pre, rest, s);
    PlayStopped(maxWidth, rest, Play(maxWidth, pre, s));
  }

  /** One call in front of the rest. */
  lemma PlayCons(maxWidth: Option<int>, op: Op, rest: seq<Op>, s: Run)
    ensures Play(maxWidth, [op] + rest, s) == Play(maxWidth, rest, Step(maxWidth, s, op))
    ensures Play(maxWidth, [op], s) == Step(maxWidth, s, op)
    ensures Step(maxWidth, s, op).Stopped? ==> Play(maxWidth, [op] + rest, s) == Step(maxWidth, s, op)
  {
    assert ([op] + rest)[1..] == rest;
    assert [op][1..] == [];
    if Step(maxWidth, s, op).Stopped? {
      PlayStopped(maxWidth, rest, Step(maxWidth, s, op));
    }
  }

  /**
   * An attempt that is not aborted builds the same document as with no budget
   * at all, and leaves `line_break` as it found it.
   */
  lemma {:induction false} PlayRunning(maxWidth: Option<int>, ops: seq<Op>, doc: Document, cells: int, lineBreak: Option<nat>)
    requires Play(maxWidth, ops, Running(doc, cells, lineBreak)).Running?
    ensures var r := Play(maxWidth, ops, Running(doc, cells, lineBreak));
      r.doc == Apply(ops, doc) && r.lineBreak == lineBreak
    decreases |ops|
  {
    if ops != [] {
      var s := Step(maxWidth, Running(doc, cells, lineBreak), ops[0]);
      if s.Stopped? {
        PlayStopped(maxWidth, ops[1..], s);
      } else {
        PlayRunning(maxWidth, ops[1..], s.doc, s.cells, lineBreak);
      }
    }
  }

  /** With `max_width is None` nothing ever aborts. */
  lemma {:induction false} PlayUnbounded(ops: seq<Op>, doc: Document, cells: int, lineBreak: Option<nat>)
    ensures var r := Play(None, ops, Running(doc, cells, lineBreak));
      r.Running? && r.doc == Apply(ops, doc) && r.lineBreak == lineBreak
    decreases |ops|
  {
    if ops != [] {
      var s := Step(None, Running(doc, cells, lineBreak), ops[0]);
      PlayUnbounded(ops[1..], s.doc, s.cells, lineBreak);
    }
  }

  /**
   * An abort records the number of lines at that moment as the new
   * `line_break`, strictly above the previous one, and that number is at most
   * the lines the calls could have made.
   */
  lemma {:induction false} PlayAbort(maxWidth: Option<int>, ops: seq<Op>, doc: Document, cells: int, lineBreak: Option<nat>)
    requires Play(maxWidth, ops, Running(doc, cells, lineBreak)).Stopped?
    ensures var r := Play(maxWidth, ops, Running(doc, cells, lineBreak));
      && r.lineBreak == Some(|r.doc|)
      && |doc| <= |r.doc| <= |doc| + Breaks(ops)
      && (lineBreak.Some? ==> |r.doc| > lineBreak.value)
    decreases |ops|
  {
    var s := Step(maxWidth, Running(doc, cells, lineBreak), ops[0]);
    if s.Stopped? {
      PlayStopped(maxWidth, ops[1..], s);
    } else {
      PlayAbort(maxWidth, ops[1..], s.doc, s.cells, lineBreak);
    }
  }

  /**
   * A line wider than the budget can only be one that `line_break` lets
   * through: its position (counting from 1) is at most `line_break`.
   */
  ghost predicate Tolerated(maxWidth: Option<int>, doc: Document, lineBreak: Option<nat>)
  {
    forall i :: 0 <= i < |doc| && |doc[i]| > 0 && maxWidth.Some? && EffectiveWidth(doc[i]) > maxWidth.value
      ==> lineBreak.Some? && i < lineBreak.value
  }

  lemma {:induction false} PlayKeepsTolerated(maxWidth: Option<int>, ops: seq<Op>, doc: Document, cells: int, lineBreak: Option<nat>)
    requires Tolerated(maxWidth, doc, lineBreak) && Counted(Running(doc, cells, lineBreak))
    requires Play(maxWidth, ops, Running(doc, cells, lineBreak)).Running?
    ensures Tolerated(maxWidth, Play(maxWidth, ops, Running(doc, cells, lineBreak)).doc, lineBreak)
    decreases |ops|
  {
    if ops != [] {
      var s := Step(maxWidth, Running(doc, cells, lineBreak), ops[0]);
      StepCounted(maxWidth, Running(doc, cells, lineBreak), ops[0]);
      if s.Stopped? {
        PlayStopped(maxWidth, ops[1..], s);
      } else {
        assert s.lineBreak == lineBreak;
        assert Tolerated(maxWidth, s.doc, lineBreak) by {
          if ops[0].Put? {
            var d := s.doc;
            forall i | 0 <= i < |d| && |d[i]| > 0 && maxWidth.Some? && EffectiveWidth(d[i]) > maxWidth.value
              ensures lineBreak.Some? && i < lineBreak.value
            {
              if i < |d| - 1 {
                assert d[i] == doc[i];
              }
            }
          } else {
            var d := s.doc;
            assert d == doc + [[]];
            forall i | 0 <= i < |d| && |d[i]| > 0 && maxWidth.Some? && EffectiveWidth(d[i]) > maxWidth.value
              ensures lineBreak.Some? && i < lineBreak.value
            {
              assert d[i] == doc[i];
            }
          }
        }
        PlayKeepsTolerated(maxWidth, ops[1..], s.doc, s.cells, lineBreak);
      }
    }
  }
}
