/** Concrete traces of the model on small object graphs, each proved as a lemma. */
module Examples {
  import opened Wrappers
  import opened Strings
  import opened Values
  import opened Layout
  import opened LayoutFacts
  import opened Lines
  import opened Budget
  import opened Retry

  /** `L = [1]; L.append(L)`: object 0 is the list, object 1 the integer. */
  function CycleHeap(): Heap
  {
    map[0 := Node(Exactly(List), Returns("[1, [...]]"), [Item(1), Item(0)]),
        1 := Node(OtherType, Returns("1"), [])]
  }

  lemma CycleHeapWellFormed()
    ensures WellFormed(CycleHeap())
  {
  }

  /** The one-line rendering of the list: the inner occurrence becomes `...`. */
  lemma CycleInline()
    ensures WellFormed(CycleHeap())
    ensures InlineRepr(CycleHeap(), 0, {}) == "[1, ...]"
  {
    var h := CycleHeap();
    CycleHeapWellFormed();
    assert InlineEntry(h, 0, {}, 1) == "...";
    assert InlineEntries(h, 0, {}, 1) == ["..."];
    assert InlineEntries(h, 0, {}, 0) == ["1", "..."];
    assert JoinWith(", ", ["1", "..."]) == "1, ...";
  }

  /** The list that contains itself is written `...` where it recurs, not `[...]` as `repr` has it. */
  lemma CycleRendersEllipsis()
    ensures WellFormed(CycleHeap())
    ensures PrettyText(CycleHeap(), 4, None, 0) == "[1, ...]"
  {
    CycleInline();
  }

  /** `x = [1]; y = [x, x]`: object 0 is `y`, 1 is `x`, 2 the integer. */
  function SharedHeap(): Heap
  {
    map[0 := Node(Exactly(List), Returns("[[1], [1]]"), [Item(1), Item(1)]),
        1 := Node(Exactly(List), Returns("[1]"), [Item(2)]),
        2 := Node(OtherType, Returns("1"), [])]
  }

  lemma SharedHeapWellFormed()
    ensures WellFormed(SharedHeap())
  {
  }

  /** `x` is written in full a second time: it is only marked while its own entries are walked. */
  lemma SharedInline(h: Heap)
    requires h == SharedHeap()
    ensures WellFormed(h)
    ensures InlineRepr(h, 0, {}) == "[[1], [1]]"
  {
    SharedHeapWellFormed();
    assert InlineEntries(h, 1, {0}, 0) == ["1"];
    assert InlineRepr(h, 1, {0}) == "[1]";
    var none: set<Id> := {};
    assert none + {0} == {0};
    assert InlineEntry(h, 0, {}, 0) == "[1]";
    assert InlineEntry(h, 0, {}, 1) == "[1]";
    assert InlineEntries(h, 0, {}, 1) == ["[1]"];
    assert InlineEntries(h, 0, {}, 0) == ["[1]", "[1]"];
    assert JoinWith(", ", ["[1]", "[1]"]) == "[1], [1]";
  }

  /**
   * A list shared by two entries of another, with no cycle, is rendered in
   * full both times: `visited_set` holds the ids on the path down, not every
   * id seen so far.
   */
  lemma SharedRendersInFull()
    ensures WellFormed(SharedHeap())
    ensures PrettyText(SharedHeap(), 4, None, 0) == "[[1], [1]]"
  {
    SharedInline(SharedHeap());
  }

  /** `{'a': 1, 'b': 2}`: object 0 is the dict, 1 to 4 its keys and values. */
  function DictHeap(): Heap
  {
    map[0 := Node(Exactly(Dict), Returns("{'a': 1, 'b': 2}"), [Pair(1, 2), Pair(3, 4)]),
        1 := Node(OtherType, Returns("'a'"), []),
        2 := Node(OtherType, Returns("1"), []),
        3 := Node(OtherType, Returns("'b'"), []),
        4 := Node(OtherType, Returns("2"), [])]
  }

  lemma DictHeapWellFormed()
    ensures WellFormed(DictHeap())
  {
  }

  /** The calls at `expand_level = 0`: everything on one line. */
  lemma InlineOps()
    ensures WellFormed(DictHeap())
    ensures Emit(Style(DictHeap(), 4, 0), 0, 0, {}) ==
      [Put("{", 0), Put("'a'", 0), Put(": ", 0), Put("1", 1), Put(", ", 0),
       Put("'b'", 0), Put(": ", 0), Put("2", 1), Put("}", 0)]
  {
    DictHeapWellFormed();
  }

  /** The calls for the first entry when the dict is expanded. */
  function FirstEntryOps(): seq<Op>
  {
    [Break, Put("    ", 0), Put("'a'", 0), Put(": ", 0), Put("1", 1), Put(", ", 0)]
  }

  /** The calls for the last entry: no separator after it. */
  function SecondEntryOps(): seq<Op>
  {
    [Break, Put("    ", 0), Put("'b'", 0), Put(": ", 0), Put("2", 1)]
  }

  /** The closing brace on a line of its own, at indentation 0. */
  function CloseOps(): seq<Op>
  {
    [Break, Put("}", 0)]
  }

  /** The calls at any `expand_level` from 1 on: the dict is expanded, its values are leaves. */
  lemma ExpandedOps(k: nat)
    requires k >= 1
    ensures WellFormed(DictHeap())
    ensures Emit(Style(DictHeap(), 4, k), 0, 0, {}) == [Put("{", 0)] + FirstEntryOps() + SecondEntryOps() + CloseOps()
  {
    DictHeapWellFormed();
    var st := Style(DictHeap(), 4, k);
    assert Indent(4, 1) == "    ";
    assert Indent(4, 0) + "}" == "}";
    assert EntryOps(st, 0, 0, {}, 0) == FirstEntryOps();
    assert EntryOps(st, 0, 0, {}, 1) == SecondEntryOps();
    assert EntriesFrom(st, 0, 0, {}, 1) == SecondEntryOps();
    assert EntriesFrom(st, 0, 0, {}, 0) == FirstEntryOps() + SecondEntryOps();
    assert Closing(st, Dict, 0) == CloseOps();
  }

  /** What `Play` decides from: whether it runs, the number of lines, the counter and `line_break`. */
  datatype Shape = Shape(running: bool, lines: nat, cells: int, lineBreak: Option<nat>)

  /** The shape of a state; a stopped state is counted with a zero counter. */
  function ShapeOf(s: Run): Shape
  {
    match s
    case Running(doc, cells, lb) => Shape(true, |doc|, cells, lb)
    case Stopped(_, doc, lb) => Shape(false, |doc|, 0, lb)
  }

  /** `Step` on a running state, with the fragments forgotten. */
  function StepShape(maxWidth: Option<int>, s: Shape, op: Op): Shape
  {
    match op
    case Break => Shape(true, s.lines + 1, 0, s.lineBreak)
    case Put(text, _) =>
      if maxWidth.Some? && WidthAfter(s.cells, text) > maxWidth.value then
        if s.lineBreak.Some? && s.lines <= s.lineBreak.value then Shape(true, s.lines, s.cells + CellLen(text), s.lineBreak)
        else Shape(false, s.lines, 0, Some(s.lines))
      else Shape(true, s.lines, s.cells + CellLen(text), s.lineBreak)
  }

  /** `Play` with the fragments forgotten. */
  function PlayShape(maxWidth: Option<int>, ops: seq<Op>, s: Shape): Shape
  {
    if ops == [] || !s.running then s
    else PlayShape(maxWidth, ops[1..], StepShape(maxWidth, s, ops[0]))
  }

  /** The fragments play no part in whether, and where, an attempt aborts. */
  lemma {:induction false} ShapeOfPlay(maxWidth: Option<int>, ops: seq<Op>, s: Run)
    ensures ShapeOf(Play(maxWidth, ops, s)) == PlayShape(maxWidth, ops, ShapeOf(s))
    decreases |ops|
  {
    if ops != [] {
      if s.Stopped? {
        PlayStopped(maxWidth, ops, s);
      } else {
        ShapeOfPlay(maxWidth, ops[1..], Step(maxWidth, s, ops[0]));
      }
    }
  }

  /** Whether an attempt aborts, and the `line_break` it leaves, can be read off its shape. */
  lemma ShapeDecides(maxWidth: Option<int>, ops: seq<Op>, s: Run, sh: Shape)
    requires PlayShape(maxWidth, ops, ShapeOf(s)) == sh
    ensures Play(maxWidth, ops, s).Running? == sh.running
    ensures Play(maxWidth, ops, s).lineBreak == sh.lineBreak
  {
    ShapeOfPlay(maxWidth, ops, s);
  }

  /** Playing two call sequences one after another. */
  lemma {:induction false} PlayShapeAppend(maxWidth: Option<int>, a: seq<Op>, b: seq<Op>, s: Shape)
    ensures PlayShape(maxWidth, a + b, s) == PlayShape(maxWidth, b, PlayShape(maxWidth, a, s))
    decreases |a|
  {
    if a == [] {
      assert a + b == b;
    } else if s.running {
      assert (a + b)[0] == a[0];
      assert (a + b)[1..] == a[1..] + b;
      PlayShapeAppend(maxWidth, a[1..], b, StepShape(maxWidth, s, a[0]));
    }
  }

  /** At width 5 the one-line attempt aborts on the first line, at `1`. */
  lemma InlineShape()
    ensures PlayShape(Some(5), [Put("{", 0), Put("'a'", 0), Put(": ", 0), Put("1", 1), Put(", ", 0),
       Put("'b'", 0), Put(": ", 0), Put("2", 1), Put("}", 0)], Shape(true, 1, 0, None)) == Shape(false, 1, 0, Some(1))
  {
    var ops := [Put("{", 0), Put("'a'", 0), Put(": ", 0), Put("1", 1), Put(", ", 0),
       Put("'b'", 0), Put(": ", 0), Put("2", 1), Put("}", 0)];
    assert PlayShape(Some(5), ops[0..], Shape(true, 1, 0, None)) == PlayShape(Some(5), ops[1..], Shape(true, 1, 1, None));
    assert PlayShape(Some(5), ops[1..], Shape(true, 1, 1, None)) == PlayShape(Some(5), ops[2..], Shape(true, 1, 4, None));
    assert PlayShape(Some(5), ops[2..], Shape(true, 1, 4, None)) == PlayShape(Some(5), ops[3..], Shape(true, 1, 6, None));
    assert PlayShape(Some(5), ops[3..], Shape(true, 1, 6, None)) == PlayShape(Some(5), ops[4..], Shape(false, 1, 0, Some(1)));
    assert ops[0..] == ops;
  }

  /** The opening brace fits. */
  lemma OpenShape(lb: nat)
    ensures PlayShape(Some(5), [Put("{", 0)], Shape(true, 1, 0, Some(lb))) == Shape(true, 1, 1, Some(lb))
  {
    assert [Put("{", 0)][1..] == [];
  }

  /** The line `    'a': 1, ` is 11 cells wide: it aborts unless it lies within the first `line_break` lines. */
  lemma FirstEntryShape(lb: nat)
    ensures PlayShape(Some(5), FirstEntryOps(), Shape(true, 1, 1, Some(lb)))
      == if lb < 2 then Shape(false, 2, 0, Some(2)) else Shape(true, 2, 12, Some(lb))
  {
    var ops := FirstEntryOps();
    assert PlayShape(Some(5), ops[0..], Shape(true, 1, 1, Some(lb))) == PlayShape(Some(5), ops[1..], Shape(true, 2, 0, Some(lb)));
    assert PlayShape(Some(5), ops[1..], Shape(true, 2, 0, Some(lb))) == PlayShape(Some(5), ops[2..], Shape(true, 2, 4, Some(lb)));
    if lb < 2 {
      assert PlayShape(Some(5), ops[2..], Shape(true, 2, 4, Some(lb))) == PlayShape(Some(5), ops[3..], Shape(false, 2, 0, Some(2)));
    } else {
      assert PlayShape(Some(5), ops[2..], Shape(true, 2, 4, Some(lb))) == PlayShape(Some(5), ops[3..], Shape(true, 2, 7, Some(lb)));
      assert PlayShape(Some(5), ops[3..], Shape(true, 2, 7, Some(lb))) == PlayShape(Some(5), ops[4..], Shape(true, 2, 9, Some(lb)));
      assert PlayShape(Some(5), ops[4..], Shape(true, 2, 9, Some(lb))) == PlayShape(Some(5), ops[5..], Shape(true, 2, 10, Some(lb)));
      assert PlayShape(Some(5), ops[5..], Shape(true, 2, 10, Some(lb))) == PlayShape(Some(5), ops[6..], Shape(true, 2, 12, Some(lb)));
    }
    assert ops[0..] == ops;
  }

  /** Likewise `    'b': 2` on the third line. */
  lemma SecondEntryShape(lb: nat)
    requires lb >= 2
    ensures PlayShape(Some(5), SecondEntryOps(), Shape(true, 2, 12, Some(lb)))
      == if lb < 3 then Shape(false, 3, 0, Some(3)) else Shape(true, 3, 10, Some(lb))
  {
    var ops := SecondEntryOps();
    assert PlayShape(Some(5), ops[0..], Shape(true, 2, 12, Some(lb))) == PlayShape(Some(5), ops[1..], Shape(true, 3, 0, Some(lb)));
    assert PlayShape(Some(5), ops[1..], Shape(true, 3, 0, Some(lb))) == PlayShape(Some(5), ops[2..], Shape(true, 3, 4, Some(lb)));
    if lb < 3 {
      assert PlayShape(Some(5), ops[2..], Shape(true, 3, 4, Some(lb))) == PlayShape(Some(5), ops[3..], Shape(false, 3, 0, Some(3)));
    } else {
      assert PlayShape(Some(5), ops[2..], Shape(true, 3, 4, Some(lb))) == PlayShape(Some(5), ops[3..], Shape(true, 3, 7, Some(lb)));
      assert PlayShape(Some(5), ops[3..], Shape(true, 3, 7, Some(lb))) == PlayShape(Some(5), ops[4..], Shape(true, 3, 9, Some(lb)));
      assert PlayShape(Some(5), ops[4..], Shape(true, 3, 9, Some(lb))) == PlayShape(Some(5), ops[5..], Shape(true, 3, 10, Some(lb)));
    }
    assert ops[0..] == ops;
  }

  /** The closing brace on a fourth line fits. */
  lemma CloseShape(lb: nat)
    ensures PlayShape(Some(5), CloseOps(), Shape(true, 3, 10, Some(lb))) == Shape(true, 4, 1, Some(lb))
  {
    var ops := CloseOps();
    assert PlayShape(Some(5), ops[0..], Shape(true, 3, 10, Some(lb))) == PlayShape(Some(5), ops[1..], Shape(true, 4, 0, Some(lb)));
    assert PlayShape(Some(5), ops[1..], Shape(true, 4, 0, Some(lb))) == PlayShape(Some(5), ops[2..], Shape(true, 4, 1, Some(lb)));
    assert ops[0..] == ops;
  }

  /** The attempt at `expand_level = 0` aborts and sets `line_break` to 1. */
  lemma FirstAttempt(h: Heap)
    requires h == DictHeap()
    ensures WellFormed(h)
    ensures var a := Attempt(h, 4, Some(5), 0, 0, None); a.Stopped? && a.lineBreak == Some(1)
  {
    InlineOps();
    InlineShape();
    ShapeOfPlay(Some(5), Emit(Style(h, 4, 0), 0, 0, {}), Running([[]], 0, None));
  }

  /** The expanded attempt at `line_break = k`, for `k` from 1 to 3. */
  lemma ExpandedShape(k: nat)
    requires 1 <= k <= 3
    ensures PlayShape(Some(5), [Put("{", 0)] + FirstEntryOps() + SecondEntryOps() + CloseOps(), Shape(true, 1, 0, Some(k)))
      == if k == 1 then Shape(false, 2, 0, Some(2)) else if k == 2 then Shape(false, 3, 0, Some(3)) else Shape(true, 4, 1, Some(3))
  {
    var front := [Put("{", 0)] + FirstEntryOps();
    var s0 := Shape(true, 1, 0, Some(k));
    PlayShapeAppend(Some(5), front + SecondEntryOps(), CloseOps(), s0);
    PlayShapeAppend(Some(5), front, SecondEntryOps(), s0);
    PlayShapeAppend(Some(5), [Put("{", 0)], FirstEntryOps(), s0);
    OpenShape(k);
    FirstEntryShape(k);
    if k >= 2 {
      SecondEntryShape(k);
      if k == 3 {
        CloseShape(k);
      }
    }
  }

  /**
   * The attempt at `expand_level = k` starts with `line_break = k`: for 1 and
   * 2 it aborts one line further down each time; at 3 it goes through.
   */
  lemma ExpandedAttempt(h: Heap, k: nat)
    requires h == DictHeap() && 1 <= k <= 3
    ensures WellFormed(h)
    ensures var a := Attempt(h, 4, Some(5), 0, k, Some(k));
      && (k < 3 ==> a.Stopped? && a.lineBreak == Some(k + 1))
      && (k == 3 ==> a.Running? && a.lineBreak == Some(3))
  {
    ExpandedOps(k);
    ExpandedShape(k);
    var sh := if k == 1 then Shape(false, 2, 0, Some(2)) else if k == 2 then Shape(false, 3, 0, Some(3)) else Shape(true, 4, 1, Some(3));
    ShapeDecides(Some(5), Emit(Style(h, 4, k), 0, 0, {}), Running([[]], 0, Some(k)), sh);
  }

  /** A new line followed by calls that do not break it: one more line, holding what they write. */
  lemma BrokenLine(rest: seq<Op>, doc: Document)
    requires Breaks(rest) == 0
    ensures LineTexts(Apply([Break] + rest, doc)) == LineTexts(doc) + [Texts(rest)]
  {
    assert ([Break] + rest)[1..] == rest;
    var d: Document := doc + [[]];
    assert Apply([Break] + rest, doc) == Apply(rest, d);
    ApplyNoBreaks(rest, d);
    var r := Apply(rest, d);
    var n := |doc|;
    assert |r| == n + 1;
    assert r[..n] == d[..n] == doc;
    assert Concat(r[n]) == Texts(rest) by {
      assert Concat(d[n]) == "";
    }
    assert LineTexts(r) == LineTexts(r[..n]) + [Concat(r[n])];
  }

  /** What the first entry line holds. */
  lemma FirstEntryText()
    ensures Breaks(FirstEntryOps()[1..]) == 0 && Texts(FirstEntryOps()[1..]) == "    'a': 1, "
  {
    var a := FirstEntryOps();
    assert Texts(a[5..]) == ", " && Breaks(a[5..]) == 0;
    assert Texts(a[4..]) == "1, " && Breaks(a[4..]) == 0;
    assert Texts(a[3..]) == ": 1, " && Breaks(a[3..]) == 0;
    assert Texts(a[2..]) == "'a': 1, " && Breaks(a[2..]) == 0;
  }

  /** What the second entry line holds. */
  lemma SecondEntryText()
    ensures Breaks(SecondEntryOps()[1..]) == 0 && Texts(SecondEntryOps()[1..]) == "    'b': 2"
  {
    var b := SecondEntryOps();
    assert Texts(b[4..]) == "2" && Breaks(b[4..]) == 0;
    assert Texts(b[3..]) == ": 2" && Breaks(b[3..]) == 0;
    assert Texts(b[2..]) == "'b': 2" && Breaks(b[2..]) == 0;
  }

  /** The first line holds the opening brace. */
  lemma OpenLine(doc: Document, open: seq<Op>)
    requires doc == [[]] && open == [Put("{", 0)]
    ensures LineTexts(Apply(open, doc)) == ["{"]
  {
    var d0 := Apply(open, doc);
    ShortOps("{", "", 0, doc);
    ApplyNoBreaks(open, doc);
    assert Concat(doc[0]) == "";
    assert LineTexts(d0) == LineTexts(d0[..0]) + [Concat(d0[0])];
  }

  /** A brace line, two entry lines, a brace line. */
  lemma LinesOf(doc: Document, open: seq<Op>, first: seq<Op>, second: seq<Op>, close: seq<Op>)
    requires doc == [[]] && open == [Put("{", 0)] && close == [Put("}", 0)]
    requires Breaks(first) == 0 && Texts(first) == "    'a': 1, "
    requires Breaks(second) == 0 && Texts(second) == "    'b': 2"
    ensures LineTexts(Apply(open + ([Break] + first) + ([Break] + second) + ([Break] + close), doc))
      == ["{", "    'a': 1, ", "    'b': 2", "}"]
  {
    var a, b, c := open + ([Break] + first), open + ([Break] + first) + ([Break] + second), [Break] + close;
    ApplyAppend(b, c, doc);
    ApplyAppend(a, [Break] + second, doc);
    ApplyAppend(open, [Break] + first, doc);
    OpenLine(doc, open);
    var d0 := Apply(open, doc);
    BrokenLine(first, d0);
    var d1 := Apply([Break] + first, d0);
    assert d1 == Apply(a, doc) && LineTexts(d1) == ["{", "    'a': 1, "];
    BrokenLine(second, d1);
    var d2 := Apply([Break] + second, d1);
    assert d2 == Apply(b, doc) && LineTexts(d2) == ["{", "    'a': 1, ", "    'b': 2"];
    ShortOps("}", "", 0, d2);
    BrokenLine(close, d2);
    assert LineTexts(Apply(c, d2)) == LineTexts(d2) + ["}"];
  }

  /** The lines the expanded attempt writes. */
  lemma ExpandedLines(ops: seq<Op>)
    requires ops == [Put("{", 0)] + FirstEntryOps() + SecondEntryOps() + CloseOps()
    ensures LineTexts(Apply(ops, [[]])) == ["{", "    'a': 1, ", "    'b': 2", "}"]
  {
    FirstEntryText();
    SecondEntryText();
    ShortOps("}", "", 0, [[]]);
    LinesOf([[]], [Put("{", 0)], FirstEntryOps()[1..], SecondEntryOps()[1..], [Put("}", 0)]);
    assert FirstEntryOps() == [Break] + FirstEntryOps()[1..];
    assert SecondEntryOps() == [Break] + SecondEntryOps()[1..];
    assert CloseOps() == [Break] + [Put("}", 0)];
  }

  /** The first three attempts abort; the loop goes on to `expand_level = 3` with `line_break = 3`. */
  lemma ThreeAborts(h: Heap)
    requires h == DictHeap()
    ensures WellFormed(h) && LineBound(h, 0, {}) >= 3
    ensures PrettyLines(h, 4, Some(5), 0) == RetryFrom(h, 4, Some(5), 0, 3, Some(3))
  {
    DictHeapWellFormed();
    assert LineBound(h, 0, {}) >= 3;
    FirstAttempt(h);
    ExpandedAttempt(h, 1);
    ExpandedAttempt(h, 2);
    assert RetryFrom(h, 4, Some(5), 0, 0, None) == RetryFrom(h, 4, Some(5), 0, 1, Some(1));
    assert RetryFrom(h, 4, Some(5), 0, 1, Some(1)) == RetryFrom(h, 4, Some(5), 0, 2, Some(2));
    assert RetryFrom(h, 4, Some(5), 0, 2, Some(2)) == RetryFrom(h, 4, Some(5), 0, 3, Some(3));
  }

  /** The fourth attempt goes through, with the dict on four lines. */
  lemma LastAttempt(h: Heap)
    requires h == DictHeap()
    ensures WellFormed(h) && LineBound(h, 0, {}) >= 3
    ensures var r := RetryFrom(h, 4, Some(5), 0, 3, Some(3));
      r.expandLevel == 3 && LineTexts(r.doc) == ["{", "    'a': 1, ", "    'b': 2", "}"]
  {
    DictHeapWellFormed();
    assert LineBound(h, 0, {}) >= 3;
    ExpandedAttempt(h, 3);
    var ops := Emit(Style(h, 4, 3), 0, 0, {});
    ExpandedOps(3);
    PlayRunning(Some(5), ops, [[]], 0, Some(3));
    ExpandedLines(ops);
  }

  /**
   * At width 5 the dict `{'a': 1, 'b': 2}` takes four attempts, ending at
   * `expand_level = 3`, although it nests only one level deep: each abort
   * raises `line_break` by one line, and the hysteresis lets the over-wide
   * entry lines through.
   */
  lemma FourAttempts(h: Heap)
    requires h == DictHeap()
    ensures WellFormed(h)
    ensures PrettyLines(h, 4, Some(5), 0).expandLevel == 3
    ensures PrettyText(h, 4, Some(5), 0) == "{\n    'a': 1, \n    'b': 2\n}"
  {
    ThreeAborts(h);
    LastAttempt(h);
    JoinedLines();
  }

  /** The lines joined with new lines. */
  lemma JoinedLines()
    ensures JoinWith("\n", ["{", "    'a': 1, ", "    'b': 2", "}"]) == "{\n    'a': 1, \n    'b': 2\n}"
  {
    var t := ["{", "    'a': 1, ", "    'b': 2", "}"];
    assert JoinWith("\n", t[2..]) == "    'b': 2\n}";
    assert JoinWith("\n", t[1..]) == "    'a': 1, \n    'b': 2\n}";
  }

  /** A single string leaf, `'abcdef'`, eight cells wide. */
  function LeafHeap(): Heap
  {
    map[0 := Node(OtherType, Returns("'abcdef'"), [])]
  }

  /** Every attempt on the leaf makes the one call `append_text("'abcdef'")`. */
  lemma LeafOps(h: Heap, k: nat)
    requires h == LeafHeap()
    ensures WellFormed(h) && LineBound(h, 0, {}) == 0
    ensures Emit(Style(h, 4, k), 0, 0, {}) == [Put("'abcdef'", 0)]
  {
  }

  /** The call on a fresh line: eight cells, no trailing space. */
  lemma LeafCall(lineBreak: Option<nat>)
    ensures var s := Step(Some(5), Running([[]], 0, lineBreak), Put("'abcdef'", 0));
      if lineBreak == Some(1) then s == Running([["'abcdef'"]], 8, Some(1))
      else lineBreak == None ==> s == Stopped(0, [["'abcdef'"]], Some(1))
  {
    var empty: seq<string> := [];
    assert empty + ["'abcdef'"] == ["'abcdef'"];
    assert AppendToLast([empty], "'abcdef'") == [["'abcdef'"]];
    assert !EndsWithSpace("'abcdef'");
    assert WidthAfter(0, "'abcdef'") == 8;
  }

  /** The two attempts: the first aborts at line 1, the second goes through. */
  lemma LeafAttempts(h: Heap)
    requires h == LeafHeap()
    ensures WellFormed(h)
    ensures Attempt(h, 4, Some(5), 0, 0, None) == Stopped(0, [["'abcdef'"]], Some(1))
    ensures Attempt(h, 4, Some(5), 0, 1, Some(1)) == Running([["'abcdef'"]], 8, Some(1))
  {
    LeafOps(h, 0);
    LeafOps(h, 1);
    var op := Put("'abcdef'", 0);
    PlayCons(Some(5), op, [], Running([[]], 0, None));
    PlayCons(Some(5), op, [], Running([[]], 0, Some(1)));
    LeafCall(None);
    LeafCall(Some(1));
  }

  /**
   * A leaf wider than `max_width` takes two attempts although it makes no
   * line break: the first aborts and sets `line_break` to 1, the second lets
   * line 1 through. So the attempt count reaches the line bound plus two.
   */
  lemma WideLeafTwoAttempts(h: Heap)
    requires h == LeafHeap()
    ensures WellFormed(h) && LineBound(h, 0, {}) == 0
    ensures PrettyLines(h, 4, Some(5), 0).expandLevel == 1
    ensures PrettyText(h, 4, Some(5), 0) == "'abcdef'"
  {
    LeafOps(h, 0);
    LeafAttempts(h);
    assert PrettyLines(h, 4, Some(5), 0) == RetryFrom(h, 4, Some(5), 0, 1, Some(1));
    assert PrettyLines(h, 4, Some(5), 0) == Rendered([["'abcdef'"]], 1, Some(1));
    var line: seq<string> := ["'abcdef'"];
    assert line[..0] == [];
    assert Concat(line) == "'abcdef'";
    assert LineTexts([line]) == ["'abcdef'"];
  }
}
