/**
 * `pretty_repr` as it runs: `_Line` objects in a list, the closures
 * `to_repr_text`, `append_text` and `traverse` over the shared state
 * (`lines`, `visited_set`, `repr_cache`, `line_break`, `expand_level`), and
 * the retry loop. Every method is proved to make exactly the calls
 * `Layout.Emit` describes, under the budget `Budget.Play` applies, so the
 * loop's output is `Retry.PrettyText`.
 */
module Pretty {
  import opened Wrappers
  import opened Values
  import opened Strings
  import opened Lines
  import opened Layout
  import opened LayoutFacts
  import opened Budget
  import opened Retry
  import opened Traversal

  /** How a call returns: normally, or by raising `MaxLineReached(level)`. */
  datatype Outcome = Fits | Overflow(level: nat)

  /** `line.text` for each line object. */
  function TextsOf(ls: seq<Line>): (ts: seq<string>)
    reads ls
    ensures |ts| == |ls|
    ensures forall i :: 0 <= i < |ls| ==> ts[i] == ls[i].Text()
  {
    if ls == [] then [] else TextsOf(ls[..|ls| - 1]) + [ls[|ls| - 1].Text()]
  }

  /** The state `pretty_repr`'s nested functions share. */
  class Renderer {
    const heap: Heap
    const maxWidth: Option<int>
    const indentSize: nat
    var expandLevel: nat
    var lines: seq<Line>
    var visited: set<Id>
    var reprCache: map<Id, string>
    var lineBreak: Option<nat>
    /** The fragments of every line object, in order. */
    ghost var doc: Document
    /** The fragments of the finished lines. */
    ghost var done: seq<seq<string>>

    ghost predicate Valid()
      reads this`lines, this`doc, this`done, this`reprCache, lines
    {
      && WellFormed(heap)
      && LinesOk()
      && CacheOk()
    }

    /**
     * `doc` lists the fragments of the line objects: `done` those of the
     * finished lines, which are objects distinct from the current (last) one,
     * and the current line's own.
     */
    ghost predicate LinesOk()
      reads this`lines, this`doc, this`done, lines
    {
      && |lines| == |done| + 1
      && (forall i :: 0 <= i < |done| ==> lines[i].parts == done[i] && lines[i] != lines[|done|])
      && lines[|done|].Valid()
      && doc == done + [lines[|done|].parts]
    }

    /** Every cached text is the one `repr` gives for that object. */
    ghost predicate CacheOk()
      reads this`reprCache
    {
      forall id :: id in reprCache ==> id in heap && reprCache[id] == ReprText(heap[id].repr)
    }

    ghost function CurrentStyle(): Style
      reads this`expandLevel
    {
      Style(heap, indentSize, expandLevel)
    }

    /** The attempt's state: the lines so far, the current line's counter and `line_break`. */
    ghost function State(): Run
      requires |lines| > 0
      reads this`doc, this`lineBreak, this`lines, lines
    {
      Running(doc, lines[|lines| - 1].cells, lineBreak)
    }

    /** The state after a call that returned `r`. */
    ghost function Observed(r: Outcome): Run
      requires |lines| > 0
      reads this`doc, this`lineBreak, this`lines, lines
    {
      match r
      case Fits => State()
      case Overflow(level) => Stopped(level, doc, lineBreak)
    }

    /** The state at the start of `pretty_repr`: one empty line, nothing visited or cached. */
    constructor (heap: Heap, maxWidth: Option<int>, indentSize: nat)
      requires WellFormed(heap)
      ensures Valid()
      ensures this.heap == heap && this.maxWidth == maxWidth && this.indentSize == indentSize
      ensures expandLevel == 0 && visited == {} && reprCache == map[] && lineBreak == None
      ensures |lines| == 1 && fresh(lines[0]) && State() == Running([[]], 0, None)
    {
      var line := new Line();
      this.heap := heap;
      this.maxWidth := maxWidth;
      this.indentSize := indentSize;
      expandLevel := 0;
      lines := [line];
      visited := {};
      reprCache := map[];
      lineBreak := None;
      doc := [[]];
      done := [];
    }

    /**
     * `to_repr_text`: the text of `repr`, or the error placeholder when
     * `repr` raises; computed once per object and kept in the cache.
     */
    method ToReprText(id: Id) returns (s: string)
      requires Valid() && id in heap
      modifies this`reprCache
      ensures Valid()
      ensures s == ReprText(heap[id].repr)
      ensures heap[id].repr.Raises? ==> s == "<error in repr: " + heap[id].repr.message + ">"
      ensures id in old(reprCache) ==> reprCache == old(reprCache) && s == old(reprCache)[id]
      ensures id !in old(reprCache) ==> reprCache == old(reprCache)[id := s]
    {
      if id in reprCache {
        return reprCache[id];
      }
      match heap[id].repr {
        case Returns(text) =>
          s := text;
        case Raises(message) =>
          s := "<error in repr: " + message + ">";
      }
      reprCache := reprCache[id := s];
    }

    /** `append_line(_Line())`: a fresh empty line becomes the current line. */
    method AppendLine()
      requires Valid()
      modifies this`lines, this`doc, this`done
      ensures Valid()
      ensures State() == Step(maxWidth, old(State()), Break)
      ensures lines == old(lines) + [lines[|lines| - 1]] && fresh(lines[|lines| - 1])
    {
      var line := new Line();
      done := done + [lines[|lines| - 1].parts];
      lines := lines + [line];
      doc := doc + [[]];
    }

    /** `line = lines[-1]; line.append(text)`: the text goes on the current line. */
    method AppendToCurrentLine(text: string)
      requires Valid()
      modifies this`doc, lines[|lines| - 1]
      ensures Valid()
      ensures doc == AppendToLast(old(doc), text)
      ensures lines[|lines| - 1].cells == old(lines[|lines| - 1].cells) + CellLen(text)
      ensures lines[|lines| - 1].CellLen() == WidthAfter(old(lines[|lines| - 1].cells), text)
    {
      var line := lines[|lines| - 1];
      ghost var parts := line.parts;
      EffectiveWidthAfterAppend(parts, text);
      AppendToCurrent(done, parts, text);
      line.Append(text);
      assert forall i :: 0 <= i < |done| ==> lines[i].parts == done[i] && lines[i] != line;
      doc := AppendToLast(doc, text);
      assert doc == done + [line.parts];
    }

    /**
     * `append_text`: the text goes on the current line; if that line is now
     * wider than `max_width`, the call raises unless the line is within the
     * first `line_break` lines, and before raising it sets `line_break` to
     * the number of lines.
     */
    method AppendText(text: string, level: nat) returns (r: Outcome)
      requires Valid()
      modifies this`doc, this`lineBreak, lines[|lines| - 1]
      ensures Valid()
      ensures Observed(r) == Step(maxWidth, old(State()), Put(text, level))
    {
      var line := lines[|lines| - 1];
      AppendToCurrentLine(text);
      if maxWidth.Some? && line.CellLen() > maxWidth.value {
        if lineBreak.Some? && |lines| <= lineBreak.value {
          return Fits;
        }
        lineBreak := Some(|lines|);
        return Overflow(level);
      }
      return Fits;
    }

    /**
     * `traverse(node, level)`: makes the calls `Walk` describes for the
     * current `expand_level` and `visited_set`. On a normal return
     * `visited_set` is as it was; an abort leaves it as the exception found it.
     */
    method Traverse(id: Id, level: nat) returns (r: Outcome)
      requires Valid() && id in heap
      modifies this`doc, this`done, this`lines, this`lineBreak, this`visited, this`reprCache, lines[|lines| - 1]
      ensures Valid()
      ensures Observed(r) == Walk(maxWidth, CurrentStyle(), id, level, old(visited), old(State()))
      ensures r.Fits? ==> visited == old(visited)
      ensures lines[|lines| - 1] == old(lines[|lines| - 1]) || fresh(lines[|lines| - 1])
      decreases |heap.Keys - visited|, 1
    {
      if id in visited {
        r := AppendText("...", level);
      } else {
        r := TraverseUnseen(id, level);
      }
    }

    /** `traverse` on an object not on the way down: mark it, visit it, and unmark it again. */
    method TraverseUnseen(id: Id, level: nat) returns (r: Outcome)
      requires Valid() && id in heap && id !in visited
      modifies this`doc, this`done, this`lines, this`lineBreak, this`visited, this`reprCache, lines[|lines| - 1]
      ensures Valid()
      ensures Observed(r) == WalkNode(maxWidth, CurrentStyle(), id, level, old(visited), old(State()))
      ensures r.Fits? ==> visited == old(visited)
      ensures lines[|lines| - 1] == old(lines[|lines| - 1]) || fresh(lines[|lines| - 1])
      decreases |heap.Keys - visited|, 0
    {
      ghost var outer := visited;
      VisitShrinks(heap.Keys, outer, id);
      MarkVisited(id);
      r := TraverseNode(id, level, outer);
      if r.Fits? {
        Unmark(id);
        assert visited == outer;
      }
    }

    /** `visited_set.add(node_id)`. */
    method MarkVisited(id: Id)
      requires Valid()
      modifies this`visited
      ensures Valid() && State() == old(State())
      ensures visited == old(visited) + {id}
    {
      visited := visited + {id};
    }

    /** `visited_set.remove(node_id)`. */
    method Unmark(id: Id)
      requires Valid()
      modifies this`visited
      ensures Valid() && State() == old(State())
      ensures visited == old(visited) - {id}
    {
      visited := visited - {id};
    }

    /** `traverse` past the recursion check, with `id` already added to `visited_set`. */
    method TraverseNode(id: Id, level: nat, ghost outer: set<Id>) returns (r: Outcome)
      requires Valid() && id in heap && id !in outer && visited == outer + {id}
      modifies this`doc, this`done, this`lines, this`lineBreak, this`visited, this`reprCache, lines[|lines| - 1]
      ensures Valid()
      ensures Observed(r) == WalkNode(maxWidth, CurrentStyle(), id, level, outer, old(State()))
      ensures r.Fits? ==> visited == old(visited)
      ensures lines[|lines| - 1] == old(lines[|lines| - 1]) || fresh(lines[|lines| - 1])
      decreases |heap.Keys - visited|, 7
    {
      var node := heap[id];
      var kind := ContainerKind(node.ty);
      if kind.None? {
        var text := ToReprText(id);
        r := AppendText(text, level);
      } else if |node.entries| == 0 {
        r := AppendText(BracesOf(kind.value).empty, level);
      } else {
        r := TraverseContainer(id, level, kind.value, outer);
      }
    }

    /** The body of `traverse` for a non-empty container: open token, the entries, close token. */
    method TraverseContainer(id: Id, level: nat, k: Kind, ghost outer: set<Id>) returns (r: Outcome)
      requires Valid() && id in heap && id !in outer && visited == outer + {id}
      requires ContainerKind(heap[id].ty) == Some(k) && |heap[id].entries| > 0
      modifies this`doc, this`done, this`lines, this`lineBreak, this`visited, this`reprCache, lines[|lines| - 1]
      ensures Valid()
      ensures Observed(r) == WalkNode(maxWidth, CurrentStyle(), id, level, outer, old(State()))
      ensures r.Fits? ==> visited == old(visited)
      ensures lines[|lines| - 1] == old(lines[|lines| - 1]) || fresh(lines[|lines| - 1])
      decreases |heap.Keys - visited|, 6
    {
      ContainerSteps(maxWidth, CurrentStyle(), id, level, outer, k, State());
      r := AppendText(BracesOf(k).open, level);
      if r.Fits? {
        r := TraverseBody(id, level, k, outer);
      }
    }

    /** After the open token: the entries, then the close token unless an entry aborted. */
    method TraverseBody(id: Id, level: nat, k: Kind, ghost outer: set<Id>) returns (r: Outcome)
      requires Valid() && id in heap && id !in outer && visited == outer + {id}
      modifies this`doc, this`done, this`lines, this`lineBreak, this`visited, this`reprCache, lines[|lines| - 1]
      ensures Valid()
      ensures Observed(r) == WalkClose(maxWidth, CurrentStyle(), k, level, WalkEntries(maxWidth, CurrentStyle(), id, level, outer, 0, old(State())))
      ensures r.Fits? ==> visited == old(visited)
      ensures lines[|lines| - 1] == old(lines[|lines| - 1]) || fresh(lines[|lines| - 1])
      decreases |heap.Keys - visited|, 5
    {
      r := TraverseEntries(id, level, outer);
      if r.Fits? {
        r := TraverseClose(k, level);
      } else {
        CloseAfterAbort(maxWidth, CurrentStyle(), k, level, Observed(r));
      }
    }

    /** The `for` loop over the entries of a non-empty container, in order. */
    method TraverseEntries(id: Id, level: nat, ghost outer: set<Id>) returns (r: Outcome)
      requires Valid() && id in heap && id !in outer && visited == outer + {id}
      modifies this`doc, this`done, this`lines, this`lineBreak, this`visited, this`reprCache, lines[|lines| - 1]
      ensures Valid()
      ensures Observed(r) == WalkEntries(maxWidth, CurrentStyle(), id, level, outer, 0, old(State()))
      ensures r.Fits? ==> visited == old(visited)
      ensures lines[|lines| - 1] == old(lines[|lines| - 1]) || fresh(lines[|lines| - 1])
      decreases |heap.Keys - visited|, 4
    {
      ghost var started := State();
      var n := |heap[id].entries|;
      var i := 0;
      r := Fits;
      while i < n
        invariant 0 <= i <= n && r.Fits?
        invariant Valid() && visited == outer + {id}
        invariant lines[|lines| - 1] == old(lines[|lines| - 1]) || fresh(lines[|lines| - 1])
        invariant WalkEntries(maxWidth, CurrentStyle(), id, level, outer, 0, started) == WalkEntries(maxWidth, CurrentStyle(), id, level, outer, i, State())
      {
        r := TraverseEntry(id, level, i, outer);
        if r.Overflow? {
          return;
        }
        i := i + 1;
      }
    }

    /**
     * One pass of the `for` loop over a container: the head, the key and
     * `": "` for a dict, the value traversed one level deeper, and `", "`
     * unless it is the last entry (`loop_last`).
     */
    method TraverseEntry(id: Id, level: nat, i: nat, ghost outer: set<Id>) returns (r: Outcome)
      requires Valid() && id in heap && id !in outer && visited == outer + {id}
      requires i < |heap[id].entries|
      modifies this`doc, this`done, this`lines, this`lineBreak, this`visited, this`reprCache, lines[|lines| - 1]
      ensures Valid()
      ensures Observed(r) == WalkEntry(maxWidth, CurrentStyle(), id, level, outer, i, old(State()))
      ensures r.Fits? ==> visited == old(visited)
      ensures lines[|lines| - 1] == old(lines[|lines| - 1]) || fresh(lines[|lines| - 1])
      decreases |heap.Keys - visited|, 3
    {
      ghost var st := CurrentStyle();
      ghost var valued := WalkValue(maxWidth, st, id, level, outer, i, State());
      r := EntryValue(id, level, i, outer);
      if r.Overflow? {
        assert WalkSep(maxWidth, i == |heap[id].entries| - 1, level, valued) == valued;
        return;
      }
      if i != |heap[id].entries| - 1 {
        r := AppendText(", ", level);
      }
    }

    /** A loop pass up to its separator: the head, the key for a dict, and the value one level deeper. */
    method EntryValue(id: Id, level: nat, i: nat, ghost outer: set<Id>) returns (r: Outcome)
      requires Valid() && id in heap && id !in outer && visited == outer + {id}
      requires i < |heap[id].entries|
      modifies this`doc, this`done, this`lines, this`lineBreak, this`visited, this`reprCache, lines[|lines| - 1]
      ensures Valid()
      ensures Observed(r) == WalkValue(maxWidth, CurrentStyle(), id, level, outer, i, old(State()))
      ensures r.Fits? ==> visited == old(visited)
      ensures lines[|lines| - 1] == old(lines[|lines| - 1]) || fresh(lines[|lines| - 1])
      decreases |heap.Keys - visited|, 2
    {
      var e := heap[id].entries[i];
      assert EntryOk(heap, heap[id].ty, e);
      ghost var prefixed := WalkPrefix(maxWidth, CurrentStyle(), e, level, State());
      r := EntryPrefix(e, level);
      if r.Overflow? {
        assert Walk(maxWidth, CurrentStyle(), e.value, level + 1, outer + {id}, prefixed) == prefixed;
        return;
      }
      r := Traverse(e.value, level + 1);
    }


    /** Everything a loop pass emits before the value: the head and, for a dict, the key and `": "`. */
    method EntryPrefix(e: Entry, level: nat) returns (r: Outcome)
      requires Valid() && (e.Pair? ==> e.key in heap)
      modifies this`doc, this`done, this`lines, this`lineBreak, this`reprCache, lines[|lines| - 1]
      ensures Valid()
      ensures Observed(r) == WalkPrefix(maxWidth, CurrentStyle(), e, level, old(State()))
      ensures lines[|lines| - 1] == old(lines[|lines| - 1]) || fresh(lines[|lines| - 1])
    {
      r := EntryHead(level);
      if r.Fits? && e.Pair? {
        r := EntryKey(e.key, level);
      }
    }

    /** `if expanded: append_line(_Line()); append_text(indent * (level + 1))`. */
    method EntryHead(level: nat) returns (r: Outcome)
      requires Valid()
      modifies this`doc, this`done, this`lines, this`lineBreak, lines[|lines| - 1]
      ensures Valid()
      ensures Observed(r) == WalkHead(maxWidth, CurrentStyle(), level, old(State()))
      ensures lines[|lines| - 1] == old(lines[|lines| - 1]) || fresh(lines[|lines| - 1])
    {
      r := Fits;
      if level < expandLevel {
        AppendLine();
        r := AppendText(Indent(indentSize, level + 1), level);
      }
    }

    /** `append_text(to_repr_text(key)); append_text(colon)`. */
    method EntryKey(key: Id, level: nat) returns (r: Outcome)
      requires Valid() && key in heap
      modifies this`doc, this`lineBreak, this`reprCache, lines[|lines| - 1]
      ensures Valid()
      ensures Observed(r) == WalkKey(maxWidth, heap, key, level, old(State()))
    {
      var text := ToReprText(key);
      r := AppendText(text, level);
      if r.Overflow? {
        return;
      }
      r := AppendText(": ", level);
    }

    /** The closing token: on a new line indented to `level` when expanded. */
    method TraverseClose(k: Kind, level: nat) returns (r: Outcome)
      requires Valid()
      modifies this`doc, this`done, this`lines, this`lineBreak, lines[|lines| - 1]
      ensures Valid()
      ensures Observed(r) == WalkClose(maxWidth, CurrentStyle(), k, level, old(State()))
      ensures lines[|lines| - 1] == old(lines[|lines| - 1]) || fresh(lines[|lines| - 1])
    {
      if level < expandLevel {
        AppendLine();
        r := AppendText(Indent(indentSize, level) + BracesOf(k).close, level);
      } else {
        r := AppendText(BracesOf(k).close, level);
      }
    }

    /** The state every attempt starts from: one empty line, nothing visited. */
    ghost predicate Restarted()
      reads this`lines, this`doc, this`done, this`reprCache, this`visited, this`lineBreak, lines
    {
      Valid() && visited == {} && |lines| == 1 && State() == Running([[]], 0, lineBreak)
    }

    /**
     * The body of the `while True` loop: `traverse(_object)`, and when it
     * raises `MaxLineReached`, the reset for the next attempt.
     */
    method TryTraverse(root: Id) returns (finished: bool)
      requires Restarted() && root in heap
      modifies this, lines[0]
      ensures Valid() && |lines| > 0
      ensures var a := Walk(maxWidth, old(CurrentStyle()), root, 0, {}, Running([[]], 0, old(lineBreak)));
        && (finished <==> a.Running?)
        && (finished ==> doc == a.doc && expandLevel == old(expandLevel))
        && (!finished ==> Restarted() && fresh(lines[0]) && expandLevel == old(expandLevel) + 1)
        && lineBreak == a.lineBreak
    {
      var r := Traverse(root, 0);
      finished := r.Fits?;
      if !finished {
        Restart();
      }
    }

    /**
     * The `except MaxLineReached` branch: the lines are dropped, the visited
     * set is cleared, one empty line is started and the next attempt expands
     * one level deeper. The repr cache and `line_break` are kept.
     */
    method Restart()
      requires Valid()
      modifies this
      ensures Valid()
      ensures |lines| == 1 && fresh(lines[0]) && State() == Running([[]], 0, lineBreak)
      ensures visited == {} && expandLevel == old(expandLevel) + 1
      ensures reprCache == old(reprCache) && lineBreak == old(lineBreak)
    {
      lines := [];
      visited := {};
      var line := new Line();
      lines := lines + [line];
      doc := [[]];
      done := [];
      expandLevel := expandLevel + 1;
    }

    /** `"\n".join(line.text for line in lines)`. */
    function Text(): (t: string)
      requires Valid()
      reads this`lines, this`doc, this`done, this`reprCache, lines
      ensures t == JoinWith("\n", LineTexts(doc))
    {
      assert TextsOf(lines) == LineTexts(doc);
      JoinWith("\n", TextsOf(lines))
    }
  }

  /** Appending to the last line of `done + [parts]` only touches `parts`. */
  lemma AppendToCurrent(done: seq<seq<string>>, parts: seq<string>, text: string)
    ensures AppendToLast(done + [parts], text) == done + [parts + [text]]
  {
  }

  /** A pass of the loop in `PrettyRepr` that goes through leaves it with the loop's lines. */
  lemma LoopFinishes(heap: Heap, indentSize: nat, maxWidth: Option<int>, root: Id, level: nat, lineBreak: Option<nat>,
                     finished: bool, lineBreak': Option<nat>, doc: Document, goal: Rendered)
    requires WellFormed(heap) && root in heap
    requires Height(lineBreak) <= LineBound(heap, root, {}) + 1
    requires RetryFrom(heap, indentSize, maxWidth, root, level, lineBreak) == goal
    requires var a := Walk(maxWidth, Style(heap, indentSize, level), root, 0, {}, Running([[]], 0, lineBreak));
      && (finished <==> a.Running?)
      && (finished ==> doc == a.doc)
      && lineBreak' == a.lineBreak
    ensures finished ==> doc == goal.doc && lineBreak' == lineBreak
  {
    RetryStep(heap, indentSize, maxWidth, root, level, lineBreak);
  }

  /**
   * An aborted pass raises `line_break` within the bound, and the loop from
   * the next `expand_level` ends where the loop from this one would.
   */
  lemma LoopContinues(heap: Heap, indentSize: nat, maxWidth: Option<int>, root: Id, level: nat, lineBreak: Option<nat>,
                      finished: bool, level': nat, lineBreak': Option<nat>, goal: Rendered)
    requires WellFormed(heap) && root in heap
    requires Height(lineBreak) <= LineBound(heap, root, {}) + 1
    requires RetryFrom(heap, indentSize, maxWidth, root, level, lineBreak) == goal
    requires var a := Walk(maxWidth, Style(heap, indentSize, level), root, 0, {}, Running([[]], 0, lineBreak));
      && (finished <==> a.Running?)
      && (!finished ==> level' == level + 1)
      && lineBreak' == a.lineBreak
    ensures !finished ==> Height(lineBreak) < Height(lineBreak') <= LineBound(heap, root, {}) + 1
    ensures !finished ==> RetryFrom(heap, indentSize, maxWidth, root, level', lineBreak') == goal
  {
    RetryStep(heap, indentSize, maxWidth, root, level, lineBreak);
  }

  /** `indent = " " * indent_size`: a negative size gives an empty indent. */
  function IndentWidth(indentSize: int): (w: nat)
    ensures indentSize >= 0 ==> w == indentSize
    ensures indentSize < 0 ==> w == 0
  {
    if indentSize < 0 then 0 else indentSize
  }

  /**
   * `pretty_repr(_object, max_width=..., indent_size=...)` up to the plain
   * text: traverse, and on `MaxLineReached` restart one level deeper, until
   * an attempt completes; then join the lines.
   */
  method PrettyRepr(heap: Heap, root: Id, maxWidth: Option<int>, indentSize: int) returns (text: string)
    requires WellFormed(heap) && root in heap
    ensures text == PrettyText(heap, IndentWidth(indentSize), maxWidth, root)
  {
    var rd := new Renderer(heap, maxWidth, IndentWidth(indentSize));
    ghost var goal := PrettyLines(heap, IndentWidth(indentSize), maxWidth, root);
    ghost var bound := LineBound(heap, root, {});
    var finished := false;
    while !finished
      invariant fresh(rd) && |rd.lines| > 0 && (!finished ==> fresh(rd.lines[0]))
      invariant rd.Valid() && rd.heap == heap && rd.maxWidth == maxWidth && rd.indentSize == IndentWidth(indentSize)
      invariant !finished ==> rd.Restarted()
      invariant Height(rd.lineBreak) <= bound + 1
      invariant !finished ==> RetryFrom(heap, rd.indentSize, maxWidth, root, rd.expandLevel, rd.lineBreak) == goal
      invariant finished ==> rd.doc == goal.doc
      decreases !finished, bound + 1 - Height(rd.lineBreak)
    {
      ghost var level, lineBreak := rd.expandLevel, rd.lineBreak;
      finished := rd.TryTraverse(root);
      LoopFinishes(heap, rd.indentSize, maxWidth, root, level, lineBreak, finished, rd.lineBreak, rd.doc, goal);
      LoopContinues(heap, rd.indentSize, maxWidth, root, level, lineBreak, finished, rd.expandLevel, rd.lineBreak, goal);
    }
    text := rd.Text();
  }
}
