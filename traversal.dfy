/**
 * `traverse` as a state transformer: the attempt's state (`Budget.Run`)
 * threaded through the walk in the order the code makes its calls. The
 * methods of `Pretty` follow this definition step by step; `WalkIsPlay`
 * shows it is the budget played over the calls `Layout.Emit` lists.
 */
module Traversal {
  import opened Wrappers
  import opened Values
  import opened Layout
  import opened LayoutFacts
  import opened Budget

  /** The state after `traverse(id, level)` starting from `s`. */
  function Walk(maxWidth: Option<int>, st: Style, id: Id, level: nat, visited: set<Id>, s: Run): (r: Run)
    requires WellFormed(st.heap) && id in st.heap
    decreases |st.heap.Keys - visited|, 3, 0
  {
    if s.Stopped? then s
    else if id in visited then Step(maxWidth, s, Put("...", level))
    else WalkNode(maxWidth, st, id, level, visited, s)
  }

  /** `traverse` on an object it has not seen on the way down: its repr, its empty token, or its entries. */
  function WalkNode(maxWidth: Option<int>, st: Style, id: Id, level: nat, visited: set<Id>, s: Run): (r: Run)
    requires WellFormed(st.heap) && id in st.heap && id !in visited
    decreases |st.heap.Keys - visited|, 2, 0
  {
    var node := st.heap[id];
    match ContainerKind(node.ty)
    case None => Step(maxWidth, s, Put(ReprText(node.repr), level))
    case Some(k) =>
      if |node.entries| == 0 then Step(maxWidth, s, Put(BracesOf(k).empty, level))
      else
        var started := Step(maxWidth, s, Put(BracesOf(k).open, level));
        WalkClose(maxWidth, st, k, level, WalkEntries(maxWidth, st, id, level, visited, 0, started))
  }

  /** The closing brace, on a new line indented to `level` when the container is expanded. */
  function WalkClose(maxWidth: Option<int>, st: Style, k: Kind, level: nat, s: Run): Run
  {
    if level < st.expandLevel then
      Step(maxWidth, Step(maxWidth, s, Break), Put(Indent(st.indentSize, level) + BracesOf(k).close, level))
    else Step(maxWidth, s, Put(BracesOf(k).close, level))
  }

  /** The `for` loop from entry `i` on; it stops at the first abort. */
  function WalkEntries(maxWidth: Option<int>, st: Style, id: Id, level: nat, visited: set<Id>, i: nat, s: Run): (r: Run)
    requires WellFormed(st.heap) && id in st.heap && id !in visited
    requires i <= |st.heap[id].entries|
    decreases |st.heap.Keys - visited|, 1, |st.heap[id].entries| - i
  {
    if s.Stopped? || i == |st.heap[id].entries| then s
    else WalkEntries(maxWidth, st, id, level, visited, i + 1, WalkEntry(maxWidth, st, id, level, visited, i, s))
  }

  /** One pass of the loop: new indented line if expanded, key, value one level deeper, separator. */
  function WalkEntry(maxWidth: Option<int>, st: Style, id: Id, level: nat, visited: set<Id>, i: nat, s: Run): (r: Run)
    requires WellFormed(st.heap) && id in st.heap && id !in visited
    requires i < |st.heap[id].entries|
    decreases |st.heap.Keys - visited|, 0, 2
  {
    WalkSep(maxWidth, i == |st.heap[id].entries| - 1, level, WalkValue(maxWidth, st, id, level, visited, i, s))
  }

  /** A pass up to its separator: the prefix, then the value traversed one level deeper. */
  function WalkValue(maxWidth: Option<int>, st: Style, id: Id, level: nat, visited: set<Id>, i: nat, s: Run): Run
    requires WellFormed(st.heap) && id in st.heap && id !in visited
    requires i < |st.heap[id].entries|
    decreases |st.heap.Keys - visited|, 0, 1
  {
    var e := st.heap[id].entries[i];
    VisitShrinks(st.heap.Keys, visited, id);
    Walk(maxWidth, st, e.value, level + 1, visited + {id}, WalkPrefix(maxWidth, st, e, level, s))
  }

  /** What a pass emits before the value: the head, then for a dict the key and `": "`. */
  function WalkPrefix(maxWidth: Option<int>, st: Style, e: Entry, level: nat, s: Run): Run
    requires e.Pair? ==> e.key in st.heap
  {
    var headed := WalkHead(maxWidth, st, level, s);
    if e.Pair? then WalkKey(maxWidth, st.heap, e.key, level, headed) else headed
  }

  /** When the container is expanded, each entry starts a new line indented one level deeper. */
  function WalkHead(maxWidth: Option<int>, st: Style, level: nat, s: Run): Run
  {
    if level < st.expandLevel then Step(maxWidth, Step(maxWidth, s, Break), Put(Indent(st.indentSize, level + 1), level))
    else s
  }

  /** A dict key: its `to_repr_text`, then `": "`. */
  function WalkKey(maxWidth: Option<int>, heap: Heap, key: Id, level: nat, s: Run): Run
    requires key in heap
  {
    Step(maxWidth, Step(maxWidth, s, Put(ReprText(heap[key].repr), level)), Put(": ", level))
  }

  /** `", "` after every entry but the last. */
  function WalkSep(maxWidth: Option<int>, last: bool, level: nat, s: Run): Run
  {
    if last then s else Step(maxWidth, s, Put(", ", level))
  }

  /** The walk is the budget played over the calls of `Emit`. */
  lemma {:induction false} WalkIsPlay(maxWidth: Option<int>, st: Style, id: Id, level: nat, visited: set<Id>, s: Run)
    requires WellFormed(st.heap) && id in st.heap
    ensures Walk(maxWidth, st, id, level, visited, s) == Play(maxWidth, Emit(st, id, level, visited), s)
    decreases |st.heap.Keys - visited|, 3, 0
  {
    var ops := Emit(st, id, level, visited);
    if s.Stopped? {
      PlayStopped(maxWidth, ops, s);
    } else if id in visited || ContainerKind(st.heap[id].ty).None? || |st.heap[id].entries| == 0 {
      PlayCons(maxWidth, ops[0], [], s);
      assert ops == [ops[0]];
    } else {
      var k := ContainerKind(st.heap[id].ty).value;
      var open := Put(BracesOf(k).open, level);
      var body := EntriesFrom(st, id, level, visited, 0);
      var close := Closing(st, k, level);
      assert ops == [open] + (body + close);
      PlayCons(maxWidth, open, body + close, s);
      PlayAppend(maxWidth, body, close, Step(maxWidth, s, open));
      EntriesArePlay(maxWidth, st, id, level, visited, 0, Step(maxWidth, s, open));
      CloseIsPlay(maxWidth, st, k, level, Play(maxWidth, body, Step(maxWidth, s, open)));
    }
  }

  /**
   * A whole `traverse` call moves the state as one call does: after an abort
   * it does nothing, if it returns normally `line_break` is as it was, if it
   * raises `MaxLineReached` it has raised `line_break`; without `max_width`
   * it never raises.
   */
  lemma WalkAdvances(maxWidth: Option<int>, st: Style, id: Id, level: nat, visited: set<Id>, s: Run)
    requires WellFormed(st.heap) && id in st.heap
    ensures Advances(s, Walk(maxWidth, st, id, level, visited, s))
    ensures maxWidth.None? ==> Walk(maxWidth, st, id, level, visited, s).Running? == s.Running?
  {
    var ops := Emit(st, id, level, visited);
    WalkIsPlay(maxWidth, st, id, level, visited, s);
    match s
    case Stopped(_, _, _) =>
      PlayStopped(maxWidth, ops, s);
    case Running(doc, cells, lineBreak) =>
      if maxWidth.None? {
        PlayUnbounded(ops, doc, cells, lineBreak);
      }
      if Play(maxWidth, ops, s).Stopped? {
        PlayAbort(maxWidth, ops, doc, cells, lineBreak);
      } else {
        PlayRunning(maxWidth, ops, doc, cells, lineBreak);
      }
  }

  /** A non-empty container's call: the open token, then the entries, then the close. */
  lemma ContainerSteps(maxWidth: Option<int>, st: Style, id: Id, level: nat, visited: set<Id>, k: Kind, s: Run)
    requires WellFormed(st.heap) && id in st.heap && id !in visited
    requires ContainerKind(st.heap[id].ty) == Some(k) && |st.heap[id].entries| > 0
    ensures var started := Step(maxWidth, s, Put(BracesOf(k).open, level));
      && WalkNode(maxWidth, st, id, level, visited, s)
         == WalkClose(maxWidth, st, k, level, WalkEntries(maxWidth, st, id, level, visited, 0, started))
      && (started.Stopped? ==> WalkNode(maxWidth, st, id, level, visited, s) == started)
  {
    var started := Step(maxWidth, s, Put(BracesOf(k).open, level));
    if started.Stopped? {
      assert WalkEntries(maxWidth, st, id, level, visited, 0, started) == started;
    }
  }

  /** After an abort the closing brace writes nothing. */
  lemma CloseAfterAbort(maxWidth: Option<int>, st: Style, k: Kind, level: nat, s: Run)
    requires s.Stopped?
    ensures WalkClose(maxWidth, st, k, level, s) == s
  {
  }

  lemma CloseIsPlay(maxWidth: Option<int>, st: Style, k: Kind, level: nat, s: Run)
    ensures WalkClose(maxWidth, st, k, level, s) == Play(maxWidth, Closing(st, k, level), s)
  {
    var close := Closing(st, k, level);
    if level < st.expandLevel {
      PlayCons(maxWidth, Break, [close[1]], s);
      PlayCons(maxWidth, close[1], [], Step(maxWidth, s, Break));
      assert close == [Break] + [close[1]];
    } else {
      PlayCons(maxWidth, close[0], [], s);
    }
  }

  lemma {:induction false} EntriesArePlay(maxWidth: Option<int>, st: Style, id: Id, level: nat, visited: set<Id>, i: nat, s: Run)
    requires WellFormed(st.heap) && id in st.heap && id !in visited
    requires i <= |st.heap[id].entries|
    ensures WalkEntries(maxWidth, st, id, level, visited, i, s) == Play(maxWidth, EntriesFrom(st, id, level, visited, i), s)
    decreases |st.heap.Keys - visited|, 1, |st.heap[id].entries| - i
  {
    var ops := EntriesFrom(st, id, level, visited, i);
    if s.Stopped? {
      PlayStopped(maxWidth, ops, s);
    } else if i < |st.heap[id].entries| {
      var entry := EntryOps(st, id, level, visited, i);
      var rest := EntriesFrom(st, id, level, visited, i + 1);
      PlayAppend(maxWidth, entry, rest, s);
      EntryIsPlay(maxWidth, st, id, level, visited, i, s);
      EntriesArePlay(maxWidth, st, id, level, visited, i + 1, WalkEntry(maxWidth, st, id, level, visited, i, s));
      if WalkEntry(maxWidth, st, id, level, visited, i, s).Stopped? {
        PlayStopped(maxWidth, rest, WalkEntry(maxWidth, st, id, level, visited, i, s));
      }
    }
  }

  lemma {:induction false} EntryIsPlay(maxWidth: Option<int>, st: Style, id: Id, level: nat, visited: set<Id>, i: nat, s: Run)
    requires WellFormed(st.heap) && id in st.heap && id !in visited
    requires i < |st.heap[id].entries|
    ensures WalkEntry(maxWidth, st, id, level, visited, i, s) == Play(maxWidth, EntryOps(st, id, level, visited, i), s)
    decreases |st.heap.Keys - visited|, 0, 0
  {
    var entries := st.heap[id].entries;
    var e := entries[i];
    assert EntryOk(st.heap, st.heap[id].ty, e);
    var prefix := EntryHead(st, level) + KeyOps(st.heap, e, level);
    VisitShrinks(st.heap.Keys, visited, id);
    var value := Emit(st, e.value, level + 1, visited + {id});
    var last := i == |entries| - 1;
    var sep: seq<Op> := if last then [] else [Put(", ", level)];
    PlayAppend(maxWidth, prefix + value, sep, s);
    PlayAppend(maxWidth, prefix, value, s);
    PrefixIsPlay(maxWidth, st, e, level, s);
    WalkIsPlay(maxWidth, st, e.value, level + 1, visited + {id}, Play(maxWidth, prefix, s));
    SepIsPlay(maxWidth, last, level, Play(maxWidth, value, Play(maxWidth, prefix, s)));
  }

  lemma PrefixIsPlay(maxWidth: Option<int>, st: Style, e: Entry, level: nat, s: Run)
    requires e.Pair? ==> e.key in st.heap
    ensures WalkPrefix(maxWidth, st, e, level, s) == Play(maxWidth, EntryHead(st, level) + KeyOps(st.heap, e, level), s)
  {
    PlayAppend(maxWidth, EntryHead(st, level), KeyOps(st.heap, e, level), s);
    HeadIsPlay(maxWidth, st, level, s);
    KeyIsPlay(maxWidth, st.heap, e, level, Play(maxWidth, EntryHead(st, level), s));
  }

  lemma HeadIsPlay(maxWidth: Option<int>, st: Style, level: nat, s: Run)
    ensures WalkHead(maxWidth, st, level, s) == Play(maxWidth, EntryHead(st, level), s)
  {
    var head := EntryHead(st, level);
    if level < st.expandLevel {
      PlayCons(maxWidth, Break, [head[1]], s);
      PlayCons(maxWidth, head[1], [], Step(maxWidth, s, Break));
      assert head == [Break] + [head[1]];
    }
  }

  lemma KeyIsPlay(maxWidth: Option<int>, heap: Heap, e: Entry, level: nat, s: Run)
    requires e.Pair? ==> e.key in heap
    ensures (if e.Pair? then WalkKey(maxWidth, heap, e.key, level, s) else s) == Play(maxWidth, KeyOps(heap, e, level), s)
  {
    var key := KeyOps(heap, e, level);
    if e.Pair? {
      PlayCons(maxWidth, key[0], [key[1]], s);
      PlayCons(maxWidth, key[1], [], Step(maxWidth, s, key[0]));
      assert key == [key[0]] + [key[1]];
    }
  }

  lemma SepIsPlay(maxWidth: Option<int>, last: bool, level: nat, s: Run)
    ensures WalkSep(maxWidth, last, level, s) == Play(maxWidth, if last then [] else [Put(", ", level)], s)
  {
    if !last {
      PlayCons(maxWidth, Put(", ", level), [], s);
    }
  }
}
