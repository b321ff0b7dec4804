/**
 * What `traverse` does, as a value: the sequence of `append_text` and
 * `append_line` calls one attempt makes at a given expansion level, with no
 * width budget yet (that is `Budget`). The imperative walk in `Pretty` is
 * proved to make exactly these calls.
 */
module Layout {
  import opened Wrappers
  import opened Values
  import opened Strings

  /** `append_text(text)` made by the `traverse` frame at depth `level`, or `lines.append(_Line())`. */
  datatype Op = Put(text: string, level: nat) | Break

  /** What fixes a layout: the objects, `indent_size` and `expand_level`. */
  datatype Style = Style(heap: Heap, indentSize: nat, expandLevel: nat)

  /** A document: the fragments of each line; there is always a current line. */
  type Document = d: seq<seq<string>> | |d| > 0 witness [[]]

  /** `indent * depth`, where `indent = " " * indent_size`. */
  function Indent(indentSize: nat, depth: nat): string
  {
    Spaces(indentSize * depth)
  }

  lemma VisitShrinks(keys: set<Id>, visited: set<Id>, id: Id)
    requires id in keys && id !in visited
    ensures |keys - (visited + {id})| < |keys - visited|
  {
    var rest := keys - (visited + {id});
    assert keys - visited == rest + {id};
  }

  /**
   * The calls `traverse(id, level)` makes when `visited` is `visited_set`.
   * Every call writes something first, on the current line, at its own level.
   */
  function Emit(st: Style, id: Id, level: nat, visited: set<Id>): (ops: seq<Op>)
    requires WellFormed(st.heap) && id in st.heap
    ensures |ops| > 0 && ops[0].Put? && ops[0].level == level
    decreases |st.heap.Keys - visited|, 2, 0
  {
    if id in visited then [Put("...", level)]
    else
      var node := st.heap[id];
      match ContainerKind(node.ty)
      case None => [Put(ReprText(node.repr), level)]
      case Some(k) =>
        if |node.entries| == 0 then [Put(BracesOf(k).empty, level)]
        else [Put(BracesOf(k).open, level)] + EntriesFrom(st, id, level, visited, 0) + Closing(st, k, level)
  }

  /** The closing brace: on a line of its own, indented to `level`, when the container is expanded. */
  function Closing(st: Style, k: Kind, level: nat): seq<Op>
  {
    if level < st.expandLevel then [Break, Put(Indent(st.indentSize, level) + BracesOf(k).close, level)]
    else [Put(BracesOf(k).close, level)]
  }

  /** The calls made for entries `i..` of container `id`. */
  function EntriesFrom(st: Style, id: Id, level: nat, visited: set<Id>, i: nat): seq<Op>
    requires WellFormed(st.heap) && id in st.heap && id !in visited
    requires i <= |st.heap[id].entries|
    decreases |st.heap.Keys - visited|, 1, |st.heap[id].entries| - i
  {
    if i == |st.heap[id].entries| then []
    else EntryOps(st, id, level, visited, i) + EntriesFrom(st, id, level, visited, i + 1)
  }

  /** The calls made for entry `i`: a new indented line when expanded, the key, the value, the separator. */
  function EntryOps(st: Style, id: Id, level: nat, visited: set<Id>, i: nat): seq<Op>
    requires WellFormed(st.heap) && id in st.heap && id !in visited
    requires i < |st.heap[id].entries|
    decreases |st.heap.Keys - visited|, 0, 0
  {
    var entries := st.heap[id].entries;
    var e := entries[i];
    VisitShrinks(st.heap.Keys, visited, id);
    EntryHead(st, level)
    + KeyOps(st.heap, e, level)
    + Emit(st, e.value, level + 1, visited + {id})
    + (if i == |entries| - 1 then [] else [Put(", ", level)])
  }

  function EntryHead(st: Style, level: nat): seq<Op>
  {
    if level < st.expandLevel then [Break, Put(Indent(st.indentSize, level + 1), level)] else []
  }

  /** A dict key is written with `to_repr_text`, never traversed. */
  function KeyOps(heap: Heap, e: Entry, level: nat): seq<Op>
    requires e.Pair? ==> e.key in heap
  {
    match e
    case Pair(key, _) => [Put(ReprText(heap[key].repr), level), Put(": ", level)]
    case Item(_) => []
  }

  /** The number of new lines a sequence of calls starts. */
  function Breaks(ops: seq<Op>): nat
  {
    if ops == [] then 0 else (if ops[0].Break? then 1 else 0) + Breaks(ops[1..])
  }

  /** Everything the calls write, in order, line breaks ignored. */
  function Texts(ops: seq<Op>): string
  {
    if ops == [] then "" else (if ops[0].Put? then ops[0].text else "") + Texts(ops[1..])
  }

  /** `lines[-1].append(text)`. */
  function AppendToLast(doc: Document, text: string): (d: Document)
  {
    doc[|doc| - 1 := doc[|doc| - 1] + [text]]
  }

  /** The document the calls build when nothing aborts them. */
  function Apply(ops: seq<Op>, doc: Document): Document
  {
    if ops == [] then doc
    else
      var d := match ops[0] case Break => doc + [[]] case Put(text, _) => AppendToLast(doc, text);
      Apply(ops[1..], d)
  }

  // ---------------------------------------------------------------------
  // A reference for the one-line form, written independently of `Emit`.

  /** The one-line rendering: a container is its open token, its entries joined by `", "`, its close token. */
  function InlineRepr(heap: Heap, id: Id, visited: set<Id>): string
    requires WellFormed(heap) && id in heap
    decreases |heap.Keys - visited|, 2, 0
  {
    if id in visited then "..."
    else
      var node := heap[id];
      match ContainerKind(node.ty)
      case None => ReprText(node.repr)
      case Some(k) =>
        if |node.entries| == 0 then BracesOf(k).empty
        else BracesOf(k).open + JoinWith(", ", InlineEntries(heap, id, visited, 0)) + BracesOf(k).close
  }

  function InlineEntries(heap: Heap, id: Id, visited: set<Id>, i: nat): seq<string>
    requires WellFormed(heap) && id in heap && id !in visited
    requires i <= |heap[id].entries|
    decreases |heap.Keys - visited|, 1, |heap[id].entries| - i
  {
    if i == |heap[id].entries| then [] else [InlineEntry(heap, id, visited, i)] + InlineEntries(heap, id, visited, i + 1)
  }

  function InlineEntry(heap: Heap, id: Id, visited: set<Id>, i: nat): string
    requires WellFormed(heap) && id in heap && id !in visited
    requires i < |heap[id].entries|
    decreases |heap.Keys - visited|, 0, 0
  {
    var e := heap[id].entries[i];
    VisitShrinks(heap.Keys, visited, id);
    match e
    case Pair(key, value) => ReprText(heap[key].repr) + ": " + InlineRepr(heap, value, visited + {id})
    case Item(value) => InlineRepr(heap, value, visited + {id})
  }

  /** An upper bound on the new lines of any attempt: every container expanded. */
  function LineBound(heap: Heap, id: Id, visited: set<Id>): nat
    requires WellFormed(heap) && id in heap
    decreases |heap.Keys - visited|, 2, 0
  {
    if id in visited then 0
    else
      var node := heap[id];
      match ContainerKind(node.ty)
      case None => 0
      case Some(k) =>
        if |node.entries| == 0 then 0 else |node.entries| + 1 + EntriesBound(heap, id, visited, 0)
  }

  function EntriesBound(heap: Heap, id: Id, visited: set<Id>, i: nat): nat
    requires WellFormed(heap) && id in heap && id !in visited
    requires i <= |heap[id].entries|
    decreases |heap.Keys - visited|, 1, |heap[id].entries| - i
  {
    if i == |heap[id].entries| then 0
    else
      VisitShrinks(heap.Keys, visited, id);
      LineBound(heap, heap[id].entries[i].value, visited + {id}) + EntriesBound(heap, id, visited, i + 1)
  }
}
