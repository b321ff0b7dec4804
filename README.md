# Adaptive pretty repr (`rich.pretty.pretty_repr`), modelled in Dafny

`pretty_repr` lays out a Python object graph, made of dicts, lists, tuples,
sets, frozensets and leaves, as text within a width budget. The first attempt
puts everything on one line. Whenever a line grows wider than `max_width`, the
attempt is abandoned by raising `MaxLineReached`. The next attempt expands one
more level of containers: one entry per line, indented by `indent_size` spaces
per level. A container that is already on the current traversal path is
written `...`. Two pieces of state survive from one attempt to the next:
- the repr cache;
- `line_break`, which lets lines within the first `line_break` lines stay too
  wide on later attempts.

The model has three layers.

- **Specification functions** say what an attempt does.
  - `Layout.Emit` lists the calls `traverse` makes: `append_text` with its
    text, and `append_line`.
  - `Budget.Play` folds the overflow test and the `line_break` hysteresis over
    those calls.
  - `Traversal.Walk` follows the recursion of `traverse` itself. It is proved
    equal to `Play` applied to `Emit`.
  - `Retry.RetryFrom` is the retry loop as a terminating function.
  - `Layout.InlineRepr` is an independent reference for the one-line form.
- **Imperative code** mirrors the source's closures over shared state.
  - `Lines.Line` stands for `_Line`. It is a class with `parts` and the
    `_cell_len` counter.
  - `Pretty.Renderer` holds the `lines`, `visited_set`, `repr_cache`,
    `line_break` and `expand_level` variables.
  - Each of its methods is proved against the specification functions.
  - `Pretty.PrettyRepr` runs the retry loop. It is proved to return
    `Retry.PrettyText`.
- **Lemmas** state what the layout promises. They cover:
  - the one-line form;
  - the content kept by expansion;
  - the line counts of expanded containers;
  - the bounds that make the retry loop end;
  - the over-wide lines that the hysteresis lets through;
  - four concrete traces, proved as lemmas in `Examples`: a cycle, a shared
    acyclic reference, a dict that takes four attempts, and a wide leaf that
    takes two.

Objects form a heap `map<Id, Node>`, and an `Id` plays the part of `id(obj)`.
Each node records:
- its exact type: exactly a builtin container, a subclass of one, or another
  type;
- what `repr` does on it: it returns a text or raises with a message;
- its entries, in iteration order.

Widths are measured with `cell_len` taken as the length of the string.

## How the model follows the code

The model follows `rich/pretty.py` as written. In these places the code
differs from a plain description of the algorithm:

- A container met again on the current path is written `...`, not `[...]`
  (`Examples.CycleRendersEllipsis`). An object shared by two entries, with no
  cycle, is written in full both times, since only the objects on the path
  down are marked (`Examples.SharedRendersInFull`). For every graph with no
  cycle, an object's one-line form inside its containers is the one it has
  on its own (`LayoutFacts.AcyclicInline`).
- After an entry that is not the last, `", "` is written before the line break.
  So an expanded line can end in a space, and the last entry has no separator.
- The number of attempts is not bounded by the nesting depth plus one:
  - `{'a': 1, 'b': 2}` at width 5 nests one level deep but takes four
    attempts, ending at `expand_level = 3` (`Examples.FourAttempts`);
  - each aborted attempt only raises `line_break` by at least one line;
  - `expand_level` ends at most at the number of line breaks a fully
    expanded attempt can make, plus one, so there are at most that many
    attempts plus two (`Retry.RetryFrom`);
  - that count is reached: a single leaf wider than `max_width` makes no line
    break and takes two attempts, since the first sets `line_break` to 1 and
    the second lets line 1 through (`Examples.WideLeafTwoAttempts`).
- The output can contain lines wider than `max_width`: every such line lies
  within the first `line_break` lines (`Retry.OverwideLinesTolerated`).
- `cell_len` of a `_Line` subtracts one cell when its last fragment ends with
  a space, or when the line has no fragment at all. Only the last fragment is
  looked at.
- A subclass of a builtin container is not laid out as a container. It is a
  leaf written with its own `repr` (`LayoutFacts.ExactTypesOnly`).

## Model

| member | source | states |
|---|---|---|
| `Values.BracesOf` | rich/pretty.py:90-96 | the `_BRACES` table: dict and set share the braces `{` `}`, and only dict and list have the bare brace pair as their empty token |
| `Values.ContainerKind` | rich/pretty.py:97 | `type(node) in _CONTAINERS`: a container kind is found only for an object whose type is exactly that builtin; a subclass or any other type has none |
| `Values.ReprText` | rich/pretty.py:173-176 | the text `repr` returned, or `<error in repr: ` + message + `>`, from which the message reads back |
| `Values.EmptyTokenIdentifiesKind` | rich/pretty.py:90-96 | the `_BRACES` table gives each of the five container types its own empty token, so `set()` and `{}` are told apart |
| `LayoutFacts.ExactTypesOnly` | rich/pretty.py:206-238 | only an object whose type is exactly a builtin container is laid out as one; any other object, a subclass included, is the single fragment of its `repr`; an empty container is its empty token |
| `Lines.Line.constructor` | rich/pretty.py:104-105 | a new line has no fragments and a zero counter |
| `Lines.Line.Append` | rich/pretty.py:107-111 | the fragment goes at the end and the counter grows by its width, so the counter stays the sum of the fragment widths |
| `Lines.Line.CellLen` | rich/pretty.py:113-119 | the width of the line's text when its last fragment does not end with a space; exactly one cell less when it does; -1 for a line with no fragment |
| `Lines.EffectiveWidthAfterAppend` | rich/pretty.py:107-119 | the width computed from the counter after an append equals `cell_len` recomputed from the fragments |
| `Lines.Line.Text` | rich/pretty.py:121-124 | the fragments joined: as wide as the counter says, empty for no fragment, and ending with the last fragment |
| `Lines.TotalCellsIsTextWidth` | rich/pretty.py:111-124 | the counter equals the width of the joined text |
| `Pretty.Renderer.constructor` | rich/pretty.py:159-165 | the start state: one empty line, `expand_level` 0, nothing visited, an empty cache, no `line_break` |
| `Pretty.Renderer.ToReprText` | rich/pretty.py:167-178 | the `repr` text, or `<error in repr: message>` when `repr` raises; a cached object returns its cached text and leaves the cache unchanged; otherwise the text is added to the cache |
| `Pretty.Renderer.AppendLine` | rich/pretty.py:217 | a fresh empty line object becomes the current line; the earlier line objects are kept |
| `Pretty.Renderer.AppendToCurrentLine` | rich/pretty.py:190-191 | the text is appended to the current line object and to the document; the counter grows by its width and `cell_len` is the width after the append |
| `Pretty.Renderer.AppendText` | rich/pretty.py:189-197 | the text goes on the current line; the call raises exactly when the line is now wider than `max_width` and not within the first `line_break` lines, and then sets `line_break` to the number of lines |
| `Pretty.Renderer.Traverse` | rich/pretty.py:184-239 | makes exactly the calls of the specification walk from the current state; a visited object gives `...`; on a normal return the visited set is as before |
| `Pretty.Renderer.TraverseUnseen` | rich/pretty.py:204-239 | an object not met on the way down is added to the visited set, traversed as a node, and on a normal return removed again |
| `Pretty.Renderer.MarkVisited` | rich/pretty.py:205 | the object joins the visited set; nothing else changes |
| `Pretty.Renderer.Unmark` | rich/pretty.py:239 | the object leaves the visited set; nothing else changes |
| `Pretty.Renderer.TraverseNode` | rich/pretty.py:206-238 | a leaf is its `repr` text, an empty container its empty token, any other container its entries between braces |
| `Pretty.Renderer.TraverseContainer` | rich/pretty.py:213-236 | the opening token, the entries and the closing token, stopping at the first abort |
| `Pretty.Renderer.TraverseBody` | rich/pretty.py:214-236 | after the opening token: the entries, then the closing token unless an entry raised |
| `Pretty.Renderer.TraverseEntries` | rich/pretty.py:214-231 | the entries in iteration order, stopping at the first abort |
| `Pretty.Renderer.TraverseEntry` | rich/pretty.py:215-231 | one pass of the loop: the head, the dict key with `": "`, the value one level deeper, then `", "` unless it is the last entry |
| `Pretty.Renderer.EntryValue` | rich/pretty.py:215-230 | a pass up to its separator: the head, the dict key, then the value traversed one level deeper |
| `Pretty.Renderer.EntryPrefix` | rich/pretty.py:215-220 | the calls a pass makes before the value |
| `Pretty.Renderer.EntryHead` | rich/pretty.py:216-218 | when expanded, a new line indented one level deeper than the container |
| `Pretty.Renderer.EntryKey` | rich/pretty.py:219-220 | a dict key is written with `to_repr_text`, never traversed, and followed by `": "` |
| `Pretty.Renderer.TraverseClose` | rich/pretty.py:232-236 | when expanded, the closing token goes on a new line indented to the container's level; otherwise it goes on the current line |
| `Pretty.Renderer.TryTraverse` | rich/pretty.py:243-251 | one attempt: it finishes exactly when the specification attempt is not aborted, with its lines; an aborted attempt leaves the restarted state one level deeper |
| `Pretty.Renderer.Restart` | rich/pretty.py:245-249 | the lines are replaced by one fresh empty line, the visited set is cleared and `expand_level` goes up by one; the repr cache and `line_break` are kept |
| `Pretty.Renderer.Text` | rich/pretty.py:254 | the lines' texts joined with new lines |
| `Pretty.LoopFinishes` | rich/pretty.py:242-251 | a pass that goes through leaves `line_break` as it was and leaves the lines of the loop's result |
| `Pretty.LoopContinues` | rich/pretty.py:242-251 | an aborted pass raises `line_break` strictly and within the bound, and the loop from the next `expand_level` has the same result |
| `Pretty.PrettyRepr` | rich/pretty.py:159-255 | the retry loop ends, and returns the text of the first attempt that is not aborted |
| `Budget.StepAdvances` | rich/pretty.py:189-197 | one call of `append_text` or `append_line`: nothing happens after an abort; a new line adds one line; only a text aborts, at the level of its frame, setting `line_break` to the number of lines, above its old value; a call that returns keeps `line_break`; with no `max_width` nothing aborts |
| `Budget.StepCounted` | rich/pretty.py:189-193 | each call keeps the counter equal to the current line's width, and the overflow test is `cell_len` of the current line |
| `Budget.PlayStopped` | rich/pretty.py:197 | once `MaxLineReached` is raised, nothing more is written |
| `Budget.PlayRunning` | rich/pretty.py:189-197 | an attempt that is not aborted writes exactly its calls and leaves `line_break` unchanged |
| `Budget.PlayUnbounded` | rich/pretty.py:193 | with no `max_width` an attempt is never aborted |
| `Budget.PlayAbort` | rich/pretty.py:193-197 | an aborted attempt sets `line_break` to its number of lines, which exceeds the previous `line_break` and is at most the number of lines the calls can make |
| `Budget.PlayKeepsTolerated` | rich/pretty.py:193-196 | every line of an attempt that is not aborted is within `max_width` or within the first `line_break` lines |
| `Traversal.WalkAdvances` | rich/pretty.py:184-239 | a whole `traverse` call moves the state as one call does: no effect after an abort, `line_break` kept on a normal return and raised by `MaxLineReached`, never aborted with no `max_width` |
| `Traversal.WalkIsPlay` | rich/pretty.py:184-239 | the recursive walk equals playing the call list under the budget |
| `Retry.RetryFrom` | rich/pretty.py:242-251 | the loop returns an attempt that is not aborted, with its lines; `expand_level` grows by at most the line bound plus one |
| `Retry.RetryStep` | rich/pretty.py:242-251 | a finished attempt ends the loop; an aborted one raises `line_break` strictly, stays within the bound and retries one level deeper |
| `Retry.LineTexts` | rich/pretty.py:254 | the text of each line is its fragments joined |
| `Retry.AttemptOutcome` | rich/pretty.py:243-244 | one attempt from a single empty line: one that goes through leaves `line_break` as it was; an aborted one raises it, to at most the line bound plus one; with no `max_width` no attempt is aborted |
| `Retry.InlineLines` | rich/pretty.py:208-236 | when the attempt at `expand_level` 0 goes through, the loop stops there with a single line, the one-line rendering |
| `Retry.PrettyText` | rich/pretty.py:244-254 | the lines of the loop's result joined with new lines; with no `max_width` it is the one-line rendering |
| `Retry.FirstAttemptIsInline` | rich/pretty.py:208 | when the attempt at `expand_level` 0 goes through, the output is one line, equal to the independent one-line rendering |
| `Retry.OverwideLinesTolerated` | rich/pretty.py:193-196 | a line of the output wider than `max_width` lies within the first `line_break` lines |
| `Layout.Emit` | rich/pretty.py:184-239 | the calls of `traverse`: each call writes a text first, on the current line, at its own level |
| `LayoutFacts.InlineNoBreaks` | rich/pretty.py:208 | a container at or below `expand_level` starts no new line |
| `LayoutFacts.InlineMatchesReference` | rich/pretty.py:208-236 | the one-line layout writes exactly the independent one-line rendering: entries joined by `", "` between the braces, with keys as `key: value` |
| `LayoutFacts.ExpansionKeepsContent` | rich/pretty.py:213-236 | at every `expand_level` the layout writes the same characters as the one-line form apart from spaces |
| `LayoutFacts.BreaksBounded` | rich/pretty.py:216-234 | an attempt starts at most as many new lines as a full expansion would |
| `LayoutFacts.ExpandedLineCount` | rich/pretty.py:216-234 | an expanded container starts one new line per entry plus one for its closing token, besides the lines its entries' values start one level deeper |
| `LayoutFacts.InnermostLineCount` | rich/pretty.py:216-234 | a container expanded at the deepest expanded level, its entries inline, starts exactly one new line per entry plus one for its closing token |
| `LayoutFacts.AcyclicInline` | rich/pretty.py:199-205 | in a graph with no cycle (each entry's value ranked below its container), an object's one-line form, with visited objects that all rank above it (its ancestors on the path down are such), equals its one-line form with nothing visited; so a shared object is written in full each time |
| `LayoutFacts.ExpandedClosesOnOwnLine` | rich/pretty.py:232-234 | an expanded container ends on a line holding only its indentation and closing token |
| `LayoutFacts.EntryStartsIndented` | rich/pretty.py:216-218 | in expanded layout each entry starts a new line whose first fragment is the indentation one level deeper |
| `LayoutFacts.ApplyExtends` | rich/pretty.py:187-192 | the calls only write at the end of the current line or add lines; the earlier lines are never touched |
| `Examples.CycleRendersEllipsis` | rich/pretty.py:199-203 | `L = [1]; L.append(L)` is written `[1, ...]` |
| `Examples.SharedRendersInFull` | rich/pretty.py:199-205 | `x = [1]; y = [x, x]` is written `[[1], [1]]`: a shared object with no cycle is not taken for a recursion |
| `Examples.WideLeafTwoAttempts` | rich/pretty.py:189-197 | a leaf eight cells wide at width 5 makes no line break yet takes two attempts: the first aborts with `line_break` 1, the second lets line 1 through and writes the leaf |
| `Examples.FourAttempts` | rich/pretty.py:182-197 | `{'a': 1, 'b': 2}` at width 5 ends at `expand_level` 3, after four attempts, with the text `{`, `    'a': 1, `, `    'b': 2`, `}` on four lines |

## Left out

- `install` and its display hook (lines 26-49): these are console I/O.
- The `Pretty` renderable (lines 52-87) and `Measurement`: these concern console rendering and measurement.
- The debug `print` of `max_width` (line 147): this is output only.
- The highlighter and the `Text` object (lines 156-157 and 253-256): the model returns the plain string that is passed to `Text`. `overflow` and `no_wrap` only go to `Text`.
- `cell_len` of a string is modelled as its length: the East Asian width tables of `rich.cells` are not part of this model.
- `repr` itself is not modelled: each object carries its outcome, a text or an exception message. How the exception prints inside the placeholder is taken as that message.
- `id()` is an `Id` key of the heap.
- Dict and set iteration order is the order of a node's entries.
- `loop_last` is modelled as "the index is the last one".
- The `MaxLineReached` exception is an `Outcome` value returned through the call chain. The level it carries is kept in the model, though the loop never reads it.
- `while True` with `break` is written as a loop on a `finished` flag.
- Python integers are unbounded, and so are the model's. No width wraps around.
- The defaults `max_width=80` and `indent_size=4` (lines 130-131) are not modelled: `Pretty.PrettyRepr` takes every argument.
- Only `Exception` is caught around `repr` (line 175): a `repr` that raises `KeyboardInterrupt` or `SystemExit` ends `pretty_repr` by that exception. The model has one kind of raise, and every one becomes the placeholder.
- Python's recursion limit is not modelled. A graph nested deeper than the limit makes `traverse` itself raise `RecursionError`, which escapes `pretty_repr`, since only one raised inside `repr` is caught. The model's walk has no depth limit.
- The repr cache (lines 164-178) has no visible effect in the model. Each object's `repr` outcome is fixed, so the cached text is always the one a fresh call would give. A `repr` whose text changes from one call to the next, the case the cache exists for, cannot be expressed.
- The `__main__` demonstrations (lines 260-299) are not modelled.
- `Pretty.Renderer.Traverse`: does not state that the repr cache only grows during an attempt. That it survives the retries is stated by `Pretty.Renderer.Restart`, and its contents are correct by the `Valid` invariant.
