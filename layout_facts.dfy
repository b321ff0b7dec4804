/** What the calls of one attempt add up to: line counts, the one-line form, content kept under expansion. */
module LayoutFacts {
  import opened Values
  import opened Strings
  import opened Layout

  lemma {:induction false} TextsAppend(a: seq<Op>, b: seq<Op>)
    ensures Texts(a + b) == Texts(a) + Texts(b)
    decreases |a|
  {
    if a == [] {
      assert a + b == b;
    } else {
      assert (a + b)[1..] == a[1..] + b;
      TextsAppend(a[1..], b);
    }
  }

  lemma {:induction false} BreaksAppend(a: seq<Op>, b: seq<Op>)
    ensures Breaks(a + b) == Breaks(a) + Breaks(b)
    decreases |a|
  {
    if a == [] {
      assert a + b == b;
    } else {
      assert (a + b)[1..] == a[1..] + b;
      BreaksAppend(a[1..], b);
    }
  }

  /** The ops of short call sequences, unfolded once and for all. */
  lemma ShortOps(a: string, b: string, level: nat, doc: Document)
    ensures Breaks([]) == 0 && Texts([]) == ""
    ensures Breaks([Put(a, level)]) == 0 && Texts([Put(a, level)]) == a
    ensures Breaks([Break, Put(a, level)]) == 1 && Texts([Break, Put(a, level)]) == a
    ensures Breaks([Put(a, level), Put(b, level)]) == 0 && Texts([Put(a, level), Put(b, level)]) == a + b
    ensures Apply([Break, Put(a, level)], doc) == doc + [[a]]
  {
    assert [Put(a, level)][1..] == [];
    assert [Break, Put(a, level)][1..] == [Put(a, level)];
    assert [Put(a, level), Put(b, level)][1..] == [Put(b, level)];
    assert [Put(b, level)][1..] == [];
    var d: Document := doc + [[]];
    assert Apply([Break, Put(a, level)], doc) == Apply([Put(a, level)], d);
    assert Apply([Put(a, level)], d) == Apply([], AppendToLast(d, a));
    assert d[..|d| - 1] == doc;
    assert d[|d| - 1] + [a] == [a];
    assert AppendToLast(d, a) == doc + [[a]];
  }

  lemma {:induction false} ApplyAppend(a: seq<Op>, b: seq<Op>, doc: Document)
    ensures Apply(a + b, doc) == Apply(b, Apply(a, doc))
    decreases |a|
  {
    if a == [] {
      assert a + b == b;
    } else {
      assert (a + b)[0] == a[0];
      assert (a + b)[1..] == a[1..] + b;
      var d := match a[0] case Break => doc + [[]] case Put(text, _) => AppendToLast(doc, text);
      ApplyAppend(a[1..], b, d);
    }
  }

  /** Every `Break` adds one line, nothing else does. */
  lemma {:induction false} ApplyLength(ops: seq<Op>, doc: Document)
    ensures |Apply(ops, doc)| == |doc| + Breaks(ops)
    decreases |ops|
  {
    if ops != [] {
      var d := match ops[0] case Break => doc + [[]] case Put(text, _) => AppendToLast(doc, text);
      ApplyLength(ops[1..], d);
    }
  }

  /**
   * The calls only ever write to the current line: earlier lines stay as they
   * are and the current line only gains fragments at its end.
   */
  lemma {:induction false} ApplyExtends(ops: seq<Op>, doc: Document)
    ensures |Apply(ops, doc)| >= |doc|
    ensures Apply(ops, doc)[..|doc| - 1] == doc[..|doc| - 1]
    ensures doc[|doc| - 1] <= Apply(ops, doc)[|doc| - 1]
    decreases |ops|
  {
    if ops != [] {
      var d := match ops[0] case Break => doc + [[]] case Put(text, _) => AppendToLast(doc, text);
      ApplyExtends(ops[1..], d);
      var r := Apply(ops[1..], d);
      assert r == Apply(ops, doc);
      if ops[0] == Break {
        assert r[..|doc| - 1] == r[..|d| - 1][..|doc| - 1];
        assert r[|doc| - 1] == r[..|d| - 1][|doc| - 1];
      }
    }
  }

  /** Without a `Break`, the calls only extend the current line, by exactly what they write. */
  lemma {:induction false} ApplyNoBreaks(ops: seq<Op>, doc: Document)
    requires Breaks(ops) == 0
    ensures |Apply(ops, doc)| == |doc|
    ensures Apply(ops, doc)[..|doc| - 1] == doc[..|doc| - 1]
    ensures Concat(Apply(ops, doc)[|doc| - 1]) == Concat(doc[|doc| - 1]) + Texts(ops)
    decreases |ops|
  {
    if ops != [] {
      var text := ops[0].text;
      var d := AppendToLast(doc, text);
      ApplyNoBreaks(ops[1..], d);
      assert d[|d| - 1] == doc[|doc| - 1] + [text];
      assert d[..|d| - 1] == doc[..|doc| - 1];
      assert (doc[|doc| - 1] + [text])[..|doc[|doc| - 1]|] == doc[|doc| - 1];
    } else {
      assert Texts(ops) == "";
    }
  }

  /** What one entry writes, piece by piece. */
  lemma EntryTexts(st: Style, id: Id, level: nat, visited: set<Id>, i: nat)
    requires WellFormed(st.heap) && id in st.heap && id !in visited
    requires i < |st.heap[id].entries|
    ensures st.heap[id].entries[i].value in st.heap
    ensures Texts(EntryOps(st, id, level, visited, i))
         == Texts(EntryHead(st, level))
          + Texts(KeyOps(st.heap, st.heap[id].entries[i], level))
          + Texts(Emit(st, st.heap[id].entries[i].value, level + 1, visited + {id}))
          + (if i == |st.heap[id].entries| - 1 then "" else ", ")
  {
    var entries := st.heap[id].entries;
    var e := entries[i];
    assert NodeOk(st.heap, st.heap[id]);
    var h := EntryHead(st, level);
    var kOps := KeyOps(st.heap, e, level);
    var c := Emit(st, e.value, level + 1, visited + {id});
    var s: seq<Op> := if i == |entries| - 1 then [] else [Put(", ", level)];
    assert EntryOps(st, id, level, visited, i) == h + kOps + c + s;
    ShortOps(Indent(st.indentSize, level + 1), "", level, [[]]);
    ShortOps(", ", "", level, [[]]);
    if e.Pair? {
      ShortOps(ReprText(st.heap[e.key].repr), ": ", level, [[]]);
    }
    TextsAppend(h + kOps + c, s);
    TextsAppend(h + kOps, c);
    TextsAppend(h, kOps);
    if s != [] {
      assert s[1..] == [];
    }
  }

  lemma EntryBreaks(st: Style, id: Id, level: nat, visited: set<Id>, i: nat)
    requires WellFormed(st.heap) && id in st.heap && id !in visited
    requires i < |st.heap[id].entries|
    ensures st.heap[id].entries[i].value in st.heap
    ensures Breaks(EntryOps(st, id, level, visited, i))
         == (if level < st.expandLevel then 1 else 0)
          + Breaks(Emit(st, st.heap[id].entries[i].value, level + 1, visited + {id}))
  {
    var entries := st.heap[id].entries;
    var e := entries[i];
    assert NodeOk(st.heap, st.heap[id]);
    var h := EntryHead(st, level);
    var kOps := KeyOps(st.heap, e, level);
    var c := Emit(st, e.value, level + 1, visited + {id});
    var s: seq<Op> := if i == |entries| - 1 then [] else [Put(", ", level)];
    assert EntryOps(st, id, level, visited, i) == h + kOps + c + s;
    ShortOps(Indent(st.indentSize, level + 1), "", level, [[]]);
    ShortOps(", ", "", level, [[]]);
    if e.Pair? {
      ShortOps(ReprText(st.heap[e.key].repr), ": ", level, [[]]);
    }
    BreaksAppend(h + kOps + c, s);
    BreaksAppend(h + kOps, c);
    BreaksAppend(h, kOps);
  }

  lemma ContainerOps(st: Style, id: Id, level: nat, visited: set<Id>)
    requires WellFormed(st.heap) && id in st.heap && id !in visited
    requires st.heap[id].ty.Exactly? && |st.heap[id].entries| > 0
    ensures Texts(Emit(st, id, level, visited))
         == BracesOf(st.heap[id].ty.kind).open
          + Texts(EntriesFrom(st, id, level, visited, 0))
          + Texts(Closing(st, st.heap[id].ty.kind, level))
    ensures Breaks(Emit(st, id, level, visited))
         == Breaks(EntriesFrom(st, id, level, visited, 0)) + (if level < st.expandLevel then 1 else 0)
  {
    var k := st.heap[id].ty.kind;
    var o: seq<Op> := [Put(BracesOf(k).open, level)];
    var es := EntriesFrom(st, id, level, visited, 0);
    var c := Closing(st, k, level);
    assert Emit(st, id, level, visited) == o + es + c;
    ShortOps(BracesOf(k).open, "", level, [[]]);
    ShortOps(BracesOf(k).close, "", level, [[]]);
    ShortOps(Indent(st.indentSize, level) + BracesOf(k).close, "", level, [[]]);
    TextsAppend(o + es, c);
    TextsAppend(o, es);
    BreaksAppend(o + es, c);
    BreaksAppend(o, es);
  }

  // ---------------------------------------------------------------------
  // Inline layout

  /**
   * Only an object whose type is exactly one of the five builtins is laid out
   * as a container: anything else, a subclass of `dict` or `list` included,
   * is one fragment, its `repr`. An empty container is its empty token, a
   * non-empty one starts with its opening token.
   */
  lemma ExactTypesOnly(st: Style, id: Id, level: nat, visited: set<Id>)
    requires WellFormed(st.heap) && id in st.heap && id !in visited
    ensures !st.heap[id].ty.Exactly? ==> Emit(st, id, level, visited) == [Put(ReprText(st.heap[id].repr), level)]
    ensures st.heap[id].ty.Exactly? && |st.heap[id].entries| == 0 ==>
      Emit(st, id, level, visited) == [Put(BracesOf(st.heap[id].ty.kind).empty, level)]
    ensures st.heap[id].ty.Exactly? && |st.heap[id].entries| > 0 ==>
      Emit(st, id, level, visited)[0] == Put(BracesOf(st.heap[id].ty.kind).open, level)
  {
  }

  /** A node at or below `expand_level` never starts a new line, nor does anything inside it. */
  lemma {:induction false} InlineNoBreaks(st: Style, id: Id, level: nat, visited: set<Id>)
    requires WellFormed(st.heap) && id in st.heap && st.expandLevel <= level
    ensures Breaks(Emit(st, id, level, visited)) == 0
    decreases |st.heap.Keys - visited|, 2, 0
  {
    if id !in visited && st.heap[id].ty.Exactly? && |st.heap[id].entries| > 0 {
      EntriesNoBreaks(st, id, level, visited, 0);
      ContainerOps(st, id, level, visited);
    }
  }

  lemma {:induction false} EntriesNoBreaks(st: Style, id: Id, level: nat, visited: set<Id>, i: nat)
    requires WellFormed(st.heap) && id in st.heap && id !in visited && st.expandLevel <= level
    requires i <= |st.heap[id].entries|
    ensures Breaks(EntriesFrom(st, id, level, visited, i)) == 0
    decreases |st.heap.Keys - visited|, 1, |st.heap[id].entries| - i
  {
    if i < |st.heap[id].entries| {
      EntryBreaks(st, id, level, visited, i);
      VisitShrinks(st.heap.Keys, visited, id);
      InlineNoBreaks(st, st.heap[id].entries[i].value, level + 1, visited + {id});
      EntriesNoBreaks(st, id, level, visited, i + 1);
      BreaksAppend(EntryOps(st, id, level, visited, i), EntriesFrom(st, id, level, visited, i + 1));
    }
  }

  /**
   * Inline layout writes exactly the one-line reference rendering: entries
   * separated by `", "` with none after the last, dict entries as
   * `repr(key) + ": " + value`, a revisited ancestor as `...`.
   */
  lemma {:induction false} InlineMatchesReference(st: Style, id: Id, level: nat, visited: set<Id>)
    requires WellFormed(st.heap) && id in st.heap && st.expandLevel <= level
    ensures Texts(Emit(st, id, level, visited)) == InlineRepr(st.heap, id, visited)
    decreases |st.heap.Keys - visited|, 2, 0
  {
    if id !in visited && st.heap[id].ty.Exactly? && |st.heap[id].entries| > 0 {
      EntriesMatchReference(st, id, level, visited, 0);
      ContainerOps(st, id, level, visited);
    }
  }

  lemma {:induction false} EntriesMatchReference(st: Style, id: Id, level: nat, visited: set<Id>, i: nat)
    requires WellFormed(st.heap) && id in st.heap && id !in visited && st.expandLevel <= level
    requires i <= |st.heap[id].entries|
    ensures Texts(EntriesFrom(st, id, level, visited, i)) == JoinWith(", ", InlineEntries(st.heap, id, visited, i))
    decreases |st.heap.Keys - visited|, 1, |st.heap[id].entries| - i
  {
    var n := |st.heap[id].entries|;
    if i < n {
      var e := st.heap[id].entries[i];
      assert NodeOk(st.heap, st.heap[id]) && EntryOk(st.heap, st.heap[id].ty, e);
      VisitShrinks(st.heap.Keys, visited, id);
      InlineMatchesReference(st, e.value, level + 1, visited + {id});
      EntryMatches(st, id, level, visited, i);
      EntriesMatchReference(st, id, level, visited, i + 1);
      TextsAppend(EntryOps(st, id, level, visited, i), EntriesFrom(st, id, level, visited, i + 1));
      var rest := InlineEntries(st.heap, id, visited, i + 1);
      JoinWithCons(", ", InlineEntry(st.heap, id, visited, i), rest);
      if i + 1 == n {
        assert rest == [];
      }
    }
  }

  /** The text of one entry in inline layout, given that of its value. */
  lemma EntryMatches(st: Style, id: Id, level: nat, visited: set<Id>, i: nat)
    requires WellFormed(st.heap) && id in st.heap && id !in visited && st.expandLevel <= level
    requires i < |st.heap[id].entries| && st.heap[id].entries[i].value in st.heap
    requires Texts(Emit(st, st.heap[id].entries[i].value, level + 1, visited + {id}))
          == InlineRepr(st.heap, st.heap[id].entries[i].value, visited + {id})
    ensures Texts(EntryOps(st, id, level, visited, i))
         == InlineEntry(st.heap, id, visited, i) + (if i == |st.heap[id].entries| - 1 then "" else ", ")
  {
    var e := st.heap[id].entries[i];
    EntryTexts(st, id, level, visited, i);
    KeyAndValue(st.heap, id, visited, i, level);
    assert EntryHead(st, level) == [];
    ShortOps("", "", level, [[]]);
    DropEmpty(Texts(EntryHead(st, level)), Texts(KeyOps(st.heap, e, level)),
      InlineRepr(st.heap, e.value, visited + {id}), if i == |st.heap[id].entries| - 1 then "" else ", ");
  }

  /**
   * An empty head adds nothing in front of an entry. Stated over plain
   * strings so that the solver does not unfold `NoSpaces` over the
   * concatenations.
   */
  lemma DropEmpty(empty: string, a: string, b: string, c: string)
    requires empty == ""
    ensures empty + a + b + c == (a + b) + c
  {
  }

  /** An entry is its key part (`repr(key) + ": "` for a dict) followed by its value. */
  lemma KeyAndValue(heap: Heap, id: Id, visited: set<Id>, i: nat, level: nat)
    requires WellFormed(heap) && id in heap && id !in visited
    requires i < |heap[id].entries|
    ensures heap[id].entries[i].Pair? ==> heap[id].entries[i].key in heap
    ensures InlineEntry(heap, id, visited, i)
         == Texts(KeyOps(heap, heap[id].entries[i], level)) + InlineRepr(heap, heap[id].entries[i].value, visited + {id})
  {
    var e := heap[id].entries[i];
    assert NodeOk(heap, heap[id]) && EntryOk(heap, heap[id].ty, e);
    match e
    case Pair(key, value) =>
      ShortOps(ReprText(heap[key].repr), ": ", level, [[]]);
    case Item(value) =>
      ShortOps("", "", level, [[]]);
  }

  // ---------------------------------------------------------------------
  // Expanded layout

  /**
   * Expanding changes only where spaces and line breaks go: with every space
   * removed, what an attempt writes at any expansion level is what the
   * one-line rendering holds.
   */
  lemma {:induction false} ExpansionKeepsContent(st: Style, id: Id, level: nat, visited: set<Id>)
    requires WellFormed(st.heap) && id in st.heap
    ensures NoSpaces(Texts(Emit(st, id, level, visited))) == NoSpaces(InlineRepr(st.heap, id, visited))
    decreases |st.heap.Keys - visited|, 2, 0
  {
    if id !in visited && st.heap[id].ty.Exactly? && |st.heap[id].entries| > 0 {
      EntriesKeepContent(st, id, level, visited, 0);
      ContainerKeepsContent(st, id, level, visited);
    } else {
      assert Emit(st, id, level, visited) == [Put(InlineRepr(st.heap, id, visited), level)];
      ShortOps(InlineRepr(st.heap, id, visited), "", level, [[]]);
    }
  }

  /** A container keeps its content at any expansion level, given that its entries do. */
  lemma ContainerKeepsContent(st: Style, id: Id, level: nat, visited: set<Id>)
    requires WellFormed(st.heap) && id in st.heap && id !in visited
    requires st.heap[id].ty.Exactly? && |st.heap[id].entries| > 0
    requires NoSpaces(Texts(EntriesFrom(st, id, level, visited, 0)))
          == NoSpaces(JoinWith(", ", InlineEntries(st.heap, id, visited, 0)))
    ensures NoSpaces(Texts(Emit(st, id, level, visited))) == NoSpaces(InlineRepr(st.heap, id, visited))
  {
    var k := st.heap[id].ty.kind;
    var b := BracesOf(k);
    ContainerOps(st, id, level, visited);
    var es := Texts(EntriesFrom(st, id, level, visited, 0));
    var js := JoinWith(", ", InlineEntries(st.heap, id, visited, 0));
    var cl := Texts(Closing(st, k, level));
    assert NoSpaces(cl) == NoSpaces(b.close) by {
      if level < st.expandLevel {
        var ind := Indent(st.indentSize, level);
        ShortOps(ind + b.close, "", level, [[]]);
        NoSpacesAppend(ind, b.close);
        NoSpacesOfSpaces(st.indentSize * level);
      } else {
        ShortOps(b.close, "", level, [[]]);
      }
    }
    assert InlineRepr(st.heap, id, visited) == b.open + js + b.close;
    NoSpacesAppend(b.open + es, cl);
    NoSpacesAppend(b.open, es);
    NoSpacesAppend(b.open + js, b.close);
    NoSpacesAppend(b.open, js);
  }

  lemma {:induction false} EntriesKeepContent(st: Style, id: Id, level: nat, visited: set<Id>, i: nat)
    requires WellFormed(st.heap) && id in st.heap && id !in visited
    requires i <= |st.heap[id].entries|
    ensures NoSpaces(Texts(EntriesFrom(st, id, level, visited, i)))
         == NoSpaces(JoinWith(", ", InlineEntries(st.heap, id, visited, i)))
    decreases |st.heap.Keys - visited|, 1, |st.heap[id].entries| - i
  {
    var n := |st.heap[id].entries|;
    if i < n {
      var e := st.heap[id].entries[i];
      assert NodeOk(st.heap, st.heap[id]) && EntryOk(st.heap, st.heap[id].ty, e);
      VisitShrinks(st.heap.Keys, visited, id);
      ExpansionKeepsContent(st, e.value, level + 1, visited + {id});
      EntryKeepsContent(st, id, level, visited, i);
      EntriesKeepContent(st, id, level, visited, i + 1);
      var ops := EntryOps(st, id, level, visited, i);
      var tail := EntriesFrom(st, id, level, visited, i + 1);
      assert EntriesFrom(st, id, level, visited, i) == ops + tail;
      var entry := InlineEntry(st.heap, id, visited, i);
      var rest := InlineEntries(st.heap, id, visited, i + 1);
      var sep := if i == n - 1 then "" else ", ";
      TextsAppend(ops, tail);
      NoSpacesAppend(Texts(ops), Texts(tail));
      NoSpacesJoin(entry, rest);
      assert InlineEntries(st.heap, id, visited, i) == [entry] + rest;
      assert (if rest == [] then "" else ", ") == sep;
      Sum(NoSpaces(Texts(ops + tail)), NoSpaces(Texts(ops)), NoSpaces(Texts(tail)), NoSpaces(entry), NoSpaces(sep),
        NoSpaces(JoinWith(", ", rest)), NoSpaces(JoinWith(", ", [entry] + rest)));
    }
  }

  /**
   * The string algebra behind `EntriesKeepContent`, with the removals named,
   * so that the solver does not unfold `NoSpaces` over the concatenations.
   */
  lemma Sum(whole: string, ops: string, tail: string, entry: string, sep: string, rest: string, joined: string)
    requires whole == ops + tail && ops == entry + sep && tail == rest && joined == entry + sep + rest
    ensures whole == joined
  { }

  lemma NoSpacesJoin(entry: string, rest: seq<string>)
    ensures NoSpaces(JoinWith(", ", [entry] + rest))
         == NoSpaces(entry) + NoSpaces(if rest == [] then "" else ", ") + NoSpaces(JoinWith(", ", rest))
  {
    JoinWithCons(", ", entry, rest);
    if rest == [] {
      assert NoSpaces("") == "";
      assert JoinWith(", ", rest) == "";
      assert entry + "" == entry;
    } else {
      var j := JoinWith(", ", rest);
      assert entry + (", " + j) == entry + ", " + j;
      NoSpacesAppend(entry + ", ", j);
      NoSpacesAppend(entry, ", ");
    }
  }

  /** The content of one entry at any expansion level, given that of its value. */
  lemma EntryKeepsContent(st: Style, id: Id, level: nat, visited: set<Id>, i: nat)
    requires WellFormed(st.heap) && id in st.heap && id !in visited
    requires i < |st.heap[id].entries| && st.heap[id].entries[i].value in st.heap
    requires NoSpaces(Texts(Emit(st, st.heap[id].entries[i].value, level + 1, visited + {id})))
          == NoSpaces(InlineRepr(st.heap, st.heap[id].entries[i].value, visited + {id}))
    ensures NoSpaces(Texts(EntryOps(st, id, level, visited, i)))
         == NoSpaces(InlineEntry(st.heap, id, visited, i)) + NoSpaces(if i == |st.heap[id].entries| - 1 then "" else ", ")
  {
    var e := st.heap[id].entries[i];
    EntryTexts(st, id, level, visited, i);
    var head := Texts(EntryHead(st, level));
    var key := Texts(KeyOps(st.heap, e, level));
    var child := Texts(Emit(st, e.value, level + 1, visited + {id}));
    var ref := InlineRepr(st.heap, e.value, visited + {id});
    var sep := if i == |st.heap[id].entries| - 1 then "" else ", ";
    HeadHasNoContent(st, level);
    KeyAndValue(st.heap, id, visited, i, level);
    EntryContent(head, key, child, ref, sep);
  }

  /** Removing spaces from head, key, value and separator, given a head of spaces only. */
  lemma EntryContent(head: string, key: string, child: string, ref: string, sep: string)
    requires NoSpaces(head) == "" && NoSpaces(child) == NoSpaces(ref)
    ensures NoSpaces(head + key + child + sep) == NoSpaces(key + ref) + NoSpaces(sep)
  {
    NoSpacesAppend(head + key + child, sep);
    NoSpacesAppend(head + key, child);
    NoSpacesAppend(head, key);
    NoSpacesAppend(key, ref);
    Chain(NoSpaces(head + key + child + sep), NoSpaces(head + key + child), NoSpaces(head + key),
      NoSpaces(head), NoSpaces(key), NoSpaces(child), NoSpaces(ref), NoSpaces(sep), NoSpaces(key + ref));
  }

  /**
   * The string algebra behind `EntryContent`, with the removals named, so
   * that the solver does not unfold `NoSpaces` over the concatenations.
   */
  lemma Chain(all: string, hkc: string, hk: string, h: string, k: string, c: string, r: string, s: string, kr: string)
    requires all == hkc + s && hkc == hk + c && hk == h + k && h == "" && c == r && kr == k + r
    ensures all == kr + s
  { }

  lemma HeadHasNoContent(st: Style, level: nat)
    ensures NoSpaces(Texts(EntryHead(st, level))) == ""
  {
    ShortOps("", "", level, [[]]);
    ShortOps(Indent(st.indentSize, level + 1), "", level, [[]]);
    NoSpacesOfSpaces(st.indentSize * (level + 1));
  }

  /** No attempt, at any expansion level, starts more new lines than `LineBound`. */
  lemma {:induction false} BreaksBounded(st: Style, id: Id, level: nat, visited: set<Id>)
    requires WellFormed(st.heap) && id in st.heap
    ensures Breaks(Emit(st, id, level, visited)) <= LineBound(st.heap, id, visited)
    decreases |st.heap.Keys - visited|, 2, 0
  {
    if id !in visited && st.heap[id].ty.Exactly? && |st.heap[id].entries| > 0 {
      EntriesBreaksBounded(st, id, level, visited, 0);
      ContainerOps(st, id, level, visited);
    }
  }

  lemma {:induction false} EntriesBreaksBounded(st: Style, id: Id, level: nat, visited: set<Id>, i: nat)
    requires WellFormed(st.heap) && id in st.heap && id !in visited
    requires i <= |st.heap[id].entries|
    ensures Breaks(EntriesFrom(st, id, level, visited, i))
         <= |st.heap[id].entries| - i + EntriesBound(st.heap, id, visited, i)
    decreases |st.heap.Keys - visited|, 1, |st.heap[id].entries| - i
  {
    if i < |st.heap[id].entries| {
      EntryBreaks(st, id, level, visited, i);
      VisitShrinks(st.heap.Keys, visited, id);
      BreaksBounded(st, st.heap[id].entries[i].value, level + 1, visited + {id});
      EntriesBreaksBounded(st, id, level, visited, i + 1);
      BreaksAppend(EntryOps(st, id, level, visited, i), EntriesFrom(st, id, level, visited, i + 1));
    }
  }

  /** The new lines the values of entries `i..` of container `id` start, one level deeper. */
  ghost function ChildBreaks(st: Style, id: Id, level: nat, visited: set<Id>, i: nat): nat
    requires WellFormed(st.heap) && id in st.heap
    requires i <= |st.heap[id].entries|
    decreases |st.heap[id].entries| - i
  {
    if i == |st.heap[id].entries| then 0
    else
      assert EntryOk(st.heap, st.heap[id].ty, st.heap[id].entries[i]);
      Breaks(Emit(st, st.heap[id].entries[i].value, level + 1, visited + {id})) + ChildBreaks(st, id, level, visited, i + 1)
  }

  /**
   * An expanded container starts one line per entry and one for its closing
   * brace, besides the lines its entries' values start themselves.
   */
  lemma ExpandedLineCount(st: Style, id: Id, level: nat, visited: set<Id>)
    requires WellFormed(st.heap) && id in st.heap && id !in visited
    requires st.heap[id].ty.Exactly? && |st.heap[id].entries| > 0
    requires level < st.expandLevel
    ensures Breaks(Emit(st, id, level, visited)) == |st.heap[id].entries| + 1 + ChildBreaks(st, id, level, visited, 0)
  {
    EntriesExpandedLines(st, id, level, visited, 0);
    ContainerOps(st, id, level, visited);
  }

  lemma {:induction false} EntriesExpandedLines(st: Style, id: Id, level: nat, visited: set<Id>, i: nat)
    requires WellFormed(st.heap) && id in st.heap && id !in visited
    requires i <= |st.heap[id].entries|
    requires level < st.expandLevel
    ensures Breaks(EntriesFrom(st, id, level, visited, i)) == |st.heap[id].entries| - i + ChildBreaks(st, id, level, visited, i)
    decreases |st.heap[id].entries| - i
  {
    if i < |st.heap[id].entries| {
      EntryBreaks(st, id, level, visited, i);
      EntriesExpandedLines(st, id, level, visited, i + 1);
      BreaksAppend(EntryOps(st, id, level, visited, i), EntriesFrom(st, id, level, visited, i + 1));
    }
  }

  /**
   * A container expanded at the deepest expanded level, its entries inline,
   * starts exactly one line per entry plus one for its closing brace.
   */
  lemma InnermostLineCount(st: Style, id: Id, level: nat, visited: set<Id>)
    requires WellFormed(st.heap) && id in st.heap && id !in visited
    requires st.heap[id].ty.Exactly? && |st.heap[id].entries| > 0
    requires st.expandLevel == level + 1
    ensures Breaks(Emit(st, id, level, visited)) == |st.heap[id].entries| + 1
  {
    ExpandedLineCount(st, id, level, visited);
    ChildrenInline(st, id, level, visited, 0);
  }

  lemma {:induction false} ChildrenInline(st: Style, id: Id, level: nat, visited: set<Id>, i: nat)
    requires WellFormed(st.heap) && id in st.heap
    requires i <= |st.heap[id].entries|
    requires st.expandLevel == level + 1
    ensures ChildBreaks(st, id, level, visited, i) == 0
    decreases |st.heap[id].entries| - i
  {
    if i < |st.heap[id].entries| {
      assert EntryOk(st.heap, st.heap[id].ty, st.heap[id].entries[i]);
      InlineNoBreaks(st, st.heap[id].entries[i].value, level + 1, visited + {id});
      ChildrenInline(st, id, level, visited, i + 1);
    }
  }

  /** An expanded container ends with its closing brace alone on a new line, indented to its own depth. */
  lemma ExpandedClosesOnOwnLine(st: Style, id: Id, level: nat, visited: set<Id>, doc: Document)
    requires WellFormed(st.heap) && id in st.heap && id !in visited
    requires st.heap[id].ty.Exactly? && |st.heap[id].entries| > 0
    requires level < st.expandLevel
    ensures var d := Apply(Emit(st, id, level, visited), doc);
      d[|d| - 1] == [Indent(st.indentSize, level) + BracesOf(st.heap[id].ty.kind).close]
  {
    var k := st.heap[id].ty.kind;
    var front := [Put(BracesOf(k).open, level)] + EntriesFrom(st, id, level, visited, 0);
    var close: seq<Op> := [Break, Put(Indent(st.indentSize, level) + BracesOf(k).close, level)];
    assert Emit(st, id, level, visited) == front + close;
    ApplyAppend(front, close, doc);
    ShortOps(Indent(st.indentSize, level) + BracesOf(k).close, "", level, Apply(front, doc));
  }

  /** In expanded layout each entry starts a new line whose first fragment is the indentation one level deeper. */
  lemma EntryStartsIndented(st: Style, id: Id, level: nat, visited: set<Id>, i: nat, doc: Document)
    requires WellFormed(st.heap) && id in st.heap && id !in visited
    requires i < |st.heap[id].entries|
    requires level < st.expandLevel
    ensures var d := Apply(EntryOps(st, id, level, visited, i), doc);
      |d| > |doc| && |d[|doc|]| > 0 && d[|doc|][0] == Indent(st.indentSize, level + 1)
  {
    var e := st.heap[id].entries[i];
    var head := EntryHead(st, level);
    assert head == [Break, Put(Indent(st.indentSize, level + 1), level)];
    var rest := EntryOps(st, id, level, visited, i)[2..];
    assert EntryOps(st, id, level, visited, i) == head + rest;
    ApplyAppend(head, rest, doc);
    var d1 := Apply(head, doc);
    ShortOps(Indent(st.indentSize, level + 1), "", level, doc);
    assert d1 == doc + [[Indent(st.indentSize, level + 1)]];
    ApplyExtends(rest, d1);
  }

  /** No object can be reached from itself: every entry's value ranks below its container. */
  ghost predicate Ranked(heap: Heap, rank: map<Id, nat>)
  {
    && heap.Keys <= rank.Keys
    && forall id, j :: id in heap && 0 <= j < |heap[id].entries| ==>
         heap[id].entries[j].value in rank && rank[heap[id].entries[j].value] < rank[id]
  }

  /** Every object on the path down ranks above `r`. */
  ghost predicate RankedAbove(rank: map<Id, nat>, visited: set<Id>, r: nat)
  {
    forall v :: v in visited ==> v in rank && rank[v] > r
  }

  /**
   * In a graph with no cycle the path down never meets the object again, so
   * its one-line form inside its ancestors is the one it has on its own: an
   * object shared by several entries is written in full every time.
   */
  lemma {:induction false} AcyclicInline(heap: Heap, rank: map<Id, nat>, id: Id, visited: set<Id>)
    requires WellFormed(heap) && id in heap && Ranked(heap, rank)
    requires RankedAbove(rank, visited, rank[id])
    ensures InlineRepr(heap, id, visited) == InlineRepr(heap, id, {})
    decreases rank[id], 1
  {
    assert id !in visited;
    if ContainerKind(heap[id].ty).Some? && |heap[id].entries| > 0 {
      AcyclicEntries(heap, rank, id, visited, 0);
    }
  }

  lemma {:induction false} AcyclicEntries(heap: Heap, rank: map<Id, nat>, id: Id, visited: set<Id>, i: nat)
    requires WellFormed(heap) && id in heap && Ranked(heap, rank) && id !in visited
    requires RankedAbove(rank, visited, rank[id])
    requires i <= |heap[id].entries|
    ensures InlineEntries(heap, id, visited, i) == InlineEntries(heap, id, {}, i)
    decreases rank[id], 0, |heap[id].entries| - i
  {
    if i < |heap[id].entries| {
      var child := heap[id].entries[i].value;
      assert EntryOk(heap, heap[id].ty, heap[id].entries[i]);
      var none: set<Id> := {};
      assert none + {id} == {id};
      AcyclicInline(heap, rank, child, visited + {id});
      AcyclicInline(heap, rank, child, {id});
      AcyclicEntries(heap, rank, id, visited, i + 1);
    }
  }
}
