/**
 * The Python objects `pretty_repr` walks, as a heap addressed by identity.
 * An `Id` plays the part of `id(obj)`: two distinct objects with equal
 * contents are two distinct ids.
 */
module Values {
  import opened Wrappers

  type Id = nat

  /** The five builtin container types of `_BRACES`. */
  datatype Kind = Dict | FrozenSet | List | Set | Tuple

  /** The exact type of an object, as far as `type(node) in _CONTAINERS` can tell. */
  datatype PyType =
    | Exactly(kind: Kind)     // `type(node)` is the builtin itself
    | SubclassOf(base: Kind)  // a user class that derives from a builtin container
    | OtherType               // any other type

  /** What calling `repr(obj)` does: return a string or raise an exception. */
  datatype ReprOutcome = Returns(text: string) | Raises(message: string)

  /** One entry of a container: a plain element, or a key/value pair of a dict. */
  datatype Entry = Item(value: Id) | Pair(key: Id, value: Id)

  /** An object: its type, what `repr` does on it, and its entries in iteration order. */
  datatype Node = Node(ty: PyType, repr: ReprOutcome, entries: seq<Entry>)

  type Heap = map<Id, Node>

  /** A row of `_BRACES`: opening token, closing token, token of the empty container. */
  datatype Braces = Braces(open: string, close: string, empty: string)

  /**
   * The `_BRACES` table. Dict and set share their braces; the empty token is
   * the bare brace pair only for dict and list, the others spell out their type.
   */
  function BracesOf(k: Kind): (b: Braces)
    ensures b.open == "{" <==> k == Dict || k == Set
    ensures b.empty == b.open + b.close <==> k == Dict || k == List
  {
    match k
    case Dict => Braces("{", "}", "{}")
    case FrozenSet => Braces("frozenset({", "})", "frozenset()")
    case List => Braces("[", "]", "[]")
    case Set => Braces("{", "}", "set()")
    case Tuple => Braces("(", ")", "tuple()")
  }

  /** `type(node) in _CONTAINERS`: only an exact builtin type is a container. */
  function ContainerKind(ty: PyType): (r: Option<Kind>)
    ensures r.Some? ==> ty == Exactly(r.value)
    ensures ty.SubclassOf? || ty.OtherType? ==> r == None
  {
    if ty.Exactly? then Some(ty.kind) else None
  }

  /**
   * The text `to_repr_text` produces for an object, before any caching: what
   * `repr` returned, or the placeholder, from which the message reads back.
   */
  function ReprText(o: ReprOutcome): (t: string)
    ensures o.Returns? ==> t == o.text
    ensures o.Raises? ==> |t| == |o.message| + 17 && t[..16] == "<error in repr: " && t[16..|t| - 1] == o.message && t[|t| - 1] == '>'
  {
    match o
    case Returns(text) => text
    case Raises(message) => "<error in repr: " + message + ">"
  }

  /** An entry refers to objects of the heap; a dict iterates pairs, the other builtins plain items. */
  ghost predicate EntryOk(heap: Heap, ty: PyType, e: Entry)
  {
    && e.value in heap
    && (e.Pair? ==> e.key in heap)
    && (ty.Exactly? ==> (e.Pair? <==> ty.kind == Dict))
  }

  ghost predicate NodeOk(heap: Heap, node: Node)
  {
    forall j :: 0 <= j < |node.entries| ==> EntryOk(heap, node.ty, node.entries[j])
  }

  /** The heap is closed: every object it mentions is in it. */
  ghost predicate WellFormed(heap: Heap)
  {
    forall id :: id in heap ==> NodeOk(heap, heap[id])
  }

  /** The empty token tells every container kind apart, `set()` from `{}` included. */
  lemma EmptyTokenIdentifiesKind(k1: Kind, k2: Kind)
    ensures BracesOf(k1).empty == BracesOf(k2).empty ==> k1 == k2
  {
  }
}
