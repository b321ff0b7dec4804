/** String helpers: display width, `" " * n`, `"".join` and `sep.join`. */
module Strings {

  /** The display width of a string (`rich.cells.cell_len`); every character is one cell. */
  function CellLen(s: string): nat
  {
    |s|
  }

  /** `s.endswith(" ")`. */
  predicate EndsWithSpace(s: string)
  {
    |s| > 0 && s[|s| - 1] == ' '
  }

  /** `" " * n`. */
  function Spaces(n: nat): (s: string)
    ensures |s| == n
    ensures forall i :: 0 <= i < n ==> s[i] == ' '
  {
    if n == 0 then "" else Spaces(n - 1) + " "
  }

  /** `"".join(parts)`. */
  function Concat(parts: seq<string>): string
  {
    if parts == [] then "" else Concat(parts[..|parts| - 1]) + parts[|parts| - 1]
  }

  /** `sep.join(items)`: the separator goes between items, never after the last. */
  function JoinWith(sep: string, items: seq<string>): string
  {
    if |items| == 0 then ""
    else if |items| == 1 then items[0]
    else items[0] + sep + JoinWith(sep, items[1..])
  }

  /** The string with every space character removed. */
  function NoSpaces(s: string): string
  {
    if s == "" then ""
    else (if s[0] == ' ' then "" else [s[0]]) + NoSpaces(s[1..])
  }

  lemma JoinWithCons(sep: string, x: string, rest: seq<string>)
    ensures JoinWith(sep, [x] + rest) == x + (if rest == [] then "" else sep + JoinWith(sep, rest))
  {
    assert ([x] + rest)[1..] == rest;
  }

  lemma {:induction false} ConcatAppend(a: seq<string>, b: seq<string>)
    ensures Concat(a + b) == Concat(a) + Concat(b)
    decreases |b|
  {
    if b == [] {
      assert a + b == a;
    } else {
      var b' := b[..|b| - 1];
      var last := b[|b| - 1];
      assert (a + b)[..|a + b| - 1] == a + b' && (a + b)[|a + b| - 1] == last;
      assert Concat(a + b) == Concat(a + b') + last;
      assert Concat(b) == Concat(b') + last;
      ConcatAppend(a, b');
    }
  }

  lemma {:induction false} NoSpacesAppend(a: string, b: string)
    ensures NoSpaces(a + b) == NoSpaces(a) + NoSpaces(b)
    decreases |a|
  {
    if a == "" {
      assert a + b == b;
    } else {
      assert (a + b)[0] == a[0];
      assert (a + b)[1..] == a[1..] + b;
      NoSpacesAppend(a[1..], b);
    }
  }

  lemma {:induction false} NoSpacesOfSpaces(n: nat)
    ensures NoSpaces(Spaces(n)) == ""
  {
    if n > 0 {
      NoSpacesOfSpaces(n - 1);
      NoSpacesAppend(Spaces(n - 1), " ");
    }
  }
}
