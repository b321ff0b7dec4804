/** The `_Line` buffer: fragments of one output line and a running width counter. */
module Lines {
  import opened Strings

  /** The sum of the widths of the fragments: what `_cell_len` keeps up to date. */
  function TotalCells(parts: seq<string>): int
  {
    if parts == [] then 0 else TotalCells(parts[..|parts| - 1]) + CellLen(parts[|parts| - 1])
  }

  /**
   * The width the overflow test uses: the total, less one cell when the last
   * fragment ends with a space or there is no fragment at all.
   */
  function EffectiveWidth(parts: seq<string>): int
  {
    if |parts| > 0 && !EndsWithSpace(parts[|parts| - 1]) then TotalCells(parts) else TotalCells(parts) - 1
  }

  /** `cell_len` once `text` is appended to a line whose counter was `cells`. */
  function WidthAfter(cells: int, text: string): int
  {
    if EndsWithSpace(text) then cells + CellLen(text) - 1 else cells + CellLen(text)
  }

  /** The incremental test agrees with `cell_len` computed on the fragments. */
  lemma EffectiveWidthAfterAppend(parts: seq<string>, text: string)
    ensures EffectiveWidth(parts + [text]) == WidthAfter(TotalCells(parts), text)
  {
    assert (parts + [text])[..|parts|] == parts;
  }

  /** The counter equals the width of the joined text. */
  lemma {:induction false} TotalCellsIsTextWidth(parts: seq<string>)
    ensures TotalCells(parts) == CellLen(Concat(parts))
    decreases |parts|
  {
    if parts != [] {
      TotalCellsIsTextWidth(parts[..|parts| - 1]);
    }
  }

  class Line {
    var parts: seq<string>
    var cells: int  // `_cell_len`

    ghost predicate Valid()
      reads this
    {
      cells == TotalCells(parts)
    }

    constructor ()
      ensures Valid() && parts == []
    {
      parts := [];
      cells := 0;
    }

    /** `append`: the fragment goes at the end and the counter grows by its width. */
    method Append(text: string)
      requires Valid()
      modifies this
      ensures Valid()
      ensures parts == old(parts) + [text]
      ensures cells == old(cells) + Strings.CellLen(text)
    {
      parts := parts + [text];
      cells := cells + Strings.CellLen(text);
      assert parts[..|parts| - 1] == old(parts);
    }

    /**
     * The `cell_len` property: the width of the line's text, less exactly one
     * cell when the last fragment ends with a space (however many it ends
     * with) or when there is no fragment.
     */
    function CellLen(): (w: int)
      reads this
      requires Valid()
      ensures w == EffectiveWidth(parts)
      ensures |parts| > 0 && !EndsWithSpace(parts[|parts| - 1]) ==> w == Strings.CellLen(Text())
      ensures |parts| > 0 && EndsWithSpace(parts[|parts| - 1]) ==> w == Strings.CellLen(Text()) - 1
      ensures parts == [] ==> w == -1
    {
      TotalCellsIsTextWidth(parts);
      if |parts| > 0 && !EndsWithSpace(parts[|parts| - 1]) then cells else cells - 1
    }

    /** The `text` property: the fragments joined, as wide as the counter says. */
    function Text(): (t: string)
      reads this
      ensures Strings.CellLen(t) == TotalCells(parts)
      ensures parts == [] ==> t == ""
      ensures |parts| > 0 ==> var last := parts[|parts| - 1]; |last| <= |t| && t[|t| - |last|..] == last
    {
      TotalCellsIsTextWidth(parts);
      Concat(parts)
    }
  }
}
