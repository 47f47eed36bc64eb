/**
 * The host's worksheets. A sheet's cell values are a sequence of rows of strings, addressed
 * 0-based: A1 is (0, 0), F14 is (13, 5). Cells beyond the stored rows or columns read as blank,
 * writes beyond them pad with blank cells, and the number of stored rows is `getMaxRows()`.
 * Every range the macros use lies on one row, so a range is (row, first column, last column).
 */
module Grid {
  import opened Text

  type Row = seq<string>
  type Cells = seq<Row>

  function Get(g: Cells, r: nat, c: nat): string
  {
    if r < |g| && c < |g[r]| then g[r][c] else ""
  }

  /** A cell holding anything but white space lies inside the stored area. */
  lemma NonBlankIsStored(g: Cells, r: nat, c: nat)
    requires Get(g, r, c) != ""
    ensures r < |g| && c < |g[r]|
  {
  }

  /** A one-row range: columns first..last (inclusive) of row `row`. */
  datatype Range = Range(row: nat, first: nat, last: nat)
  {
    predicate Valid() { first <= last }
    function Width(): nat requires Valid() { last - first + 1 }
    predicate Holds(r: nat, c: nat) { r == row && first <= c <= last }
  }

  /** The single-cell range at (r, c). */
  function At(r: nat, c: nat): (rg: Range)
    ensures rg.Valid() && rg.Width() == 1
  {
    Range(r, c, c)
  }

  predicate Disjoint(a: Range, b: Range)
  {
    a.row != b.row || a.last < b.first || b.last < a.first
  }

  /** `getRange(rg).getValues()` on a one-row range. */
  function Read(g: Cells, rg: Range): (vs: seq<string>)
    requires rg.Valid()
    ensures |vs| == rg.Width()
    ensures forall i :: 0 <= i < |vs| ==> vs[i] == Get(g, rg.row, rg.first + i)
  {
    seq(rg.Width(), i requires 0 <= i < rg.Width() => Get(g, rg.row, rg.first + i))
  }

  /** `values.some(v => v.trim() !== '')`. */
  predicate HasContent(vs: seq<string>)
  {
    exists i :: 0 <= i < |vs| && !IsBlank(vs[i])
  }

  function PadRow(row: Row, n: nat): (r: Row)
    ensures |r| == if |row| < n then n else |row|
    ensures forall c :: 0 <= c < |row| ==> r[c] == row[c]
    ensures forall c :: |row| <= c < |r| ==> r[c] == ""
  {
    if |row| < n then row + seq(n - |row|, _ => "") else row
  }

  function PadRows(g: Cells, n: nat): (g': Cells)
    ensures |g'| == if |g| < n then n else |g|
    ensures forall r: nat, c: nat :: Get(g', r, c) == Get(g, r, c)
    ensures forall r :: 0 <= r < |g| ==> g'[r] == g[r]
  {
    if |g| < n then g + seq(n - |g|, _ => []) else g
  }

  /** `getRange(rg).setValues([vs])`: the range takes vs, every other cell keeps its value. */
  function Write(g: Cells, rg: Range, vs: seq<string>): (g': Cells)
    requires rg.Valid() && |vs| == rg.Width()
    ensures |g'| == if |g| <= rg.row then rg.row + 1 else |g|
    ensures forall r: nat, c: nat :: Get(g', r, c) == if rg.Holds(r, c) then vs[c - rg.first] else Get(g, r, c)
  {
    var g1 := PadRows(g, rg.row + 1);
    var old_row := PadRow(g1[rg.row], rg.last + 1);
    var new_row := old_row[..rg.first] + vs + old_row[rg.last + 1..];
    var g' := g1[rg.row := new_row];
    forall r: nat, c: nat
      ensures Get(g', r, c) == if rg.Holds(r, c) then vs[c - rg.first] else Get(g, r, c)
    {
      if r == rg.row {
        assert Get(g1, r, c) == Get(g, r, c);
        if c < |new_row| {
          if c < rg.first {
            assert new_row[c] == old_row[c];
          } else if c <= rg.last {
            assert new_row[c] == vs[c - rg.first];
          } else {
            assert new_row[c] == old_row[c];
          }
        }
      }
    }
    g'
  }

  function SetCell(g: Cells, r: nat, c: nat, v: string): (g': Cells)
    ensures |g'| == if |g| <= r then r + 1 else |g|
    ensures forall r': nat, c': nat :: Get(g', r', c') == if r' == r && c' == c then v else Get(g, r', c')
  {
    var g1 := PadRows(g, r + 1);
    var row := PadRow(g1[r], c + 1)[c := v];
    var g' := g1[r := row];
    assert forall r': nat, c': nat :: Get(g', r', c') == if r' == r && c' == c then v else Get(g1, r', c');
    g'
  }

  /** A value written in column A just below the last stored row starts a new row. */
  lemma SetCellStartsRow(g: Cells, v: string)
    ensures SetCell(g, |g|, 0, v) == g + [[v]]
  {
    var g' := SetCell(g, |g|, 0, v);
    assert |g'[|g|]| == 1 by {
      assert g'[|g|] == PadRow(PadRows(g, |g| + 1)[|g|], 1)[0 := v];
    }
    forall r | 0 <= r < |g'| ensures g'[r] == (g + [[v]])[r] {
      if r < |g| {
        assert |g'[r]| == |g[r]|;
        forall c | 0 <= c < |g[r]| ensures g'[r][c] == g[r][c] {
          assert Get(g', r, c) == Get(g, r, c);
        }
      } else {
        assert Get(g', r, 0) == v;
      }
    }
  }

  /** A value written just right of the last stored cell of the last row extends that row. */
  lemma SetCellExtendsRow(g: Cells, row: Row, v: string)
    ensures SetCell(g + [row], |g|, |row|, v) == g + [row + [v]]
  {
    var h := g + [row];
    var h' := SetCell(h, |g|, |row|, v);
    assert |h'[|g|]| == |row| + 1 by {
      assert h'[|g|] == PadRow(PadRows(h, |g| + 1)[|g|], |row| + 1)[|row| := v];
    }
    forall r | 0 <= r < |h'| ensures h'[r] == (g + [row + [v]])[r] {
      assert |h'[r]| == |(g + [row + [v]])[r]|;
      forall c | 0 <= c < |h'[r]| ensures h'[r][c] == (g + [row + [v]])[r][c] {
        assert Get(h', r, c) == Get(h, r, c) || (r == |g| && c == |row|);
      }
    }
  }

  /** `getRange(rg).clearContent()`: the range reads blank afterwards, nothing else changes. */
  function Clear(g: Cells, rg: Range): (g': Cells)
    ensures |g'| == |g|
    ensures forall r :: 0 <= r < |g| ==> |g'[r]| == |g[r]|
    ensures forall r: nat, c: nat :: Get(g', r, c) == if rg.Holds(r, c) then "" else Get(g, r, c)
  {
    seq(|g|, r requires 0 <= r < |g| =>
      seq(|g[r]|, c requires 0 <= c < |g[r]| => if rg.Holds(r, c) then "" else g[r][c]))
  }

  /** `deleteRow(r + 1)`: rows below r move up by one. */
  function WithoutRow(g: Cells, r: nat): (g': Cells)
    requires r < |g|
    ensures |g'| == |g| - 1
    ensures forall i: nat, c: nat :: i < r ==> Get(g', i, c) == Get(g, i, c)
    ensures forall i: nat, c: nat :: r <= i ==> Get(g', i, c) == Get(g, i + 1, c)
  {
    var g' := g[..r] + g[r + 1..];
    assert forall i :: 0 <= i < |g'| ==> g'[i] == if i < r then g[i] else g[i + 1];
    g'
  }

  /** `insertRowBefore(r + 1)`: a blank row appears at r, rows from r on move down by one. */
  function WithRowInserted(g: Cells, r: nat): (g': Cells)
    requires r <= |g|
    ensures |g'| == |g| + 1
    ensures forall i: nat, c: nat :: i < r ==> Get(g', i, c) == Get(g, i, c)
    ensures forall c: nat :: Get(g', r, c) == ""
    ensures forall i: nat, c: nat :: r < i ==> Get(g', i, c) == Get(g, i - 1, c)
  {
    var g' := g[..r] + [[]] + g[r..];
    assert forall i :: 0 <= i < |g'| ==> g'[i] == if i < r then g[i] else if i == r then [] else g[i - 1];
    g'
  }

  /** Reading back a written range gives the values written. */
  lemma ReadWritten(g: Cells, rg: Range, vs: seq<string>)
    requires rg.Valid() && |vs| == rg.Width()
    ensures Read(Write(g, rg, vs), rg) == vs
  {
  }

  /** A write leaves every range apart from it as it was. */
  lemma ReadApart(g: Cells, rg: Range, vs: seq<string>, other: Range)
    requires rg.Valid() && |vs| == rg.Width() && other.Valid() && Disjoint(rg, other)
    ensures Read(Write(g, rg, vs), other) == Read(g, other)
  {
  }

  /** The range one row further down. */
  function Below(rg: Range): Range
  {
    Range(rg.row + 1, rg.first, rg.last)
  }

  /** After `deleteRow(1)` a range reads what the range one row further down read before. */
  lemma ReadWithoutFirstRow(g: Cells, rg: Range)
    requires 0 < |g| && rg.Valid()
    ensures Read(WithoutRow(g, 0), rg) == Read(g, Below(rg))
  {
  }

  /** One worksheet (tab) of a spreadsheet document; its values change in place. */
  class Sheet {
    const docId: string
    const name: string
    var cells: Cells

    constructor (docId: string, name: string, cells: Cells)
      ensures this.docId == docId && this.name == name && this.cells == cells
    {
      this.docId := docId;
      this.name := name;
      this.cells := cells;
    }

    /** `getRange(r + 1, c + 1).getValue()`. */
    function Value(r: nat, c: nat): string
      reads this
    {
      Get(cells, r, c)
    }

    /** `getMaxRows()`. */
    function MaxRows(): nat
      reads this
    {
      |cells|
    }

    method SetValues(rg: Range, vs: seq<string>)
      requires rg.Valid() && |vs| == rg.Width()
      modifies this
      ensures cells == Write(old(cells), rg, vs)
    {
      cells := Write(cells, rg, vs);
    }

    method SetValue(r: nat, c: nat, v: string)
      modifies this
      ensures cells == SetCell(old(cells), r, c, v)
    {
      cells := SetCell(cells, r, c, v);
    }

    method ClearContent(rg: Range)
      modifies this
      ensures cells == Clear(old(cells), rg)
    {
      cells := Clear(cells, rg);
    }

    /** `clear()` on the inventory and mapping sheets: no values remain. */
    method ClearAll()
      modifies this
      ensures cells == []
    {
      cells := [];
    }

    method DeleteRow(r: nat)
      requires r < |cells|
      modifies this
      ensures cells == WithoutRow(old(cells), r)
    {
      cells := WithoutRow(cells, r);
    }

    method InsertRowBefore(r: nat)
      requires r <= |cells|
      modifies this
      ensures cells == WithRowInserted(old(cells), r)
    {
      cells := WithRowInserted(cells, r);
    }
  }

  /** The log sheet: `logToSheet` appends one line below the last one. */
  class Log {
    var lines: seq<string>

    constructor ()
      ensures lines == []
    {
      lines := [];
    }

    method Append(m: string)
      modifies this
      ensures lines == old(lines) + [m]
    {
      lines := lines + [m];
    }

    /** Several `logToSheet` calls in a row. */
    method AppendAll(ms: seq<string>)
      modifies this
      ensures lines == old(lines) + ms
    {
      lines := lines + ms;
    }
  }
}
