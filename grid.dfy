/**
 * The two-dimensional, row-major grid container (Sources/MeshGradient/Grid.swift).
 *
 * `MeshGradientGrid` is a Swift struct, so it has value semantics: a
 * `mutating` member replaces the whole value. Here the grid is a datatype,
 * the subscript setters are functions that return the updated grid, and the
 * operations the source writes as loops (`-`, `+`, `scale(by:)`) are methods
 * with those loops.
 */
module Grids {
  import opened Vectors

  datatype MeshGradientGrid<E> = MeshGradientGrid(elements: seq<E>, width: nat, height: nat)
  {
    /** Every grid the initialisers build has exactly `width * height` cells. */
    predicate Valid()
    {
      |elements| == width * height
    }

    /**
     * Row-major flat position of cell (x, y): for a column within the row,
     * remainder and quotient by the width recover the column and the row.
     */
    function Index(x: int, y: int): (i: int)
      ensures 0 <= x < width ==> i % width == x && i / width == y
    {
      assert 0 <= x < width ==> (x + y * width) % width == x && (x + y * width) / width == y by {
        if 0 <= x < width {
          DivModUnique(x + y * width, width, y, x);
        }
      }
      x + y * width
    }

    /** The flat subscript getter: one of the grid's elements. */
    function Get(i: int): (e: E)
      requires 0 <= i < |elements|
      ensures e in elements
    {
      elements[i]
    }

    /**
     * The (x, y) subscript getter: the flat getter at `Index(x, y)`, so every
     * flat position whose column and row are x and y holds the value read.
     */
    function GetCell(x: int, y: int): (e: E)
      requires 0 <= Index(x, y) < |elements|
      ensures width > 0 ==> forall i {:trigger elements[i]} :: 0 <= i < |elements| && i % width == x && i / width == y ==> elements[i] == e
    {
      Get(Index(x, y))
    }

    /** The flat subscript setter. */
    function Set(i: int, v: E): (r: MeshGradientGrid<E>)
      requires 0 <= i < |elements|
      ensures r.width == width && r.height == height && |r.elements| == |elements|
      ensures r.Get(i) == v
      ensures forall j :: 0 <= j < |elements| && j != i ==> r.elements[j] == elements[j]
    {
      this.(elements := elements[i := v])
    }

    /** The (x, y) subscript setter: the flat setter at `Index(x, y)`. */
    function SetCell(x: int, y: int, v: E): (r: MeshGradientGrid<E>)
      requires 0 <= Index(x, y) < |elements|
      ensures r.width == width && r.height == height && |r.elements| == |elements|
      ensures r.GetCell(x, y) == v && r.Get(Index(x, y)) == v
      ensures forall j :: 0 <= j < |elements| && j != Index(x, y) ==> r.elements[j] == elements[j]
    {
      Set(Index(x, y), v)
    }
  }

  /** `init(repeating:width:height:)`. */
  function Repeating<E>(element: E, width: nat, height: nat): (r: MeshGradientGrid<E>)
    ensures r.Valid() && r.width == width && r.height == height
    ensures |r.elements| == width * height
    ensures forall i :: 0 <= i < |r.elements| ==> r.elements[i] == element
  {
    MeshGradientGrid(seq(width * height, _ => element), width, height)
  }

  /**
   * `init(width:array:)`: the height is derived from the element count, which
   * must be a multiple of the width (the source asserts it; a zero width would
   * trap in the division).
   */
  function FromArray<E>(width: nat, arr: seq<E>): (r: MeshGradientGrid<E>)
    requires width > 0 && |arr| % width == 0
    ensures r.Valid() && r.width == width && r.elements == arr
    ensures r.height * width == |arr|
  {
    MeshGradientGrid(arr, width, |arr| / width)
  }

  /** `elements[safe: i] ?? zero`: the element at `i`, or `zero` when `i` is out of range. */
  function SafeAt<E>(s: seq<E>, i: int, zero: E): E
  {
    if 0 <= i < |s| then s[i] else zero
  }

  /**
   * Every in-range cell has an in-range flat index, and that index maps back
   * to the cell's coordinates.
   */
  lemma IndexCoordinates(width: nat, height: nat, x: int, y: int)
    requires 0 <= x < width && 0 <= y < height
    ensures 0 <= x + y * width < width * height
    ensures (x + y * width) % width == x && (x + y * width) / width == y
  {
    RowFitsInGrid(width, height, y);
    DivModUnique(x + y * width, width, y, x);
  }

  /** Row y of a grid with `height` rows ends within the grid's cells. */
  lemma RowFitsInGrid(width: nat, height: nat, y: int)
    requires 0 <= y < height
    ensures y * width + width <= width * height
  {
    var rowsBelow := height - 1 - y;
    ProductOfNaturals(rowsBelow, width);
    assert y * width + width + rowsBelow * width == (y + 1 + rowsBelow) * width;
  }

  lemma ProductOfNaturals(a: int, b: int)
    requires a >= 0 && b >= 0
    ensures a * b >= 0
  {
  }

  /** Quotient and remainder are determined by the division equation. */
  lemma DivModUnique(n: int, d: int, q: int, r: int)
    requires d > 0 && 0 <= r < d && n == q * d + r
    ensures n / d == q && n % d == r
  {
    var q', r' := n / d, n % d;
    assert (q - q') * d == r' - r;
    if q > q' {
      MultipleAtLeastDivisor(q - q', d);
    } else if q < q' {
      MultipleAtLeastDivisor(q' - q, d);
    }
  }

  lemma MultipleAtLeastDivisor(k: int, d: int)
    requires k >= 1 && d > 0
    ensures k * d >= d
  {
  }

  /** Distinct in-range cells have distinct flat indices. */
  lemma IndexInjective(width: nat, height: nat, x1: int, y1: int, x2: int, y2: int)
    requires 0 <= x1 < width && 0 <= y1 < height
    requires 0 <= x2 < width && 0 <= y2 < height
    requires x1 + y1 * width == x2 + y2 * width
    ensures x1 == x2 && y1 == y2
  {
    IndexCoordinates(width, height, x1, y1);
    IndexCoordinates(width, height, x2, y2);
  }

  /**
   * Writing cell (x, y) and reading it back, through either subscript, gives the
   * written value; every other cell of a valid grid, and its shape, is unchanged.
   */
  lemma SetCellThenGet<E>(g: MeshGradientGrid<E>, x: int, y: int, v: E, x': int, y': int)
    requires g.Valid() && 0 <= x < g.width && 0 <= y < g.height
    requires 0 <= x' < g.width && 0 <= y' < g.height
    ensures 0 <= g.Index(x, y) < |g.elements| && 0 <= g.Index(x', y') < |g.elements|
    ensures g.SetCell(x, y, v).width == g.width && g.SetCell(x, y, v).height == g.height
    ensures g.SetCell(x, y, v).GetCell(x, y) == v
    ensures g.SetCell(x, y, v).Get(g.Index(x, y)) == v
    ensures (x', y') != (x, y) ==> g.SetCell(x, y, v).GetCell(x', y') == g.GetCell(x', y')
  {
    IndexCoordinates(g.width, g.height, x, y);
    IndexCoordinates(g.width, g.height, x', y');
    if (x', y') != (x, y) && g.Index(x, y) == g.Index(x', y') {
      IndexInjective(g.width, g.height, x, y, x', y');
    }
  }

  /**
   * The result of `lhs op rhs` for the grid's `+` and `-`: the left operand's
   * shape, and in cell i the left element combined with the right one, or
   * with `zero` where the right operand has no cell i.
   */
  function ElementWise<E>(lhs: MeshGradientGrid<E>, rhs: MeshGradientGrid<E>, op: (E, E) -> E, zero: E): MeshGradientGrid<E>
  {
    MeshGradientGrid(seq(|lhs.elements|, i requires 0 <= i < |lhs.elements| => op(lhs.elements[i], SafeAt(rhs.elements, i, zero))),
                     lhs.width, lhs.height)
  }

  /** The empty 0 x 0 grid, the additive identity `zero`. */
  function Zero<E>(vs: VectorSpace<E>): (r: MeshGradientGrid<E>)
    ensures r.Valid() && r.width == 0 && r.height == 0 && r.elements == []
  {
    Repeating(vs.zero, 0, 0)
  }

  /** The grid's `-`: starts from a zero grid of lhs's shape and fills it cell by cell. */
  method Subtract<E>(lhs: MeshGradientGrid<E>, rhs: MeshGradientGrid<E>, vs: VectorSpace<E>) returns (grid: MeshGradientGrid<E>)
    requires lhs.Valid()
    ensures grid.Valid() && grid.width == lhs.width && grid.height == lhs.height
    ensures |grid.elements| == |lhs.elements|
    ensures forall i :: 0 <= i < |rhs.elements| && i < |lhs.elements| ==> grid.elements[i] == vs.sub(lhs.elements[i], rhs.elements[i])
    ensures forall i :: |rhs.elements| <= i < |lhs.elements| ==> grid.elements[i] == vs.sub(lhs.elements[i], vs.zero)
    ensures grid == ElementWise(lhs, rhs, vs.sub, vs.zero)
  {
    grid := Repeating(vs.zero, lhs.width, lhs.height);
    for i := 0 to |lhs.elements|
      invariant grid.width == lhs.width && grid.height == lhs.height
      invariant |grid.elements| == |lhs.elements|
      invariant forall j :: 0 <= j < i ==> grid.elements[j] == vs.sub(lhs.elements[j], SafeAt(rhs.elements, j, vs.zero))
    {
      grid := grid.Set(i, vs.sub(lhs.elements[i], SafeAt(rhs.elements, i, vs.zero)));
    }
    assert grid.elements == ElementWise(lhs, rhs, vs.sub, vs.zero).elements;
  }

  /** The grid's `+`: starts from a zero grid of lhs's shape and fills it cell by cell. */
  method Add<E>(lhs: MeshGradientGrid<E>, rhs: MeshGradientGrid<E>, vs: VectorSpace<E>) returns (grid: MeshGradientGrid<E>)
    requires lhs.Valid()
    ensures grid.Valid() && grid.width == lhs.width && grid.height == lhs.height
    ensures |grid.elements| == |lhs.elements|
    ensures forall i :: 0 <= i < |rhs.elements| && i < |lhs.elements| ==> grid.elements[i] == vs.add(lhs.elements[i], rhs.elements[i])
    ensures forall i :: |rhs.elements| <= i < |lhs.elements| ==> grid.elements[i] == vs.add(lhs.elements[i], vs.zero)
    ensures grid == ElementWise(lhs, rhs, vs.add, vs.zero)
  {
    grid := Repeating(vs.zero, lhs.width, lhs.height);
    for i := 0 to |lhs.elements|
      invariant grid.width == lhs.width && grid.height == lhs.height
      invariant |grid.elements| == |lhs.elements|
      invariant forall j :: 0 <= j < i ==> grid.elements[j] == vs.add(lhs.elements[j], SafeAt(rhs.elements, j, vs.zero))
    {
      grid := grid.Set(i, vs.add(lhs.elements[i], SafeAt(rhs.elements, i, vs.zero)));
    }
    assert grid.elements == ElementWise(lhs, rhs, vs.add, vs.zero).elements;
  }

  /** With lawful elements, `g + zero == g`. */
  lemma AddZeroIsIdentity<E(!new)>(g: MeshGradientGrid<E>, vs: VectorSpace<E>)
    requires Lawful(vs)
    ensures ElementWise(g, Zero(vs), vs.add, vs.zero) == g
  {
    var r := ElementWise(g, Zero(vs), vs.add, vs.zero);
    forall i | 0 <= i < |g.elements| ensures r.elements[i] == g.elements[i] {
      assert SafeAt(Zero(vs).elements, i, vs.zero) == vs.zero;
    }
    assert r.elements == g.elements;
  }

  /** With lawful elements, `g - zero == g`. */
  lemma SubtractZeroIsIdentity<E(!new)>(g: MeshGradientGrid<E>, vs: VectorSpace<E>)
    requires Lawful(vs)
    ensures ElementWise(g, Zero(vs), vs.sub, vs.zero) == g
  {
    var r := ElementWise(g, Zero(vs), vs.sub, vs.zero);
    forall i | 0 <= i < |g.elements| ensures r.elements[i] == g.elements[i] {
      assert SafeAt(Zero(vs).elements, i, vs.zero) == vs.zero;
    }
    assert r.elements == g.elements;
  }

  /**
   * `+` is not symmetric: `zero + g` takes the empty left operand's shape and
   * is the empty grid whatever g is, while `g + zero == g`.
   */
  lemma ZeroPlusIsEmpty<E>(g: MeshGradientGrid<E>, vs: VectorSpace<E>)
    ensures ElementWise(Zero(vs), g, vs.add, vs.zero) == Zero(vs)
  {
    assert ElementWise(Zero(vs), g, vs.add, vs.zero).elements == [];
  }

  /** With lawful elements, subtracting the same right operand undoes an addition: `(g + h) - h == g`. */
  lemma SubtractUndoesAdd<E(!new)>(g: MeshGradientGrid<E>, h: MeshGradientGrid<E>, vs: VectorSpace<E>)
    requires Lawful(vs)
    ensures ElementWise(ElementWise(g, h, vs.add, vs.zero), h, vs.sub, vs.zero) == g
  {
    var s := ElementWise(g, h, vs.add, vs.zero);
    var r := ElementWise(s, h, vs.sub, vs.zero);
    forall i | 0 <= i < |g.elements| ensures r.elements[i] == g.elements[i] {
      var b := SafeAt(h.elements, i, vs.zero);
      assert s.elements[i] == vs.add(g.elements[i], b);
      assert r.elements[i] == vs.sub(vs.add(g.elements[i], b), b);
    }
    assert r.elements == g.elements;
  }

  /**
   * For two grids of the same width, cell (x, y) of the result combines the
   * two operands' cells (x, y) where the right operand has that row, and the
   * left cell with `zero` in the rows below the right operand's last one.
   */
  lemma ElementWiseSameWidthCells<E>(lhs: MeshGradientGrid<E>, rhs: MeshGradientGrid<E>, op: (E, E) -> E, zero: E, x: int, y: int)
    requires lhs.Valid() && rhs.Valid() && lhs.width == rhs.width
    requires 0 <= x < lhs.width && 0 <= y < lhs.height
    ensures 0 <= lhs.Index(x, y) < |lhs.elements|
    ensures y < rhs.height ==>
              (0 <= rhs.Index(x, y) < |rhs.elements|
               && ElementWise(lhs, rhs, op, zero).GetCell(x, y) == op(lhs.GetCell(x, y), rhs.GetCell(x, y)))
    ensures rhs.height <= y ==> ElementWise(lhs, rhs, op, zero).GetCell(x, y) == op(lhs.GetCell(x, y), zero)
  {
    IndexCoordinates(lhs.width, lhs.height, x, y);
    var i := lhs.Index(x, y);
    var r := ElementWise(lhs, rhs, op, zero);
    assert r.GetCell(x, y) == r.elements[i];
    assert r.elements[i] == op(lhs.elements[i], SafeAt(rhs.elements, i, zero));
    if y < rhs.height {
      IndexCoordinates(rhs.width, rhs.height, x, y);
      assert rhs.GetCell(x, y) == rhs.elements[i];
    } else {
      ProductOfNaturals(y - rhs.height, lhs.width);
      assert i == x + rhs.height * lhs.width + (y - rhs.height) * lhs.width;
    }
  }

  /** `scale(by:)`: scales every element in place, keeping the shape. */
  method Scale<E>(g: MeshGradientGrid<E>, k: real, vs: VectorSpace<E>) returns (r: MeshGradientGrid<E>)
    ensures r.width == g.width && r.height == g.height && |r.elements| == |g.elements|
    ensures forall i :: 0 <= i < |g.elements| ==> r.elements[i] == vs.scale(g.elements[i], k)
  {
    r := g;
    for i := 0 to |r.elements|
      invariant r.width == g.width && r.height == g.height && |r.elements| == |g.elements|
      invariant forall j :: 0 <= j < i ==> r.elements[j] == vs.scale(g.elements[j], k)
      invariant forall j :: i <= j < |g.elements| ==> r.elements[j] == g.elements[j]
    {
      r := r.Set(i, vs.scale(r.elements[i], k));
    }
  }

  /** The sum of `f` over `s`, accumulated from the left like `reduce(0, +)`. */
  function SumOf<E>(s: seq<E>, f: E -> real): real
  {
    if s == [] then 0.0 else SumOf(s[..|s| - 1], f) + f(s[|s| - 1])
  }

  /**
   * `magnitudeSquared`: the sum of the elements' squared magnitudes. With
   * lawful elements it bounds each element's squared magnitude.
   */
  function MagnitudeSquared<E(!new)>(g: MeshGradientGrid<E>, vs: VectorSpace<E>): (m: real)
    ensures Lawful(vs) ==> forall i :: 0 <= i < |g.elements| ==> vs.magnitudeSquared(g.elements[i]) <= m
  {
    var s, f := g.elements, vs.magnitudeSquared;
    assert Lawful(vs) ==> forall i :: 0 <= i < |s| ==> f(s[i]) <= SumOf(s, f) by {
      if Lawful(vs) {
        forall i | 0 <= i < |s| ensures f(s[i]) <= SumOf(s, f) {
          SumOfAtLeastTerm(s, f, i);
        }
      }
    }
    SumOf(s, f)
  }

  lemma {:induction false} SumOfNonNegative<E>(s: seq<E>, f: E -> real)
    requires forall i :: 0 <= i < |s| ==> f(s[i]) >= 0.0
    ensures SumOf(s, f) >= 0.0
  {
    if s != [] {
      SumOfNonNegative(s[..|s| - 1], f);
    }
  }

  /** With lawful elements the grid's squared magnitude is never negative. */
  lemma MagnitudeSquaredNonNegative<E(!new)>(g: MeshGradientGrid<E>, vs: VectorSpace<E>)
    requires Lawful(vs)
    ensures MagnitudeSquared(g, vs) >= 0.0
  {
    SumOfNonNegative(g.elements, vs.magnitudeSquared);
  }

  /** A sum of non-negative terms is at least each of its terms. */
  lemma {:induction false} SumOfAtLeastTerm<E>(s: seq<E>, f: E -> real, i: int)
    requires forall j :: 0 <= j < |s| ==> f(s[j]) >= 0.0
    requires 0 <= i < |s|
    ensures f(s[i]) <= SumOf(s, f)
  {
    var prefix := s[..|s| - 1];
    assert forall j :: 0 <= j < |prefix| ==> prefix[j] == s[j];
    SumOfNonNegative(prefix, f);
    if i < |s| - 1 {
      SumOfAtLeastTerm(prefix, f, i);
    }
  }

  /** The `zero` grid has squared magnitude 0. */
  lemma MagnitudeSquaredOfZero<E(!new)>(vs: VectorSpace<E>)
    ensures MagnitudeSquared(Zero(vs), vs) == 0.0
  {
  }

  lemma {:induction false} SumOfScaled<E>(s: seq<E>, t: seq<E>, f: E -> real, c: real)
    requires |s| == |t|
    requires forall i :: 0 <= i < |s| ==> f(t[i]) == c * f(s[i])
    ensures SumOf(t, f) == c * SumOf(s, f)
  {
    if s != [] {
      SumOfScaled(s[..|s| - 1], t[..|t| - 1], f, c);
    }
  }

  /**
   * Scaling a grid by k multiplies its squared magnitude by k * k: any r that
   * `Scale` may return satisfies the premises.
   */
  lemma MagnitudeSquaredOfScaled<E(!new)>(g: MeshGradientGrid<E>, r: MeshGradientGrid<E>, k: real, vs: VectorSpace<E>)
    requires Lawful(vs)
    requires |r.elements| == |g.elements|
    requires forall i :: 0 <= i < |g.elements| ==> r.elements[i] == vs.scale(g.elements[i], k)
    ensures MagnitudeSquared(r, vs) == k * k * MagnitudeSquared(g, vs)
  {
    SumOfScaled(g.elements, r.elements, vs.magnitudeSquared, k * k);
  }
}
