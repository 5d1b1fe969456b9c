/**
 * The 3x3 matrix class `Matrix3D` of matrix.h / matrix.cpp.
 *
 * The class keeps its nine entries in a heap array in row-major order, and
 * every compound-assignment operator overwrites that array in place. The
 * methods below are proved against pure functions on the entry sequence,
 * and the algebra is proved about those functions.
 */
module Matrices {

  /** The entry `(row, col)` of a row-major sequence of nine entries. */
  function Entry(s: seq<real>, row: int, col: int): real
    requires |s| == 9 && 0 <= row < 3 && 0 <= col < 3
  {
    s[row * 3 + col]
  }

  /** The nine entries of the 9-argument constructor, in argument order. */
  function RowMajor(a: real, b: real, c: real, d: real, e: real, f: real, g: real, h: real, i: real): (s: seq<real>)
    ensures |s| == 9
    ensures Entry(s, 0, 0) == a && Entry(s, 0, 1) == b && Entry(s, 0, 2) == c
    ensures Entry(s, 1, 0) == d && Entry(s, 1, 1) == e && Entry(s, 1, 2) == f
    ensures Entry(s, 2, 0) == g && Entry(s, 2, 1) == h && Entry(s, 2, 2) == i
  {
    [a, b, c, d, e, f, g, h, i]
  }

  function ZeroMatrix(): (s: seq<real>)
    ensures |s| == 9 && forall n :: 0 <= n < 9 ==> s[n] == 0.0
  {
    RowMajor(0.0, 0.0, 0.0, 0.0, 0.0, 0.0, 0.0, 0.0, 0.0)
  }

  function Identity(): seq<real>
  {
    RowMajor(1.0, 0.0, 0.0, 0.0, 1.0, 0.0, 0.0, 0.0, 1.0)
  }

  /** Entrywise sum and difference, the results of `+=` and `-=`. */
  function Sum(a: seq<real>, b: seq<real>): (r: seq<real>)
    requires |a| == 9 && |b| == 9
  {
    seq(9, n requires 0 <= n < 9 => a[n] + b[n])
  }

  function Difference(a: seq<real>, b: seq<real>): (r: seq<real>)
    requires |a| == 9 && |b| == 9
  {
    seq(9, n requires 0 <= n < 9 => a[n] - b[n])
  }

  /** Every entry multiplied by `f`, the result of the scalar `*=`. */
  function Scaled(a: seq<real>, f: real): (r: seq<real>)
    requires |a| == 9
  {
    seq(9, n requires 0 <= n < 9 => a[n] * f)
  }

  /** Every entry divided by a nonzero `f`, the result of `/=`. */
  function Divided(a: seq<real>, f: real): (r: seq<real>)
    requires |a| == 9 && f != 0.0
  {
    seq(9, n requires 0 <= n < 9 => a[n] / f)
  }

  /**
   * The value of `temp[i * 3 + j]` after `k` rounds of the innermost loop of
   * `*=`, when it held `init` before the first: `init` plus the first `k`
   * terms of the inner product of row `i` of `a` with column `j` of `b`.
   */
  function Accumulated(init: real, a: seq<real>, b: seq<real>, i: int, j: int, k: int): real
    requires |a| == 9 && |b| == 9 && 0 <= i < 3 && 0 <= j < 3 && 0 <= k <= 3
    decreases k
  {
    if k == 0 then init else Accumulated(init, a, b, i, j, k - 1) + a[i * 3 + k - 1] * b[(k - 1) * 3 + j]
  }

  /** Whatever the accumulator starts from is carried through unchanged into the sum. */
  lemma {:induction false} AccumulatedShift(init: real, a: seq<real>, b: seq<real>, i: int, j: int, k: int)
    requires |a| == 9 && |b| == 9 && 0 <= i < 3 && 0 <= j < 3 && 0 <= k <= 3
    ensures Accumulated(init, a, b, i, j, k) == init + Accumulated(0.0, a, b, i, j, k)
    decreases k
  {
    if k > 0 {
      AccumulatedShift(init, a, b, i, j, k - 1);
    }
  }

  /** One more term of the inner product. */
  lemma AccumulatedStep(init: real, a: seq<real>, b: seq<real>, i: int, j: int, k: int)
    requires |a| == 9 && |b| == 9 && 0 <= i < 3 && 0 <= j < 3 && 0 <= k < 3
    ensures Accumulated(init, a, b, i, j, k + 1) == Accumulated(init, a, b, i, j, k) + a[i * 3 + k] * b[k * 3 + j]
  {
  }

  /** The inner product of row `i` of `a` with column `j` of `b`. */
  function RowCol(a: seq<real>, b: seq<real>, i: int, j: int): real
    requires |a| == 9 && |b| == 9 && 0 <= i < 3 && 0 <= j < 3
  {
    a[i * 3] * b[j] + a[i * 3 + 1] * b[3 + j] + a[i * 3 + 2] * b[6 + j]
  }

  /** The matrix product `a b`: entry `(i, j)` is `a(i, 0) b(0, j) + a(i, 1) b(1, j) + a(i, 2) b(2, j)`. */
  function Product(a: seq<real>, b: seq<real>): (r: seq<real>)
    requires |a| == 9 && |b| == 9
    ensures |r| == 9
  {
    seq(9, n requires 0 <= n < 9 => RowCol(a, b, n / 3, n % 3))
  }

  /** The transpose: entry `(i, j)` of the result is entry `(j, i)` of `s`. */
  function Transposed(s: seq<real>): (r: seq<real>)
    requires |s| == 9
    ensures |r| == 9 && forall i, j :: 0 <= i < 3 && 0 <= j < 3 ==> Entry(r, i, j) == Entry(s, j, i)
  {
    seq(9, n requires 0 <= n < 9 => s[(n % 3) * 3 + n / 3])
  }

  /** `deteminant()`: the cofactor expansion along the first row. */
  function Det(s: seq<real>): real
    requires |s| == 9
  {
    s[0] * (s[4] * s[8] - s[5] * s[7]) -
    s[1] * (s[3] * s[8] - s[5] * s[6]) +
    s[2] * (s[3] * s[7] - s[4] * s[6])
  }

  /**
   * `*=` as written: `temp` comes from `new float[9]` without initialisation,
   * so every product is added onto whatever `garbage` the nine cells held.
   */
  function ProductAsWritten(garbage: seq<real>, a: seq<real>, b: seq<real>): (r: seq<real>)
    requires |garbage| == 9 && |a| == 9 && |b| == 9
    ensures r == Sum(garbage, Product(a, b))
  {
    var r := seq(9, n requires 0 <= n < 9 => Accumulated(garbage[n], a, b, n / 3, n % 3, 3));
    assert forall n | 0 <= n < 9 :: r[n] == Sum(garbage, Product(a, b))[n] by {
      forall n | 0 <= n < 9
        ensures r[n] == Sum(garbage, Product(a, b))[n]
      {
        AccumulatedShift(garbage[n], a, b, n / 3, n % 3, 3);
        AccumulatedRowColumn(a, b, n / 3, n % 3);
      }
    }
    r
  }

  // ---------------------------------------------------------------- lemmas

  /** Transposing twice gives the matrix back. */
  lemma TransposeInvolution(s: seq<real>)
    requires |s| == 9
    ensures Transposed(Transposed(s)) == s
  {
    var t := Transposed(Transposed(s));
    forall n | 0 <= n < 9
      ensures t[n] == s[n]
    {
      assert Entry(t, n / 3, n % 3) == Entry(s, n / 3, n % 3);
    }
  }

  /** The determinant of the transpose equals the determinant. */
  lemma DetTranspose(s: seq<real>)
    requires |s| == 9
    ensures Det(Transposed(s)) == Det(s)
  {
    var t := Transposed(s);
    assert t == [s[0], s[3], s[6], s[1], s[4], s[7], s[2], s[5], s[8]];
  }

  /** Three rounds of the innermost loop from zero: the inner product of row `r` of `a` with column `c` of `b`. */
  lemma AccumulatedRowColumn(a: seq<real>, b: seq<real>, r: int, c: int)
    requires |a| == 9 && |b| == 9 && 0 <= r < 3 && 0 <= c < 3
    ensures Accumulated(0.0, a, b, r, c, 3) == RowCol(a, b, r, c)
  {
    AccumulatedStep(0.0, a, b, r, c, 0);
    AccumulatedStep(0.0, a, b, r, c, 1);
    AccumulatedStep(0.0, a, b, r, c, 2);
  }

  /** Entry `(r, c)` of the product is the inner product of row `r` with column `c`. */
  lemma ProductEntry(a: seq<real>, b: seq<real>, r: int, c: int)
    requires |a| == 9 && |b| == 9 && 0 <= r < 3 && 0 <= c < 3
    ensures Product(a, b)[r * 3 + c] == RowCol(a, b, r, c)
  {
    var n := r * 3 + c;
    assert n / 3 == r && n % 3 == c;
  }

  /** The triple loop's sums are the entries of the product. */
  lemma AccumulatedProduct(a: seq<real>, b: seq<real>)
    requires |a| == 9 && |b| == 9
    ensures forall r, c :: 0 <= r < 3 && 0 <= c < 3 ==> Accumulated(0.0, a, b, r, c, 3) == Product(a, b)[r * 3 + c]
  {
    forall r, c | 0 <= r < 3 && 0 <= c < 3
      ensures Accumulated(0.0, a, b, r, c, 3) == Product(a, b)[r * 3 + c]
    {
      AccumulatedRowColumn(a, b, r, c);
      ProductEntry(a, b, r, c);
    }
  }

  /** Cells that each accumulated their inner product from zero hold the product. */
  lemma ZeroedAccumulation(t: seq<real>, a: seq<real>, b: seq<real>)
    requires |t| == 9 && |a| == 9 && |b| == 9
    requires forall r, c :: 0 <= r < 3 && 0 <= c < 3 ==> Entry(t, r, c) == Accumulated(0.0, a, b, r, c, 3)
    ensures t == Product(a, b)
  {
    forall n | 0 <= n < 9
      ensures t[n] == Product(a, b)[n]
    {
      var r, c := n / 3, n % 3;
      assert n == r * 3 + c && Entry(t, r, c) == t[n];
      AccumulatedRowColumn(a, b, r, c);
    }
  }

  /** Row `r` times column `c` of the identity is entry `(r, c)`. */
  lemma RowColIdentityRight(a: seq<real>, r: int, c: int)
    requires |a| == 9 && 0 <= r < 3 && 0 <= c < 3
    ensures RowCol(a, Identity(), r, c) == a[r * 3 + c]
  {
    var id := Identity();
    assert id == [1.0, 0.0, 0.0, 0.0, 1.0, 0.0, 0.0, 0.0, 1.0];
    if c == 0 {
      assert id[c] == 1.0 && id[3 + c] == 0.0 && id[6 + c] == 0.0;
    } else if c == 1 {
      assert id[c] == 0.0 && id[3 + c] == 1.0 && id[6 + c] == 0.0;
    } else {
      assert id[c] == 0.0 && id[3 + c] == 0.0 && id[6 + c] == 1.0;
    }
  }

  /** Row `r` of the identity times column `c` is entry `(r, c)`. */
  lemma RowColIdentityLeft(a: seq<real>, r: int, c: int)
    requires |a| == 9 && 0 <= r < 3 && 0 <= c < 3
    ensures RowCol(Identity(), a, r, c) == a[r * 3 + c]
  {
    var id := Identity();
    assert id == [1.0, 0.0, 0.0, 0.0, 1.0, 0.0, 0.0, 0.0, 1.0];
    if r == 0 {
      assert id[r * 3] == 1.0 && id[r * 3 + 1] == 0.0 && id[r * 3 + 2] == 0.0;
    } else if r == 1 {
      assert id[r * 3] == 0.0 && id[r * 3 + 1] == 1.0 && id[r * 3 + 2] == 0.0;
    } else {
      assert id[r * 3] == 0.0 && id[r * 3 + 1] == 0.0 && id[r * 3 + 2] == 1.0;
    }
  }

  /** The identity has determinant one and is neutral for the product on both sides. */
  lemma IdentityLaws(a: seq<real>)
    requires |a| == 9
    ensures Det(Identity()) == 1.0
    ensures Product(a, Identity()) == a
    ensures Product(Identity(), a) == a
  {
    assert Identity() == [1.0, 0.0, 0.0, 0.0, 1.0, 0.0, 0.0, 0.0, 1.0];
    forall n | 0 <= n < 9
      ensures Product(a, Identity())[n] == a[n] && Product(Identity(), a)[n] == a[n]
    {
      var r, c := n / 3, n % 3;
      assert n == r * 3 + c;
      RowColIdentityRight(a, r, c);
      RowColIdentityLeft(a, r, c);
    }
  }

  /** `+=` is commutative and associative, with the zero matrix as its neutral element. */
  lemma SumLaws(a: seq<real>, b: seq<real>, c: seq<real>)
    requires |a| == 9 && |b| == 9 && |c| == 9
    ensures Sum(a, b) == Sum(b, a)
    ensures Sum(Sum(a, b), c) == Sum(a, Sum(b, c))
    ensures Sum(a, ZeroMatrix()) == a
  {
    assert Sum(a, b) == Sum(b, a);
    assert Sum(Sum(a, b), c) == Sum(a, Sum(b, c));
    assert Sum(a, ZeroMatrix()) == a;
  }

  /** `-= b` is `+=` of `b` scaled by -1: subtracting a matrix from itself gives zero, and adding it back restores it. */
  lemma DifferenceLaws(a: seq<real>, b: seq<real>)
    requires |a| == 9 && |b| == 9
    ensures Difference(a, b) == Sum(a, Scaled(b, -1.0))
    ensures Difference(a, a) == ZeroMatrix()
    ensures Sum(Difference(a, b), b) == a
  {
    assert Difference(a, b) == Sum(a, Scaled(b, -1.0));
    assert Difference(a, a) == ZeroMatrix();
    assert Sum(Difference(a, b), b) == a;
  }

  /** Scalar `*=` composes by multiplying the factors, leaves the matrix alone for 1 and distributes over `+=`. */
  lemma ScaledLaws(a: seq<real>, b: seq<real>, f: real, g: real)
    requires |a| == 9 && |b| == 9
    ensures Scaled(Scaled(a, f), g) == Scaled(a, f * g)
    ensures Scaled(a, 1.0) == a
    ensures Scaled(Sum(a, b), f) == Sum(Scaled(a, f), Scaled(b, f))
  {
    forall n | 0 <= n < 9
      ensures Scaled(Scaled(a, f), g)[n] == Scaled(a, f * g)[n]
    {
      assert a[n] * f * g == a[n] * (f * g);
    }
    forall n | 0 <= n < 9
      ensures Scaled(Sum(a, b), f)[n] == Sum(Scaled(a, f), Scaled(b, f))[n]
    {
      assert (a[n] + b[n]) * f == a[n] * f + b[n] * f;
    }
    assert Scaled(Scaled(a, f), g) == Scaled(a, f * g);
    assert Scaled(a, 1.0) == a;
    assert Scaled(Sum(a, b), f) == Sum(Scaled(a, f), Scaled(b, f));
  }

  /** `/= f` is scalar `*=` by `1 / f`, and `*= f` undoes it. */
  lemma DividedLaws(a: seq<real>, f: real)
    requires |a| == 9 && f != 0.0
    ensures Divided(a, f) == Scaled(a, 1.0 / f)
    ensures Scaled(Divided(a, f), f) == a
  {
    forall n | 0 <= n < 9
      ensures Divided(a, f)[n] == Scaled(a, 1.0 / f)[n] && Scaled(Divided(a, f), f)[n] == a[n]
    {
      assert a[n] / f == a[n] * (1.0 / f);
      assert (a[n] / f) * f == a[n];
    }
    assert Divided(a, f) == Scaled(a, 1.0 / f);
    assert Scaled(Divided(a, f), f) == a;
  }

  /** `-=` undoes `+=`, and `/= f` undoes `*= f` for nonzero `f`. */
  lemma InverseUpdates(a: seq<real>, b: seq<real>, f: real)
    requires |a| == 9 && |b| == 9 && f != 0.0
    ensures Difference(Sum(a, b), b) == a
    ensures Divided(Scaled(a, f), f) == a
  {
    assert Difference(Sum(a, b), b) == a;
    var d := Divided(Scaled(a, f), f);
    forall n | 0 <= n < 9
      ensures d[n] == a[n]
    {
      assert d[n] == (a[n] * f) / f;
    }
  }

  /** The uninitialised accumulator of `*=` corrupts the product: I * I comes out wrong. */
  lemma ProductAsWrittenCounterexample()
    ensures ProductAsWritten([1.0, 1.0, 1.0, 1.0, 1.0, 1.0, 1.0, 1.0, 1.0], Identity(), Identity())[0] == 2.0
    ensures Product(Identity(), Identity())[0] == 1.0
  {
    IdentityLaws(Identity());
  }

  /** With a zeroed accumulator, as in `MulAssign`, the as-written loop gives the product. */
  lemma ProductAsWrittenZeroed(a: seq<real>, b: seq<real>)
    requires |a| == 9 && |b| == 9
    ensures ProductAsWritten(ZeroMatrix(), a, b) == Product(a, b)
  {
  }

  /** The innermost loop of `*=`: adds row `i` of `x` times column `j` of `y` onto `temp[i * 3 + j]`. */
  method AccumulateEntry(temp: array<real>, x: array<real>, y: array<real>, i: int, j: int)
    requires temp.Length == 9 && x.Length == 9 && y.Length == 9 && temp != x && temp != y
    requires 0 <= i < 3 && 0 <= j < 3
    modifies temp
    ensures temp[i * 3 + j] == Accumulated(old(temp[i * 3 + j]), x[..], y[..], i, j, 3)
    ensures forall n :: 0 <= n < 9 && n != i * 3 + j ==> temp[n] == old(temp[n])
  {
    ghost var a, b := x[..], y[..];
    ghost var init := temp[i * 3 + j];
    var k := 0;
    while k < 3
      invariant 0 <= k <= 3
      invariant temp[i * 3 + j] == Accumulated(init, a, b, i, j, k)
      invariant forall n :: 0 <= n < 9 && n != i * 3 + j ==> temp[n] == old(temp[n])
    {
      AccumulatedStep(init, a, b, i, j, k);
      var u, v := x[i * 3 + k], y[k * 3 + j];
      assert u == a[i * 3 + k] && v == b[k * 3 + j];
      var sum := temp[i * 3 + j];
      temp[i * 3 + j] := sum + u * v;
      k := k + 1;
    }
  }

  /**
   * The two outer loops of `*=`: every cell of `temp` receives its inner
   * product on top of what it held.
   */
  method AccumulateProduct(temp: array<real>, x: array<real>, y: array<real>)
    requires temp.Length == 9 && x.Length == 9 && y.Length == 9 && temp != x && temp != y
    modifies temp
    ensures forall r, c :: 0 <= r < 3 && 0 <= c < 3 ==>
      Entry(temp[..], r, c) == Accumulated(Entry(old(temp[..]), r, c), x[..], y[..], r, c, 3)
  {
    var i := 0;
    while i < 3
      invariant 0 <= i <= 3
      invariant forall r, c :: 0 <= r < i && 0 <= c < 3 ==>
        Entry(temp[..], r, c) == Accumulated(Entry(old(temp[..]), r, c), x[..], y[..], r, c, 3)
      invariant forall n :: i * 3 <= n < 9 ==> temp[n] == old(temp[n])
    {
      var j := 0;
      while j < 3
        invariant 0 <= j <= 3
        invariant forall r, c :: 0 <= r < 3 && 0 <= c < 3 && r * 3 + c < i * 3 + j ==>
          Entry(temp[..], r, c) == Accumulated(Entry(old(temp[..]), r, c), x[..], y[..], r, c, 3)
        invariant forall n :: i * 3 + j <= n < 9 ==> temp[n] == old(temp[n])
      {
        AccumulateEntry(temp, x, y, i, j);
        j := j + 1;
      }
      i := i + 1;
    }
  }

  /** Entry `(i, j)` sits at `i * 3 + j`. */
  lemma SplitIndex(i: int, j: int)
    requires 0 <= i < 3 && 0 <= j < 3
    ensures (i * 3 + j) / 3 == i && (i * 3 + j) % 3 == j
  {
  }

  /** The loops of `transpose()` that fill `temp`: entry `(i, j)` of `temp` is entry `(j, i)` of `x`. */
  method TransposedCopy(x: array<real>) returns (temp: array<real>)
    requires x.Length == 9
    ensures fresh(temp) && temp[..] == Transposed(x[..])
  {
    temp := new real[9];
    var i := 0;
    while i < 3
      invariant 0 <= i <= 3
      invariant forall n :: 0 <= n < i * 3 ==> temp[n] == x[(n % 3) * 3 + n / 3]
    {
      var j := 0;
      while j < 3
        invariant 0 <= j <= 3
        invariant forall n :: 0 <= n < i * 3 + j ==> temp[n] == x[(n % 3) * 3 + n / 3]
      {
        SplitIndex(i, j);
        temp[i * 3 + j] := x[j * 3 + i];
        j := j + 1;
      }
      i := i + 1;
    }
  }

    /** `temp` zeroed, then the triple loop of `*=`: a fresh array holding the product of `x` and `y`. */
  method ZeroedProduct(x: array<real>, y: array<real>) returns (temp: array<real>)
    requires x.Length == 9 && y.Length == 9
    ensures fresh(temp) && temp[..] == Product(x[..], y[..])
  {
    temp := new real[9];
    var z := 0;
    while z < 9
      invariant 0 <= z <= 9
      invariant forall k :: 0 <= k < z ==> temp[k] == 0.0
      modifies temp
    {
      temp[z] := 0.0;
      z := z + 1;
    }
    AccumulateProduct(temp, x, y);
    ZeroedAccumulation(temp[..], x[..], y[..]);
  }

  // ---------------------------------------------------------------- the class

  class Matrix3D {
    /** The nine entries, row-major. */
    var data: array<real>

    ghost predicate Valid()
      reads this
    {
      data.Length == 9
    }

    /** The default constructor: all nine entries zero. */
    constructor ()
      ensures Valid() && fresh(data)
      ensures data[..] == ZeroMatrix()
    {
      var cells := new real[9];
      var i := 0;
      while i < 9
        invariant 0 <= i <= 9
        invariant forall k :: 0 <= k < i ==> cells[k] == 0.0
      {
        cells[i] := 0.0;
        i := i + 1;
      }
      data := cells;
    }

    /** The 9-argument constructor, storing its arguments row by row. */
    constructor FromEntries(a: real, b: real, c: real, d: real, e: real, f: real, g: real, h: real, i: real)
      ensures Valid() && fresh(data)
      ensures data[..] == RowMajor(a, b, c, d, e, f, g, h, i)
    {
      var cells := new real[9];
      cells[0] := a;
      cells[1] := b;
      cells[2] := c;
      cells[3] := d;
      cells[4] := e;
      cells[5] := f;
      cells[6] := g;
      cells[7] := h;
      cells[8] := i;
      data := cells;
    }

    /** `operator()(row, col)`. */
    function At(row: int, col: int): (r: real)
      requires Valid() && 0 <= row < 3 && 0 <= col < 3
      reads this, data
      ensures r == Entry(data[..], row, col)
    {
      data[row * 3 + col]
    }

    /** `deteminant()` of the current entries. */
    function Determinant(): (r: real)
      requires Valid()
      reads this, data
      ensures r == Det(data[..])
    {
      data[0] * (data[4] * data[8] - data[5] * data[7]) -
      data[1] * (data[3] * data[8] - data[5] * data[6]) +
      data[2] * (data[3] * data[7] - data[4] * data[6])
    }

    /** `*this += m`; `m` may be this very matrix. */
    method AddAssign(m: Matrix3D)
      requires Valid() && m.Valid()
      modifies data
      ensures data[..] == Sum(old(data[..]), old(m.data[..]))
    {
      var i := 0;
      while i < 9
        invariant 0 <= i <= 9
        invariant forall k :: 0 <= k < i ==> data[k] == old(data[k]) + old(m.data[k])
        invariant forall k :: i <= k < 9 ==> data[k] == old(data[k]) && m.data[k] == old(m.data[k])
      {
        data[i] := data[i] + m.data[i];
        i := i + 1;
      }
    }

    /** `*this -= m`; `m` may be this very matrix. */
    method SubAssign(m: Matrix3D)
      requires Valid() && m.Valid()
      modifies data
      ensures data[..] == Difference(old(data[..]), old(m.data[..]))
    {
      var i := 0;
      while i < 9
        invariant 0 <= i <= 9
        invariant forall k :: 0 <= k < i ==> data[k] == old(data[k]) - old(m.data[k])
        invariant forall k :: i <= k < 9 ==> data[k] == old(data[k]) && m.data[k] == old(m.data[k])
      {
        data[i] := data[i] - m.data[i];
        i := i + 1;
      }
    }

    /**
     * `*this *= m`. The accumulator is zeroed first (the source leaves it
     * uninitialised, see `ProductAsWritten`), then filled by the triple loop
     * and copied back.
     */
    method MulAssign(m: Matrix3D)
      requires Valid() && m.Valid()
      modifies data
      ensures data[..] == Product(old(data[..]), old(m.data[..]))
    {
      var temp := ZeroedProduct(data, m.data);
      var c := 0;
      while c < 9
        invariant 0 <= c <= 9
        invariant forall k :: 0 <= k < c ==> data[k] == temp[k]
        modifies data
      {
        data[c] := temp[c];
        c := c + 1;
      }
      assert data[..] == temp[..];
    }

    /** `*this *= f`. */
    method ScaleAssign(f: real)
      requires Valid()
      modifies data
      ensures data[..] == Scaled(old(data[..]), f)
    {
      var i := 0;
      while i < 9
        invariant 0 <= i <= 9
        invariant forall k :: 0 <= k < i ==> data[k] == Scaled(old(data[..]), f)[k]
        invariant forall k :: i <= k < 9 ==> data[k] == old(data[k])
      {
        data[i] := data[i] * f;
        i := i + 1;
      }
    }

    /** `*this /= f`, for a nonzero `f`. */
    method DivAssign(f: real)
      requires Valid() && f != 0.0
      modifies data
      ensures data[..] == Divided(old(data[..]), f)
    {
      var i := 0;
      while i < 9
        invariant 0 <= i <= 9
        invariant forall k :: 0 <= k < i ==> data[k] == Divided(old(data[..]), f)[k]
        invariant forall k :: i <= k < 9 ==> data[k] == old(data[k])
      {
        data[i] := data[i] / f;
        i := i + 1;
      }
    }

    /** `transpose()`, in place through a temporary. */
    method Transpose()
      requires Valid()
      modifies data
      ensures data[..] == Transposed(old(data[..]))
    {
      var temp := TransposedCopy(data);
      var c := 0;
      while c < 9
        invariant 0 <= c <= 9
        invariant forall k :: 0 <= k < c ==> data[k] == temp[k]
        modifies data
      {
        data[c] := temp[c];
        c := c + 1;
      }
      assert data[..] == temp[..];
    }
  }
}
