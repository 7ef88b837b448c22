/** The fixed-size vector and matrix algebra of the older math layer,
    instantiated at integers. A vector has four components; a matrix has
    sixteen, stored row by row (entry 4i+j is row i, column j). */
module Algebra {

  type Vector = v: seq<int> | |v| == 4 witness [0, 0, 0, 0]
  type Matrix = m: seq<int> | |m| == 16 witness [0, 0, 0, 0, 0, 0, 0, 0, 0, 0, 0, 0, 0, 0, 0, 0]

  /** The shared body of the initializer-list constructors: copy leading
      entries while both the buffer and the list last, then zero-fill. */
  method Fill(list: seq<int>, n: nat) returns (buffer: seq<int>)
    ensures |buffer| == n
    ensures forall i :: 0 <= i < n && i < |list| ==> buffer[i] == list[i]
    ensures forall i :: |list| <= i < n ==> buffer[i] == 0
  {
    buffer := [];
    var index := 0;
    while index < n && index < |list|
      invariant index <= n && index <= |list|
      invariant |buffer| == index
      invariant forall i :: 0 <= i < index ==> buffer[i] == list[i]
    {
      buffer := buffer + [list[index]];
      index := index + 1;
    }
    while index < n
      invariant index <= n
      invariant |buffer| == index
      invariant forall i :: 0 <= i < index && i < |list| ==> buffer[i] == list[i]
      invariant forall i :: |list| <= i < index ==> buffer[i] == 0
    {
      buffer := buffer + [0];
      index := index + 1;
    }
  }

  method VectorFromList(list: seq<int>) returns (v: Vector)
    ensures forall i :: 0 <= i < 4 ==> v[i] == (if i < |list| then list[i] else 0)
  {
    v := Fill(list, 4);
  }

  method MatrixFromList(list: seq<int>) returns (m: Matrix)
    ensures forall i :: 0 <= i < 16 ==> m[i] == (if i < |list| then list[i] else 0)
  {
    m := Fill(list, 16);
  }

  /** The dot product over x, y and z: the w components take no part. */
  function Dot(a: Vector, b: Vector): (r: int)
    ensures r == TermSum(a, b, 3)
  {
    TermSumExpand(a, b);
    a[0] * b[0] + a[1] * b[1] + a[2] * b[2]
  }

  /** The cross product of the xyz parts, orthogonal to both operands; w is
      the left operand's. */
  function Cross(a: Vector, b: Vector): (r: Vector)
    ensures r[3] == a[3]
    ensures Dot(r, a) == 0 && Dot(r, b) == 0
  {
    [a[1] * b[2] - a[2] * b[1], a[2] * b[0] - a[0] * b[2], a[0] * b[1] - a[1] * b[0], a[3]]
  }

  /** Entry (i, j) of the transpose is entry (j, i). */
  function Transpose(a: Matrix): (r: Matrix)
    ensures forall i, j :: 0 <= i < 4 && 0 <= j < 4 ==> r[4 * i + j] == a[4 * j + i]
  {
    [a[0], a[4], a[8],  a[12],
     a[1], a[5], a[9],  a[13],
     a[2], a[6], a[10], a[14],
     a[3], a[7], a[11], a[15]]
  }

  function Add(a: Vector, b: Vector): Vector {
    [a[0] + b[0], a[1] + b[1], a[2] + b[2], a[3]]
  }

  function Sub(a: Vector, b: Vector): Vector {
    [a[0] - b[0], a[1] - b[1], a[2] - b[2], a[3]]
  }

  function ScaleVector(k: int, b: Vector): Vector {
    [k * b[0], k * b[1], k * b[2], b[3]]
  }

  function ScaleMatrix(k: int, b: Matrix): Matrix {
    seq(16, i requires 0 <= i < 16 => k * b[i])
  }

  /** Component i is row i of t times v. */
  function MatVec(t: Matrix, v: Vector): (r: Vector)
    ensures forall i :: 0 <= i < 4 ==> r[i] == RowSum(t, i, v, 4)
  {
    RowSumsExpand(t, v);
    [t[0] * v[0] + t[1] * v[1] + t[2] * v[2] + t[3] * v[3],
     t[4] * v[0] + t[5] * v[1] + t[6] * v[2] + t[7] * v[3],
     t[8] * v[0] + t[9] * v[1] + t[10] * v[2] + t[11] * v[3],
     t[12] * v[0] + t[13] * v[1] + t[14] * v[2] + t[15] * v[3]]
  }

  /** The product written out entry by entry, as the editor does. */
  function Product(a: Matrix, b: Matrix): Matrix {
    [a[0] * b[0] + a[1] * b[4] + a[2] * b[8] + a[3] * b[12],
     a[0] * b[1] + a[1] * b[5] + a[2] * b[9] + a[3] * b[13],
     a[0] * b[2] + a[1] * b[6] + a[2] * b[10] + a[3] * b[14],
     a[0] * b[3] + a[1] * b[7] + a[2] * b[11] + a[3] * b[15],
     a[4] * b[0] + a[5] * b[4] + a[6] * b[8] + a[7] * b[12],
     a[4] * b[1] + a[5] * b[5] + a[6] * b[9] + a[7] * b[13],
     a[4] * b[2] + a[5] * b[6] + a[6] * b[10] + a[7] * b[14],
     a[4] * b[3] + a[5] * b[7] + a[6] * b[11] + a[7] * b[15],
     a[8] * b[0] + a[9] * b[4] + a[10] * b[8] + a[11] * b[12],
     a[8] * b[1] + a[9] * b[5] + a[10] * b[9] + a[11] * b[13],
     a[8] * b[2] + a[9] * b[6] + a[10] * b[10] + a[11] * b[14],
     a[8] * b[3] + a[9] * b[7] + a[10] * b[11] + a[11] * b[15],
     a[12] * b[0] + a[13] * b[4] + a[14] * b[8] + a[15] * b[12],
     a[12] * b[1] + a[13] * b[5] + a[14] * b[9] + a[15] * b[13],
     a[12] * b[2] + a[13] * b[6] + a[14] * b[10] + a[15] * b[14],
     a[12] * b[3] + a[13] * b[7] + a[14] * b[11] + a[15] * b[15]]
  }

  /** The sixteen hand-written entries are the row-by-column sums. */
  lemma ProductEntries(a: Matrix, b: Matrix)
    ensures forall i, j :: 0 <= i < 4 && 0 <= j < 4 ==> Product(a, b)[4 * i + j] == EntrySum(a, b, i, j, 4)
  {
    forall i, j | 0 <= i < 4 && 0 <= j < 4
      ensures Product(a, b)[4 * i + j] == EntrySum(a, b, i, j, 4)
    {
      assert EntrySum(a, b, i, j, 1) == a[4 * i] * b[j];
      assert EntrySum(a, b, i, j, 2) == a[4 * i] * b[j] + a[4 * i + 1] * b[4 + j];
      assert EntrySum(a, b, i, j, 3) == EntrySum(a, b, i, j, 2) + a[4 * i + 2] * b[8 + j];
    }
  }

  /** The matrix product: entry (i, j) is row i of a times column j of b. */
  function MatMul(a: Matrix, b: Matrix): (r: Matrix)
    ensures forall i, j :: 0 <= i < 4 && 0 <= j < 4 ==> r[4 * i + j] == EntrySum(a, b, i, j, 4)
  {
    ProductEntries(a, b);
    Product(a, b)
  }

  /** Reference definition: the first n terms of row i of t times v. */
  function RowSum(t: Matrix, i: nat, v: Vector, n: nat): int
    requires i < 4 && n <= 4
  {
    if n == 0 then 0 else RowSum(t, i, v, n - 1) + t[4 * i + n - 1] * v[n - 1]
  }

  /** Reference definition: the first n terms of row i of a times column j of b. */
  function EntrySum(a: Matrix, b: Matrix, i: nat, j: nat, n: nat): int
    requires i < 4 && j < 4 && n <= 4
  {
    if n == 0 then 0 else EntrySum(a, b, i, j, n - 1) + a[4 * i + n - 1] * b[4 * (n - 1) + j]
  }

  /** Reference definition: the first n products of matching components. */
  function TermSum(a: Vector, b: Vector, n: nat): int
    requires n <= 4
  {
    if n == 0 then 0 else TermSum(a, b, n - 1) + a[n - 1] * b[n - 1]
  }

  lemma TermSumExpand(a: Vector, b: Vector)
    ensures TermSum(a, b, 3) == a[0] * b[0] + a[1] * b[1] + a[2] * b[2]
  {
    assert TermSum(a, b, 1) == a[0] * b[0];
  }

  lemma RowSumsExpand(t: Matrix, v: Vector)
    ensures forall i :: 0 <= i < 4 ==> RowSum(t, i, v, 4) == t[4 * i] * v[0] + t[4 * i + 1] * v[1] + t[4 * i + 2] * v[2] + t[4 * i + 3] * v[3]
  {
    forall i | 0 <= i < 4
      ensures RowSum(t, i, v, 4) == t[4 * i] * v[0] + t[4 * i + 1] * v[1] + t[4 * i + 2] * v[2] + t[4 * i + 3] * v[3]
    {
      assert RowSum(t, i, v, 1) == t[4 * i] * v[0];
      assert RowSum(t, i, v, 2) == t[4 * i] * v[0] + t[4 * i + 1] * v[1];
      assert RowSum(t, i, v, 3) == RowSum(t, i, v, 2) + t[4 * i + 2] * v[2];
    }
  }

  const Identity: Matrix := [1, 0, 0, 0, 0, 1, 0, 0, 0, 0, 1, 0, 0, 0, 0, 1]

  lemma TransposeInvolution(m: Matrix)
    ensures Transpose(Transpose(m)) == m
  {
  }

  lemma DotSymmetricIgnoresW(a: Vector, b: Vector, w: int)
    ensures Dot(a, b) == Dot(b, a)
    ensures Dot(a, b) == Dot(a[3 := w], b) == Dot(a, b[3 := w])
  {
  }

  lemma CrossProperties(a: Vector, b: Vector)
    ensures forall k :: 0 <= k < 3 ==> Cross(a, b)[k] == -Cross(b, a)[k]
    ensures forall k :: 0 <= k < 3 ==> Cross(a, a)[k] == 0
  {
  }

  lemma AddSubInverse(a: Vector, b: Vector)
    ensures Sub(Add(a, b), b) == a
    ensures Add(Sub(a, b), b) == a
    ensures Add(a, b)[3] == a[3] && Sub(a, b)[3] == a[3]
  {
  }

  lemma ScaleVectorProperties(k: int, b: Vector)
    ensures ScaleVector(k, b)[3] == b[3]
    ensures forall i :: 0 <= i < 3 ==> ScaleVector(k, b)[i] == k * b[i]
    ensures Dot(ScaleVector(k, b), b) == k * Dot(b, b)
    ensures ScaleVector(1, b) == b
  {
  }

  lemma ScaleMatrixProperties(k: int, b: Matrix, v: Vector)
    ensures forall i :: 0 <= i < 16 ==> ScaleMatrix(k, b)[i] == k * b[i]
    ensures Transpose(ScaleMatrix(k, b)) == ScaleMatrix(k, Transpose(b))
    ensures forall i :: 0 <= i < 4 ==> MatVec(ScaleMatrix(k, b), v)[i] == k * MatVec(b, v)[i]
  {
    var s := ScaleMatrix(k, b);
    forall i | 0 <= i < 4
      ensures MatVec(s, v)[i] == k * MatVec(b, v)[i]
    {
      var r := 4 * i;
      calc {
        MatVec(s, v)[i];
        s[r] * v[0] + s[r + 1] * v[1] + s[r + 2] * v[2] + s[r + 3] * v[3];
        (k * b[r]) * v[0] + (k * b[r + 1]) * v[1] + (k * b[r + 2]) * v[2] + (k * b[r + 3]) * v[3];
        { MulAssoc4(k, b[r], v[0], b[r + 1], v[1], b[r + 2], v[2], b[r + 3], v[3]); }
        k * (b[r] * v[0] + b[r + 1] * v[1] + b[r + 2] * v[2] + b[r + 3] * v[3]);
      }
    }
  }

  lemma MulAssoc4(k: int, a0: int, x0: int, a1: int, x1: int, a2: int, x2: int, a3: int, x3: int)
    ensures (k * a0) * x0 + (k * a1) * x1 + (k * a2) * x2 + (k * a3) * x3
         == k * (a0 * x0 + a1 * x1 + a2 * x2 + a3 * x3)
  {
  }

  lemma IdentityNeutral(m: Matrix, v: Vector)
    ensures MatMul(Identity, m) == m && MatMul(m, Identity) == m
    ensures MatVec(Identity, v) == v
  {
  }

  lemma {:induction false} EntrySumOfTransposes(x: Matrix, y: Matrix, a: Matrix, b: Matrix, i: nat, j: nat, n: nat)
    requires i < 4 && j < 4 && n <= 4
    requires forall k :: 0 <= k < n ==> x[4 * i + k] == b[4 * k + i]
    requires forall k :: 0 <= k < n ==> y[4 * k + j] == a[4 * j + k]
    ensures EntrySum(x, y, i, j, n) == EntrySum(a, b, j, i, n)
  {
    if n > 0 {
      EntrySumOfTransposes(x, y, a, b, i, j, n - 1);
      var u, w := a[4 * j + (n - 1)], b[4 * (n - 1) + i];
      assert x[4 * i + (n - 1)] * y[4 * (n - 1) + j] == w * u;
    }
  }

  lemma TransposeOfProduct(a: Matrix, b: Matrix)
    ensures Transpose(MatMul(a, b)) == MatMul(Transpose(b), Transpose(a))
  {
    var l, r := Transpose(MatMul(a, b)), MatMul(Transpose(b), Transpose(a));
    forall k | 0 <= k < 16
      ensures l[k] == r[k]
    {
      var i, j := k / 4, k % 4;
      assert k == 4 * i + j;
      EntrySumOfTransposes(Transpose(b), Transpose(a), a, b, i, j, 4);
    }
  }
}
