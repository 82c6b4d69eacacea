/** Three-component vectors, 3x3 matrices and the exact inverse that numpy's
    `inv` approximates. Every colour-space "matmul with a constant matrix" in the
    source is `Apply` here. */
module LinearAlgebra {

  datatype Vec3 = Vec3(a: real, b: real, c: real) {
    /** Component by index, as the source's `triplet[index]`. */
    function At(i: nat): real
      requires i < 3
    {
      if i == 0 then a else if i == 1 then b else c
    }

    function Sum(): real { a + b + c }

    predicate NonNegative() { 0.0 <= a && 0.0 <= b && 0.0 <= c }

    /** Every component in [0, 1]. */
    predicate InUnitCube() { 0.0 <= a <= 1.0 && 0.0 <= b <= 1.0 && 0.0 <= c <= 1.0 }
  }

  datatype Mat3 = Mat3(r0: Vec3, r1: Vec3, r2: Vec3) {
    function Row(i: nat): Vec3
      requires i < 3
    {
      if i == 0 then r0 else if i == 1 then r1 else r2
    }

    function Column(j: nat): Vec3
      requires j < 3
    {
      Vec3(r0.At(j), r1.At(j), r2.At(j))
    }
  }

  function Dot(u: Vec3, v: Vec3): real
  {
    u.a * v.a + u.b * v.b + u.c * v.c
  }

  /** numpy `matmul(m, v)` for a 3x3 matrix and a 3-vector. */
  function Apply(m: Mat3, v: Vec3): Vec3
  {
    Vec3(Dot(m.r0, v), Dot(m.r1, v), Dot(m.r2, v))
  }

  function Scale(k: real, v: Vec3): Vec3
  {
    Vec3(k * v.a, k * v.b, k * v.c)
  }

  function Det(m: Mat3): real
  {
    m.r0.a * (m.r1.b * m.r2.c - m.r1.c * m.r2.b)
    - m.r0.b * (m.r1.a * m.r2.c - m.r1.c * m.r2.a)
    + m.r0.c * (m.r1.a * m.r2.b - m.r1.b * m.r2.a)
  }

  /** Cross product of two 3-vectors. */
  function Cross(u: Vec3, v: Vec3): Vec3
  {
    Vec3(u.b * v.c - u.c * v.b, u.c * v.a - u.a * v.c, u.a * v.b - u.b * v.a)
  }

  /** Transposed cofactor matrix: its columns are the cross products of pairs of
      rows, so m * Adjugate(m) == Det(m) * I. */
  function Adjugate(m: Mat3): Mat3
  {
    Transpose(Mat3(Cross(m.r1, m.r2), Cross(m.r2, m.r0), Cross(m.r0, m.r1)))
  }

  /** Every row scaled by the same factor. */
  function ScaleRows(k: real, m: Mat3): Mat3
  {
    Mat3(Scale(k, m.r0), Scale(k, m.r1), Scale(k, m.r2))
  }

  /** The exact inverse of an invertible matrix (numpy `inv`). */
  function Inverse(m: Mat3): Mat3
    requires Det(m) != 0.0
  {
    ScaleRows(1.0 / Det(m), Adjugate(m))
  }

  function Transpose(m: Mat3): Mat3
  {
    Mat3(Vec3(m.r0.a, m.r1.a, m.r2.a), Vec3(m.r0.b, m.r1.b, m.r2.b), Vec3(m.r0.c, m.r1.c, m.r2.c))
  }

  /** Matrix product, used only to reason about composed applications. */
  function Product(p: Mat3, m: Mat3): Mat3
  {
    var t := Transpose(m);
    Mat3(
      Vec3(Dot(p.r0, t.r0), Dot(p.r0, t.r1), Dot(p.r0, t.r2)),
      Vec3(Dot(p.r1, t.r0), Dot(p.r1, t.r1), Dot(p.r1, t.r2)),
      Vec3(Dot(p.r2, t.r0), Dot(p.r2, t.r1), Dot(p.r2, t.r2)))
  }

  function Diagonal(k: real): Mat3
  {
    Mat3(Vec3(k, 0.0, 0.0), Vec3(0.0, k, 0.0), Vec3(0.0, 0.0, k))
  }

  lemma DotOfApply(p: Vec3, m: Mat3, v: Vec3)
    ensures Dot(p, Apply(m, v)) == Dot(Apply(Transpose(m), p), v)
  {
  }

  lemma ApplyProduct(p: Mat3, m: Mat3, v: Vec3)
    ensures Apply(p, Apply(m, v)) == Apply(Product(p, m), v)
  {
    assert Apply(p, Apply(m, v)).a == Apply(Product(p, m), v).a by { DotOfApply(p.r0, m, v); }
    assert Apply(p, Apply(m, v)).b == Apply(Product(p, m), v).b by { DotOfApply(p.r1, m, v); }
    assert Apply(p, Apply(m, v)).c == Apply(Product(p, m), v).c by { DotOfApply(p.r2, m, v); }
  }

  /** The scalar triple product is the determinant, and vanishes when a vector repeats. */
  lemma TripleProduct(u: Vec3, v: Vec3, w: Vec3)
    ensures Dot(u, Cross(v, w)) == Det(Mat3(u, v, w))
    ensures Dot(v, Cross(v, w)) == 0.0 && Dot(w, Cross(v, w)) == 0.0
  {
  }

  lemma DetCyclic(u: Vec3, v: Vec3, w: Vec3)
    ensures Det(Mat3(u, v, w)) == Det(Mat3(v, w, u))
  {
  }

  lemma DetOfTranspose(m: Mat3)
    ensures Det(Transpose(m)) == Det(m)
  {
  }

  lemma DotCommutes(u: Vec3, v: Vec3)
    ensures Dot(u, v) == Dot(v, u)
  {
  }

  lemma AdjugateRight(m: Mat3)
    ensures Product(m, Adjugate(m)) == Diagonal(Det(m))
  {
    var x := Mat3(Cross(m.r1, m.r2), Cross(m.r2, m.r0), Cross(m.r0, m.r1));
    assert Transpose(Transpose(x)) == x;
    TripleProduct(m.r0, m.r1, m.r2);
    TripleProduct(m.r1, m.r2, m.r0);
    TripleProduct(m.r2, m.r0, m.r1);
    DetCyclic(m.r0, m.r1, m.r2);
    DetCyclic(m.r1, m.r2, m.r0);
  }

  lemma DotScaleLeft(k: real, u: Vec3, v: Vec3)
    ensures Dot(Scale(k, u), v) == k * Dot(u, v)
  {
  }

  lemma DotScaleRight(k: real, u: Vec3, v: Vec3)
    ensures Dot(u, Scale(k, v)) == k * Dot(u, v)
  {
  }

  lemma ApplyScaleRows(m: Mat3, k: real, v: Vec3)
    ensures Apply(ScaleRows(k, m), v) == Scale(k, Apply(m, v))
  {
    assert Apply(ScaleRows(k, m), v).a == Scale(k, Apply(m, v)).a by { DotScaleLeft(k, m.r0, v); }
    assert Apply(ScaleRows(k, m), v).b == Scale(k, Apply(m, v)).b by { DotScaleLeft(k, m.r1, v); }
    assert Apply(ScaleRows(k, m), v).c == Scale(k, Apply(m, v)).c by { DotScaleLeft(k, m.r2, v); }
  }

  lemma ApplyOfScale(m: Mat3, k: real, v: Vec3)
    ensures Apply(m, Scale(k, v)) == Scale(k, Apply(m, v))
  {
    assert Apply(m, Scale(k, v)).a == Scale(k, Apply(m, v)).a by { DotScaleRight(k, m.r0, v); }
    assert Apply(m, Scale(k, v)).b == Scale(k, Apply(m, v)).b by { DotScaleRight(k, m.r1, v); }
    assert Apply(m, Scale(k, v)).c == Scale(k, Apply(m, v)).c by { DotScaleRight(k, m.r2, v); }
  }

  lemma ApplyDiagonal(k: real, v: Vec3)
    ensures Apply(Diagonal(k), v) == Scale(k, v)
  {
  }

  lemma ScaleReciprocal(d: real, v: Vec3)
    requires d != 0.0
    ensures Scale(1.0 / d, Scale(d, v)) == v
  {
    assert (1.0 / d) * (d * v.a) == v.a;
    assert (1.0 / d) * (d * v.b) == v.b;
    assert (1.0 / d) * (d * v.c) == v.c;
  }

  /** The matrix undoes its inverse. */
  lemma {:induction false} InverseRight(m: Mat3, v: Vec3)
    requires Det(m) != 0.0
    ensures Apply(m, Apply(Inverse(m), v)) == v
  {
    var k := 1.0 / Det(m);
    calc {
      Apply(m, Apply(Inverse(m), v));
      { ApplyScaleRows(Adjugate(m), k, v); }
      Apply(m, Scale(k, Apply(Adjugate(m), v)));
      { ApplyOfScale(m, k, Apply(Adjugate(m), v)); }
      Scale(k, Apply(m, Apply(Adjugate(m), v)));
      { ApplyProduct(m, Adjugate(m), v); AdjugateRight(m); }
      Scale(k, Apply(Diagonal(Det(m)), v));
      { ApplyDiagonal(Det(m), v); }
      Scale(k, Scale(Det(m), v));
      { ScaleReciprocal(Det(m), v); }
      v;
    }
  }

  function Unit(k: nat): Vec3
    requires k < 3
  {
    if k == 0 then Vec3(1.0, 0.0, 0.0) else if k == 1 then Vec3(0.0, 1.0, 0.0) else Vec3(0.0, 0.0, 1.0)
  }

  /** A component of x is fixed by what m does to x: with b the inverse of
      m's transpose, x[k] == Dot(m x, b e_k). */
  lemma {:induction false} ComponentThroughTranspose(m: Mat3, x: Vec3, k: nat)
    requires Det(m) != 0.0 && k < 3
    ensures Det(Transpose(m)) != 0.0
    ensures x.At(k) == Dot(Apply(m, x), Apply(Inverse(Transpose(m)), Unit(k)))
  {
    DetOfTranspose(m);
    var y := Apply(Inverse(Transpose(m)), Unit(k));
    InverseRight(Transpose(m), Unit(k));
    DotOfApply(y, m, x);
    DotCommutes(y, Apply(m, x));
  }

  /** Inverse undoes the matrix: the source relies on this whenever it defines
      one conversion matrix as `inv` of another. Two vectors with the same image
      under an invertible matrix agree componentwise. */
  lemma {:induction false} InverseLeft(m: Mat3, v: Vec3)
    requires Det(m) != 0.0
    ensures Apply(Inverse(m), Apply(m, v)) == v
  {
    var w := Apply(Inverse(m), Apply(m, v));
    InverseRight(m, Apply(m, v));
    ComponentThroughTranspose(m, w, 0);
    ComponentThroughTranspose(m, v, 0);
    ComponentThroughTranspose(m, w, 1);
    ComponentThroughTranspose(m, v, 1);
    ComponentThroughTranspose(m, w, 2);
    ComponentThroughTranspose(m, v, 2);
  }

  /** matmul with a unit vector picks out a column. */
  lemma ApplyUnit(m: Mat3, j: nat)
    requires j < 3
    ensures Apply(m, if j == 0 then Vec3(1.0, 0.0, 0.0) else if j == 1 then Vec3(0.0, 1.0, 0.0) else Vec3(0.0, 0.0, 1.0))
            == m.Column(j)
  {
  }

  /** Applying a matrix to (1, 1, 1) gives the row sums. */
  lemma ApplyOnes(m: Mat3)
    ensures Apply(m, Vec3(1.0, 1.0, 1.0)) == Vec3(m.r0.Sum(), m.r1.Sum(), m.r2.Sum())
  {
  }

  /** Every matrix maps black to black. */
  lemma ApplyZero(m: Mat3)
    ensures Apply(m, Vec3(0.0, 0.0, 0.0)) == Vec3(0.0, 0.0, 0.0)
  {
  }
}
