/** Element-wise combinators: lazy views whose element `i` is an operator applied to
    element `i` of two equal-sized views. */
module Operations {
  import opened Ranges

  /** The three operators combinators are built from (`plus`, `minus`, `multiply`). */
  function Plus(a: real, b: real): real { a + b }

  function Minus(a: real, b: real): real { a - b }

  function Multiply(a: real, b: real): real { a * b }

  /** `sum(c1, c2)`: the lazy element-wise sum of two views of one size. */
  function Sum(c1: View, c2: View): (r: View)
    requires c1.Valid() && c2.Valid() && c1.Size() == c2.Size()
    ensures r.Valid() && r.Size() == c1.Size()
    ensures forall i :: 0 <= i < r.Size() ==> r.At(i) == c1.At(i) + c2.At(i)
  {
    Bop(Plus, c1, c2)
  }

  /** `sub(c1, c2)`: the lazy element-wise difference. */
  function Sub(c1: View, c2: View): (r: View)
    requires c1.Valid() && c2.Valid() && c1.Size() == c2.Size()
    ensures r.Valid() && r.Size() == c1.Size()
    ensures forall i :: 0 <= i < r.Size() ==> r.At(i) == c1.At(i) - c2.At(i)
  {
    Bop(Minus, c1, c2)
  }

  /** `mul(c1, c2)`: the lazy element-wise product. */
  function Mul(c1: View, c2: View): (r: View)
    requires c1.Valid() && c2.Valid() && c1.Size() == c2.Size()
    ensures r.Valid() && r.Size() == c1.Size()
    ensures forall i :: 0 <= i < r.Size() ==> r.At(i) == c1.At(i) * c2.At(i)
  {
    Bop(Multiply, c1, c2)
  }

  /** `scalar_sum(v, r)`: `v` added to every element, through a scalar range of `r`'s size. */
  function ScalarSum(v: real, r: View): (s: View)
    requires r.Valid()
    ensures s.Valid() && s.Size() == r.Size()
    ensures forall i :: 0 <= i < s.Size() ==> s.At(i) == v + r.At(i)
  {
    Sum(Scalar(ScalarRange(r.Size(), v)), r)
  }

  /** `scalar_mul(v, r)`: every element scaled by `v`, through a scalar range of `r`'s size. */
  function ScalarMul(v: real, r: View): (s: View)
    requires r.Valid()
    ensures s.Valid() && s.Size() == r.Size()
    ensures forall i :: 0 <= i < s.Size() ==> s.At(i) == v * r.At(i)
  {
    Mul(Scalar(ScalarRange(r.Size(), v)), r)
  }

  /** The eager reference for a binary-operator view: the operator applied pairwise to two
      materialised sequences, first pair first. */
  function ZipWith(op: (real, real) -> real, s: seq<real>, t: seq<real>): seq<real>
    requires |s| == |t|
  {
    if s == [] then [] else [op(s[0], t[0])] + ZipWith(op, s[1..], t[1..])
  }

  lemma {:induction false} ZipWithAt(op: (real, real) -> real, s: seq<real>, t: seq<real>, i: nat)
    requires |s| == |t| && i < |s|
    ensures |ZipWith(op, s, t)| == |s|
    ensures ZipWith(op, s, t)[i] == op(s[i], t[i])
  {
    if i == 0 {
      ZipWithLength(op, s, t);
    } else {
      ZipWithAt(op, s[1..], t[1..], i - 1);
    }
  }

  lemma {:induction false} ZipWithLength(op: (real, real) -> real, s: seq<real>, t: seq<real>)
    requires |s| == |t|
    ensures |ZipWith(op, s, t)| == |s|
  {
    if s != [] {
      ZipWithLength(op, s[1..], t[1..]);
    }
  }

  /** A binary-operator view shows exactly what eagerly combining the two materialised
      inputs would produce: laziness changes nothing a caller can observe. */
  lemma BopIsZipWith(op: (real, real) -> real, c1: View, c2: View)
    requires c1.Valid() && c2.Valid() && c1.Size() == c2.Size()
    ensures Bop(op, c1, c2).Valid()
    ensures Bop(op, c1, c2).Contents() == ZipWith(op, c1.Contents(), c2.Contents())
  {
    var v := Bop(op, c1, c2);
    var z := ZipWith(op, c1.Contents(), c2.Contents());
    ZipWithLength(op, c1.Contents(), c2.Contents());
    forall i | 0 <= i < v.Size()
      ensures v.Contents()[i] == z[i]
    {
      ZipWithAt(op, c1.Contents(), c2.Contents(), i);
    }
  }

  /** Subtracting what was added gives back the original view. */
  lemma SubUndoesSum(a: View, b: View)
    requires a.Valid() && b.Valid() && a.Size() == b.Size()
    ensures Sub(Sum(a, b), b).Contents() == a.Contents()
  {
  }

  /** Sum does not depend on the order of its arguments. */
  lemma SumCommutes(a: View, b: View)
    requires a.Valid() && b.Valid() && a.Size() == b.Size()
    ensures Sum(a, b).Contents() == Sum(b, a).Contents()
  {
  }

  /** Two views that agree element by element show the same contents. */
  lemma SameContents(u: View, w: View)
    requires u.Valid() && w.Valid() && u.Size() == w.Size()
    requires forall i :: 0 <= i < u.Size() ==> u.At(i) == w.At(i)
    ensures u.Contents() == w.Contents()
  {
  }

  /** Subtracting the broadcast scalar undoes `scalar_sum`. */
  lemma ScalarSumInverse(v: real, r: View)
    requires r.Valid()
    ensures Sub(ScalarSum(v, r), Scalar(ScalarRange(r.Size(), v))).Contents() == r.Contents()
  {
    var l := Sub(ScalarSum(v, r), Scalar(ScalarRange(r.Size(), v)));
    forall i | 0 <= i < l.Size()
      ensures l.At(i) == r.At(i)
    {
      assert l.At(i) == (v + r.At(i)) - v;
    }
    SameContents(l, r);
  }

  lemma ScalarMulDistributesAt(k: real, a: View, b: View, i: nat)
    requires a.Valid() && b.Valid() && a.Size() == b.Size() && i < a.Size()
    ensures ScalarMul(k, Sum(a, b)).At(i) == Sum(ScalarMul(k, a), ScalarMul(k, b)).At(i)
  {
    var x, y := a.At(i), b.At(i);
    assert ScalarMul(k, Sum(a, b)).At(i) == k * (x + y);
    assert Sum(ScalarMul(k, a), ScalarMul(k, b)).At(i) == k * x + k * y;
  }

  /** Scaling distributes over a sum of views. */
  lemma ScalarMulDistributes(k: real, a: View, b: View)
    requires a.Valid() && b.Valid() && a.Size() == b.Size()
    ensures ScalarMul(k, Sum(a, b)).Contents() == Sum(ScalarMul(k, a), ScalarMul(k, b)).Contents()
  {
    forall i | 0 <= i < a.Size()
      ensures ScalarMul(k, Sum(a, b)).At(i) == Sum(ScalarMul(k, a), ScalarMul(k, b)).At(i)
    {
      ScalarMulDistributesAt(k, a, b, i);
    }
    SameContents(ScalarMul(k, Sum(a, b)), Sum(ScalarMul(k, a), ScalarMul(k, b)));
  }

  /** Scaling by 1 leaves the contents unchanged, and scaling twice scales by the product. */
  lemma ScalarMulComposes(k: real, m: real, r: View)
    requires r.Valid()
    ensures ScalarMul(1.0, r).Contents() == r.Contents()
    ensures ScalarMul(k, ScalarMul(m, r)).Contents() == ScalarMul(k * m, r).Contents()
  {
    var l := ScalarMul(k, ScalarMul(m, r));
    var q := ScalarMul(k * m, r);
    forall i | 0 <= i < l.Size()
      ensures l.Contents()[i] == q.Contents()[i]
    {
      assert l.At(i) == k * (m * r.At(i));
    }
  }
}
