/** Read-only, zero-copy views over a container of reals.

    Each view class of the library is a datatype whose members answer `Size()` and `At(i)`;
    a view stores only a description of where its values come from (a window over a
    container, one override, a constant, two views and an operator), never a copy.
    Composition of views is nesting of these values, through the closed union `View`. */
module Ranges {

  /** A position in a container together with the start of the window it was taken from
      (`iters::iterator`: the pair `_begin`, `_current`). */
  datatype Iterator = Iterator(data: seq<real>, begin: nat, current: nat)
  {
    predicate Valid() { begin <= current <= |data| }

    /** Distance from the start of the window. */
    function Num(): nat
      requires Valid()
    {
      current - begin
    }

    /** The element the iterator points at. */
    function Deref(): real
      requires Valid() && current < |data|
    {
      data[current]
    }
  }

  /** The window [begin, end) of a container (`range_proto` with const iterators, `const_range`). */
  datatype ConstRange = ConstRange(data: seq<real>, begin: nat, end: nat)
  {
    predicate Valid() { begin <= end <= |data| }

    function Size(): nat
      requires Valid()
    {
      end - begin
    }

    function At(i: nat): real
      requires Valid() && i < Size()
    {
      data[begin + i]
    }

    function Begin(): Iterator { Iterator(data, begin, begin) }

    function End(): Iterator { Iterator(data, begin, end) }

    function IteratorAt(n: nat): Iterator { Iterator(data, begin, begin + n) }

    /** The values the window shows, in order. */
    function Contents(): (s: seq<real>)
      requires Valid()
      ensures |s| == Size()
      ensures forall i :: 0 <= i < |s| ==> s[i] == At(i)
    {
      data[begin..end]
    }
  }

  /** `const_range(cont)`: the window over the whole container. */
  function OfContainer(data: seq<real>): (r: ConstRange)
    ensures r.Valid() && r.Size() == |data|
    ensures forall i :: 0 <= i < |data| ==> r.At(i) == data[i]
    ensures r.Contents() == data
  {
    ConstRange(data, 0, |data|)
  }

  /** `begin()` is at position 0 and `end()` at position `size()`; both carry the same start,
      so that they compare with `operator==`, and `iterator_at(size())` is `end()`. */
  lemma IteratorBounds(r: ConstRange)
    requires r.Valid()
    ensures r.Begin().Valid() && r.Begin().Num() == 0
    ensures r.End().Valid() && r.End().Num() == r.Size()
    ensures r.Begin().begin == r.End().begin == r.begin
    ensures r.IteratorAt(r.Size()) == r.End() && r.IteratorAt(0) == r.Begin()
  {
  }

  /** `iterator_at(i)` is at position `i` and dereferences to `at(i)`. */
  lemma IteratorAtAgrees(r: ConstRange, i: nat)
    requires r.Valid() && i < r.Size()
    ensures r.IteratorAt(i).Valid() && r.IteratorAt(i).Num() == i
    ensures r.IteratorAt(i).current < |r.data| && r.IteratorAt(i).Deref() == r.At(i)
  {
  }

  /** An iterator of a substitution view: the override is shown at position `idx`
      (`iters::subs_iterator`). */
  datatype SubsIterator = SubsIterator(it: Iterator, idx: nat, val: real)
  {
    predicate Valid() { it.Valid() }

    function Num(): nat
      requires Valid()
    {
      it.Num()
    }

    function Deref(): real
      requires Valid() && it.current < |it.data|
    {
      if it.Num() == idx then val else it.Deref()
    }
  }

  /** A window with one `(idx, val)` override (`subs_range`). The override is consulted only
      on access, so an `idx` outside the window is accepted and never shown. */
  datatype SubsRange = SubsRange(base: ConstRange, idx: nat, val: real)
  {
    predicate Valid() { base.Valid() }

    function Size(): nat
      requires Valid()
    {
      base.Size()
    }

    function At(i: nat): real
      requires Valid() && i < Size()
    {
      if i == idx then val else base.At(i)
    }

    function Begin(): SubsIterator { SubsIterator(base.Begin(), idx, val) }

    function End(): SubsIterator { SubsIterator(base.End(), idx, val) }

    function IteratorAt(n: nat): SubsIterator { SubsIterator(base.IteratorAt(n), idx, val) }

    /** The values the view shows: its base with element `idx` replaced by `val`, or the
        base unchanged when `idx` lies outside the window. */
    function Contents(): (s: seq<real>)
      requires Valid()
      ensures |s| == Size()
      ensures forall i :: 0 <= i < |s| ==> s[i] == At(i)
      ensures idx < Size() ==> s == base.Contents()[idx := val]
      ensures idx >= Size() ==> s == base.Contents()
    {
      seq(Size(), i requires 0 <= i < Size() => At(i))
    }
  }

  /** `subs_range(cont, {idx, val})`: the whole container with one override. */
  function SubsOfContainer(data: seq<real>, idx: nat, val: real): (r: SubsRange)
    ensures r.Valid() && r.Size() == |data| && r.base == OfContainer(data)
    ensures idx < |data| ==> r.Contents() == data[idx := val]
    ensures idx >= |data| ==> r.Contents() == data
  {
    SubsRange(OfContainer(data), idx, val)
  }

  /** A substitution view is its base with one element replaced: the override at `idx`,
      the base everywhere else, and the same size. */
  lemma SubsIsUpdate(r: SubsRange)
    requires r.Valid()
    ensures r.Size() == r.base.Size()
    ensures r.idx < r.Size() ==> r.At(r.idx) == r.val
    ensures forall j :: 0 <= j < r.Size() && j != r.idx ==> r.At(j) == r.base.At(j)
  {
  }

  /** `subs_range::iterator_at(i)` is at position `i` and dereferences to `at(i)`:
      the override at `idx`, the base element elsewhere. */
  lemma SubsIteratorAtAgrees(r: SubsRange, i: nat)
    requires r.Valid() && i < r.Size()
    ensures r.IteratorAt(i).Valid() && r.IteratorAt(i).Num() == i
    ensures r.IteratorAt(i).it.current < |r.base.data|
    ensures r.IteratorAt(i).Deref() == r.At(i)
    ensures r.Begin().Num() == 0 && r.End().Valid() && r.End().Num() == r.Size()
  {
  }

  /** A constant sequence of `n` copies of `body`, with no storage (`scalar_range`). */
  datatype ScalarRange = ScalarRange(n: nat, body: real)
  {
    function Size(): nat { n }

    function At(i: nat): real
      requires i < Size()
    {
      body
    }
  }

  /** The closed set of views the library composes: a window, a window with one override,
      a constant sequence, and the element-wise combination of two views under a binary
      operator (`bop_range`). */
  datatype View =
    | Const(range: ConstRange)
    | Subs(subs: SubsRange)
    | Scalar(scalar: ScalarRange)
    | Bop(op: (real, real) -> real, left: View, right: View)
  {
    /** Windows lie inside their containers, and the two sides of a `Bop` have one size. */
    predicate Valid()
      decreases this, 0
    {
      match this
      case Const(r) => r.Valid()
      case Subs(s) => s.Valid()
      case Scalar(_) => true
      case Bop(_, l, r) => l.Valid() && r.Valid() && l.Size() == r.Size()
    }

    function Size(): nat
      requires Valid()
      decreases this, 1
    {
      match this
      case Const(r) => r.Size()
      case Subs(s) => s.Size()
      case Scalar(sr) => sr.Size()
      case Bop(_, l, _) => l.Size()
    }

    function At(i: nat): real
      requires Valid() && i < Size()
      decreases this, 2
    {
      match this
      case Const(r) => r.At(i)
      case Subs(s) => s.At(i)
      case Scalar(sr) => sr.At(i)
      case Bop(op, l, r) => op(l.At(i), r.At(i))
    }

    /** The values a caller sees through the view, in order. */
    function Contents(): (s: seq<real>)
      requires Valid()
      ensures |s| == Size()
      ensures forall i :: 0 <= i < |s| ==> s[i] == At(i)
    {
      seq(Size(), i requires 0 <= i < Size() => At(i))
    }
  }
}
