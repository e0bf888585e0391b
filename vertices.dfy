/** The vertex record that both mesh loaders declare (position, normal,
    colour, texture coordinate) and the VertexComparator both declare for
    it: a lexicographic order over the twelve numbers. */
module Vertices {
  import opened Vectors

  /** A vertex: position, normal, colour and texture coordinate. */
  datatype Vertex = Vertex(v: Vec3, n: Vec3, c: Vec4, t: Vec2)

  // ---------------------------------------------------------------------
  // VertexComparator

  datatype Ordering = Less | Same | Greater

  /** One of the comparator's loops, from component i on: the first
      component that differs decides. */
  function CompareFrom(a: seq<real>, b: seq<real>, i: nat): Ordering
    requires |a| == |b| && i <= |a|
    decreases |a| - i
  {
    if i == |a| then Same
    else if a[i] < b[i] then Less
    else if a[i] > b[i] then Greater
    else CompareFrom(a, b, i + 1)
  }

  function Compare(a: seq<real>, b: seq<real>): Ordering
    requires |a| == |b|
  {
    CompareFrom(a, b, 0)
  }

  /** The next loop runs only when this one found no difference. */
  function Then(first: Ordering, rest: Ordering): Ordering
  {
    if first != Same then first else rest
  }

  function Flip(o: Ordering): Ordering
  {
    match o
    case Less => Greater
    case Same => Same
    case Greater => Less
  }

  /** The four loops in turn: position, normal, colour, texture coordinate. */
  function VertexOrder(v1: Vertex, v2: Vertex): Ordering
  {
    Then(Compare(v1.v, v2.v), Then(Compare(v1.n, v2.n), Then(Compare(v1.c, v2.c), Compare(v1.t, v2.t))))
  }

  /** VertexComparator::operator()(v1, v2) */
  predicate VertexLess(v1: Vertex, v2: Vertex)
  {
    VertexOrder(v1, v2) == Less
  }

  /** Swapping the arguments of one loop swaps Less and Greater. */
  lemma {:induction false} CompareFromFlip(a: seq<real>, b: seq<real>, i: nat)
    requires |a| == |b| && i <= |a|
    ensures CompareFrom(b, a, i) == Flip(CompareFrom(a, b, i))
    decreases |a| - i
  {
    if i < |a| && a[i] == b[i] {
      CompareFromFlip(a, b, i + 1);
    }
  }

  /** One loop finds no difference exactly when the remaining components
      are equal. */
  lemma {:induction false} CompareFromSame(a: seq<real>, b: seq<real>, i: nat)
    requires |a| == |b| && i <= |a|
    ensures CompareFrom(a, b, i) == Same <==> a[i..] == b[i..]
    decreases |a| - i
  {
    if i < |a| {
      CompareFromSame(a, b, i + 1);
      assert a[i..] == [a[i]] + a[i + 1..];
      assert b[i..] == [b[i]] + b[i + 1..];
    }
  }

  /** How the orderings of a against b, b against c and a against c fit
      together in a lexicographic order. */
  predicate Coherent(ab: Ordering, bc: Ordering, ac: Ordering)
  {
    && (ab == Same ==> ac == bc)
    && (bc == Same ==> ac == ab)
    && (ab == Less && bc == Less ==> ac == Less)
    && (ab == Greater && bc == Greater ==> ac == Greater)
  }

  lemma {:induction false} CompareFromCoherent(a: seq<real>, b: seq<real>, c: seq<real>, i: nat)
    requires |a| == |b| == |c| && i <= |a|
    ensures Coherent(CompareFrom(a, b, i), CompareFrom(b, c, i), CompareFrom(a, c, i))
    decreases |a| - i
  {
    if i < |a| {
      CompareFromCoherent(a, b, c, i + 1);
    }
  }

  lemma ThenCoherent(ab1: Ordering, bc1: Ordering, ac1: Ordering, ab2: Ordering, bc2: Ordering, ac2: Ordering)
    requires Coherent(ab1, bc1, ac1) && Coherent(ab2, bc2, ac2)
    ensures Coherent(Then(ab1, ab2), Then(bc1, bc2), Then(ac1, ac2))
  {
  }

  lemma ThenFlip(x: Ordering, y: Ordering)
    ensures Then(Flip(x), Flip(y)) == Flip(Then(x, y))
  {
  }

  /** No vertex is less than itself. */
  lemma VertexLessIrreflexive(v: Vertex)
    ensures !VertexLess(v, v)
  {
    CompareFromSame(v.v, v.v, 0);
    CompareFromSame(v.n, v.n, 0);
    CompareFromSame(v.c, v.c, 0);
    CompareFromSame(v.t, v.t, 0);
  }

  /** The comparator run with its arguments swapped gives the mirrored
      answer, so at most one direction holds. */
  lemma VertexOrderFlip(v1: Vertex, v2: Vertex)
    ensures VertexOrder(v2, v1) == Flip(VertexOrder(v1, v2))
    ensures !(VertexLess(v1, v2) && VertexLess(v2, v1))
  {
    CompareFromFlip(v1.v, v2.v, 0);
    CompareFromFlip(v1.n, v2.n, 0);
    CompareFromFlip(v1.c, v2.c, 0);
    CompareFromFlip(v1.t, v2.t, 0);
    ThenFlip(Compare(v1.c, v2.c), Compare(v1.t, v2.t));
    ThenFlip(Compare(v1.n, v2.n), Then(Compare(v1.c, v2.c), Compare(v1.t, v2.t)));
    ThenFlip(Compare(v1.v, v2.v), Then(Compare(v1.n, v2.n), Then(Compare(v1.c, v2.c), Compare(v1.t, v2.t))));
  }

  /** The comparator is transitive. */
  lemma VertexLessTransitive(v1: Vertex, v2: Vertex, v3: Vertex)
    requires VertexLess(v1, v2) && VertexLess(v2, v3)
    ensures VertexLess(v1, v3)
  {
    CompareFromCoherent(v1.v, v2.v, v3.v, 0);
    CompareFromCoherent(v1.n, v2.n, v3.n, 0);
    CompareFromCoherent(v1.c, v2.c, v3.c, 0);
    CompareFromCoherent(v1.t, v2.t, v3.t, 0);
    ThenCoherent(Compare(v1.c, v2.c), Compare(v2.c, v3.c), Compare(v1.c, v3.c),
                 Compare(v1.t, v2.t), Compare(v2.t, v3.t), Compare(v1.t, v3.t));
    ThenCoherent(Compare(v1.n, v2.n), Compare(v2.n, v3.n), Compare(v1.n, v3.n),
                 Then(Compare(v1.c, v2.c), Compare(v1.t, v2.t)),
                 Then(Compare(v2.c, v3.c), Compare(v2.t, v3.t)),
                 Then(Compare(v1.c, v3.c), Compare(v1.t, v3.t)));
    ThenCoherent(Compare(v1.v, v2.v), Compare(v2.v, v3.v), Compare(v1.v, v3.v),
                 Then(Compare(v1.n, v2.n), Then(Compare(v1.c, v2.c), Compare(v1.t, v2.t))),
                 Then(Compare(v2.n, v3.n), Then(Compare(v2.c, v3.c), Compare(v2.t, v3.t))),
                 Then(Compare(v1.n, v3.n), Then(Compare(v1.c, v3.c), Compare(v1.t, v3.t))));
  }

  /** Two vertices that neither precedes are the same vertex, so the
      vertex_map keyed by this comparator behaves as a map keyed by vertex
      equality. */
  lemma VertexEquivalentIffEqual(v1: Vertex, v2: Vertex)
    ensures !VertexLess(v1, v2) && !VertexLess(v2, v1) <==> v1 == v2
  {
    VertexOrderFlip(v1, v2);
    VertexLessIrreflexive(v1);
    if !VertexLess(v1, v2) && !VertexLess(v2, v1) {
      CompareFromSame(v1.v, v2.v, 0);
      CompareFromSame(v1.n, v2.n, 0);
      CompareFromSame(v1.c, v2.c, 0);
      CompareFromSame(v1.t, v2.t, 0);
      assert v1.v == v1.v[0..] && v2.v == v2.v[0..];
      assert v1.n == v1.n[0..] && v2.n == v2.n[0..];
      assert v1.c == v1.c[0..] && v2.c == v2.c[0..];
      assert v1.t == v1.t[0..] && v2.t == v2.t[0..];
    }
  }
}
