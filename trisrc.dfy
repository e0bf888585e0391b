/** The trisrc loader: the vertex order, the indexed shapes it fills, the
    table of shapes keyed by material, and the record rules of its parser.
    The parser reads a text stream with fscanf; here it walks a list of
    records that a tokeniser has already split, each record holding what
    the successive fscanf calls managed to read. */
module TriSrc {
  import opened Vectors
  import opened Wrappers
  import opened Vertices

  // ---------------------------------------------------------------------
  // indexed_shape

  /** The vertex_map after recording the vertices vs at indices base,
      base + 1, ... in turn. */
  function Recorded(m: map<Vertex, nat>, vs: seq<Vertex>, base: nat): map<Vertex, nat>
  {
    if |vs| == 0 then m
    else Recorded(m, vs[..|vs| - 1], base)[vs[|vs| - 1] := base + |vs| - 1]
  }

  /** A shape being filled: its material, and the vertex and index lists
      that add_triangle appends to. */
  class IndexedShape {
    var name: string
    var specular: Vec4
    var shininess: real
    var textureName: string
    var vertices: seq<Vertex>
    var indices: seq<nat>
    var vertexMap: map<Vertex, nat>

    /** Every index names its own position (no vertex is shared), and the
        vertex map sends each vertex to a position that holds it. */
    ghost predicate Valid()
      reads this
    {
      && |indices| == |vertices|
      && (forall k | 0 <= k < |indices| :: indices[k] == k)
      && (forall v | v in vertexMap :: vertexMap[v] < |vertices| && vertices[vertexMap[v]] == v)
    }

    /** indexed_shape(name, texture_name, specular, shininess) */
    constructor(name: string, textureName: string, specular: Vec4, shininess: real)
      ensures this.name == name && this.textureName == textureName
      ensures this.specular == specular && this.shininess == shininess
      ensures vertices == [] && indices == [] && vertexMap == map[]
      ensures Valid()
    {
      this.name := name;
      this.textureName := textureName;
      this.specular := specular;
      this.shininess := shininess;
      vertices := [];
      indices := [];
      vertexMap := map[];
    }

    /** add_triangle(v0, v1, v2): the lookup in vertex_map is disabled, so
        every vertex is appended, indexed by its new position and recorded
        in the map. */
    method AddTriangle(v0: Vertex, v1: Vertex, v2: Vertex)
      modifies this`vertices, this`indices, this`vertexMap
      ensures vertices == old(vertices) + [v0, v1, v2]
      ensures indices == old(indices) + [|old(vertices)|, |old(vertices)| + 1, |old(vertices)| + 2]
      ensures vertexMap == old(vertexMap)[v0 := |old(vertices)|][v1 := |old(vertices)| + 1][v2 := |old(vertices)| + 2]
      ensures old(Valid()) ==> Valid()
    {
      var vs := [v0, v1, v2];
      var base := |vertices|;
      for k := 0 to 3
        invariant vertices == old(vertices) + vs[..k]
        invariant indices == old(indices) + seq(k, j => base + j)
        invariant vertexMap == Recorded(old(vertexMap), vs[..k], base)
        invariant old(Valid()) ==> Valid()
      {
        assert vs[..k + 1][..k] == vs[..k];
        vertices := vertices + [vs[k]];
        var index := |vertices| - 1;
        vertexMap := vertexMap[vs[k] := index];
        indices := indices + [index];
      }
      assert vs[..3] == vs;
      assert vs[..2] == [v0, v1] && vs[..1] == [v0] && vs[..0] == [];
      assert Recorded(old(vertexMap), vs, base) == Recorded(old(vertexMap), [v0, v1], base)[v2 := base + 2];
      assert Recorded(old(vertexMap), [v0, v1], base) == Recorded(old(vertexMap), [v0], base)[v1 := base + 1];
      assert Recorded(old(vertexMap), [v0], base) == Recorded(old(vertexMap), [], base)[v0 := base];
      assert seq(3, j => base + j) == [base, base + 1, base + 2];
    }
  }

  // ---------------------------------------------------------------------
  // triangle_sets

  /** The material a record names (material, for the parser). */
  datatype Material = Material(texture: string, specular: Vec4, shininess: real)

  /** The shape name of get_triangle_set: the texture, a dot, the tag and
      the first three specular components and the shininess, each as
      printf's "%.2f" writes it. */
  function ShapeName(format: real -> string, mtl: Material, tag: string): string
  {
    mtl.texture + "." + tag + format(mtl.specular[0]) + format(mtl.specular[1])
      + format(mtl.specular[2]) + format(mtl.shininess)
  }

  /** The texture file of a new shape: none for an untextured material,
      otherwise the name under the file's directory. */
  function TexturePath(dirname: string, texture: string): (path: string)
    ensures path == "" <==> texture == ""
    ensures texture != "" ==>
      && |path| == |dirname| + 1 + |texture|
      && path[..|dirname|] == dirname && path[|dirname|] == '/'
      && path[|dirname| + 1..] == texture
  {
    if texture == "" then "" else dirname + "/" + texture
  }

  /** The shapes of one file, by shape name. */
  class TriangleSets {
    const dirname: string
    /** printf's "%.2f" conversion. */
    const format: real -> string
    var shapes: map<string, IndexedShape>
    /** The table and the shapes it points to. */
    ghost var Repr: set<object>

    /** Each shape is allocated on its own, so no two names share one. */
    ghost predicate Valid()
      reads this, Repr
    {
      && this in Repr
      && (forall k | k in shapes :: shapes[k] in Repr && shapes[k].Valid())
      && (forall k1, k2 | k1 in shapes && k2 in shapes && k1 != k2 :: shapes[k1] != shapes[k2])
    }

    /** The vertices each shape holds, by shape name. */
    ghost function Contents(): (c: map<string, seq<Vertex>>)
      requires Valid()
      reads this, Repr
      ensures c.Keys == shapes.Keys
    {
      map k | k in shapes :: shapes[k].vertices
    }

    /** triangle_sets(dirname) */
    constructor(dirname: string, format: real -> string)
      ensures this.dirname == dirname && this.format == format
      ensures shapes == map[] && Valid() && fresh(Repr)
    {
      this.dirname := dirname;
      this.format := format;
      shapes := map[];
      Repr := {this};
    }

    /** get_triangle_set(name, mtl): the shape stored under the material's
        shape name, created empty and stored first when there is none. */
    method GetTriangleSet(name: string, mtl: Material) returns (sh: IndexedShape)
      requires Valid()
      modifies this
      ensures Valid() && fresh(Repr - old(Repr))
      ensures ShapeName(format, mtl, name) in shapes && shapes[ShapeName(format, mtl, name)] == sh
      ensures ShapeName(format, mtl, name) in old(shapes) ==>
                shapes == old(shapes) && sh == old(shapes)[ShapeName(format, mtl, name)]
      ensures ShapeName(format, mtl, name) !in old(shapes) ==>
                && shapes == old(shapes)[ShapeName(format, mtl, name) := sh] && fresh(sh)
                && sh.name == name && sh.textureName == TexturePath(dirname, mtl.texture)
                && sh.specular == mtl.specular && sh.shininess == mtl.shininess
                && sh.vertices == [] && sh.indices == [] && sh.vertexMap == map[]
      ensures shapes.Keys == old(shapes).Keys + {ShapeName(format, mtl, name)}
      ensures |shapes| <= |old(shapes)| + 1
      ensures forall k | k in old(shapes) :: shapes[k] == old(shapes)[k]
      ensures Contents() == Appended(old(Contents()), ShapeName(format, mtl, name), [])
    {
      var shapeName := ShapeName(format, mtl, name);
      ghost var c0 := Contents();
      if shapeName !in shapes {
        var absoluteTextureName;
        if mtl.texture == "" {
          absoluteTextureName := "";
        } else {
          absoluteTextureName := dirname + "/" + mtl.texture;
        }
        sh := new IndexedShape(name, absoluteTextureName, mtl.specular, mtl.shininess);
        assert Contents() == c0;
        Insert(shapeName, sh);
      } else {
        sh := shapes[shapeName];
        AppendedNothingPresent(c0, shapeName);
      }
    }

    /** Stores a new, empty shape under a name not yet in use. */
    method Insert(shapeName: string, sh: IndexedShape)
      requires Valid() && shapeName !in shapes
      requires sh !in Repr && sh.Valid() && sh.vertices == []
      modifies this
      ensures Valid() && Repr == old(Repr) + {sh}
      ensures shapes == old(shapes)[shapeName := sh]
      ensures Contents() == Appended(old(Contents()), shapeName, [])
    {
      ghost var c0 := Contents();
      shapes := shapes[shapeName := sh];
      Repr := Repr + {sh};
      ghost var c1 := Contents();
      forall k | k in c1
        ensures c1[k] == Appended(c0, shapeName, [])[k]
      {
        if k != shapeName {
          assert shapes[k] == old(shapes)[k];
        }
      }
    }

    /** add_triangle on the shape the table holds under key: only that
        shape's contents grow. */
    method AppendToShape(key: string, sh: IndexedShape, v0: Vertex, v1: Vertex, v2: Vertex)
      requires Valid() && key in shapes && shapes[key] == sh
      modifies sh`vertices, sh`indices, sh`vertexMap
      ensures Valid()
      ensures Contents() == Appended(old(Contents()), key, [v0, v1, v2])
    {
      ghost var c0 := Contents();
      sh.AddTriangle(v0, v1, v2);
      ghost var c1 := Contents();
      forall k | k in c1
        ensures c1[k] == Appended(c0, key, [v0, v1, v2])[k]
      {
        if k != key {
          assert shapes[k] != sh;
        }
      }
    }
  }

  /** Two materials that differ only in the specular alpha get the same
      shape: the alpha is not part of the shape name. */
  lemma ShapeNameIgnoresAlpha(format: real -> string, m1: Material, m2: Material, tag: string)
    requires m1.texture == m2.texture && m1.shininess == m2.shininess
    requires m1.specular[..3] == m2.specular[..3]
    ensures ShapeName(format, m1, tag) == ShapeName(format, m2, tag)
  {
    assert m1.specular[0] == m1.specular[..3][0] && m1.specular[1] == m1.specular[..3][1];
    assert m1.specular[2] == m1.specular[..3][2];
  }

  /** The shape name joins texture and tag with a dot, so a texture and a
      tag that both contain dots can name the same shape as a different
      pair: the triangles of the second land in the first one's shape. */
  lemma ShapeNameJoinsAtDot(format: real -> string, specular: Vec4, shininess: real)
    ensures ShapeName(format, Material("a.b", specular, shininess), "c")
         == ShapeName(format, Material("a", specular, shininess), "b.c")
  {
    assert "a.b" + "." + "c" == "a" + "." + "b.c";
  }

  // ---------------------------------------------------------------------
  // ParseTriSrc

  /** What the fscanf calls for one record managed to read: the quoted
      texture name, the tag, up to five specular numbers and the numbers of
      each vertex line; or a record that does not start with a quote, which
      ends the file. */
  datatype Record =
    | Quoted(texture: string, tag: Option<string>, specular: seq<real>, vertices: seq<seq<real>>)
    | Unquoted

  /** The loop's test: the first fscanf matches a quote followed by at least
      one character up to the next quote. A record that does not start with
      a quote, or whose quotes enclose nothing, makes it return 0. */
  predicate Opens(r: Record)
  {
    r.Quoted? && r.texture != ""
  }

  /** A "*" texture means no texture. The name the loop reads is never
      empty. */
  function TextureName(raw: string): (name: string)
    requires raw != ""
    ensures name == "" <==> raw == "*"
    ensures name != "" ==> name == raw
  {
    if raw == "*" then "" else raw
  }

  /** A shininess strictly between 0 and 1 is taken as a tenth of the
      exponent and scaled up; any other value is kept. */
  function AdjustShininess(s: real): (r: real)
    ensures r != s <==> 0.0 < s < 1.0
    ensures 0.0 < s < 1.0 ==> r == s * 10.0
  {
    if 0.0 < s && s < 1.0 then s * 10.0 else s
  }

  /** A record from which a triangle can be read: a tag, five specular
      numbers and three vertex lines of twelve numbers. */
  predicate Complete(r: Record)
  {
    && Opens(r) && r.tag.Some? && |r.specular| >= 5 && |r.vertices| >= 3
    && forall j | 0 <= j < 3 :: |r.vertices[j]| >= 12
  }

  function VertexOf(numbers: seq<real>): Vertex
    requires |numbers| >= 12
  {
    Vertex(numbers[0..3], numbers[3..6], numbers[6..10], numbers[10..12])
  }

  /** One triangle as the parser hands it to the shape table. */
  datatype Triangle = Triangle(tag: string, mtl: Material, v0: Vertex, v1: Vertex, v2: Vertex)

  function TriangleOf(r: Record): Triangle
    requires Complete(r)
  {
    Triangle(r.tag.value,
             Material(TextureName(r.texture), r.specular[..4], AdjustShininess(r.specular[4])),
             VertexOf(r.vertices[0]), VertexOf(r.vertices[1]), VertexOf(r.vertices[2]))
  }

  /** The three vertices a complete record hands to its shape. */
  function TriangleVertices(r: Record): (vs: seq<Vertex>)
    requires Complete(r)
    ensures |vs| == 3
  {
    [TriangleOf(r).v0, TriangleOf(r).v1, TriangleOf(r).v2]
  }

  function RecordKey(format: real -> string, r: Record): string
    requires Complete(r)
  {
    ShapeName(format, TriangleOf(r).mtl, TriangleOf(r).tag)
  }

  /** The body of the parser's loop for one quoted record: the tag, the
      specular line and the three vertex lines, each read in turn, with
      failure as soon as one comes up short. */
  method ReadTriangle(r: Record) returns (t: Option<Triangle>)
    requires Opens(r)
    ensures t.Some? <==> Complete(r)
    ensures t.Some? ==> t.value == TriangleOf(r)
  {
    var texture := TextureName(r.texture);
    if r.tag.None? {
      return None;
    }
    if |r.specular| < 5 {
      return None;
    }
    var shininess := AdjustShininess(r.specular[4]);
    var verts: seq<Vertex> := [];
    for j := 0 to 3
      invariant |verts| == j
      invariant forall l | 0 <= l < j :: l < |r.vertices| && |r.vertices[l]| >= 12 && verts[l] == VertexOf(r.vertices[l])
    {
      if j >= |r.vertices| || |r.vertices[j]| < 12 {
        return None;
      }
      verts := verts + [VertexOf(r.vertices[j])];
    }
    assert verts[0] == VertexOf(r.vertices[0]) && verts[1] == VertexOf(r.vertices[1]) && verts[2] == VertexOf(r.vertices[2]);
    var mtl := Material(texture, r.specular[..4], shininess);
    return Some(Triangle(r.tag.value, mtl, verts[0], verts[1], verts[2]));
  }

  /** The position of the first record, from i on, that the parser does
      not turn into a triangle. */
  function Consumed(records: seq<Record>, i: nat): (c: nat)
    requires i <= |records|
    ensures i <= c <= |records|
    ensures forall j | i <= j < c :: Complete(records[j])
    ensures c < |records| ==> !Complete(records[c])
    decreases |records| - i
  {
    if i == |records| || !Complete(records[i]) then i else Consumed(records, i + 1)
  }

  /** The parse succeeds when the triangles stop at the end of the file or
      at a record the loop's test does not accept. */
  predicate ParseSucceeds(records: seq<Record>)
  {
    var c := Consumed(records, 0);
    c == |records| || !Opens(records[c])
  }

  /** The vertices the first n records hand to the shape named key, in
      file order. */
  function VerticesFor(format: real -> string, records: seq<Record>, n: nat, key: string): seq<Vertex>
    requires n <= |records|
  {
    if n == 0 then []
    else
      var r := records[n - 1];
      VerticesFor(format, records, n - 1, key)
        + (if Complete(r) && RecordKey(format, r) == key
           then TriangleVertices(r) else [])
  }

  /** A shape name none of the first n records uses receives nothing. */
  lemma {:induction false} VerticesForUnused(format: real -> string, records: seq<Record>, n: nat, key: string)
    requires n <= |records| && key !in KeysOf(format, records, n)
    ensures VerticesFor(format, records, n, key) == []
  {
    if n > 0 {
      VerticesForUnused(format, records, n - 1, key);
    }
  }

  /** The table of contents after vs is appended to the shape named key,
      which starts out empty when new. */
  function Appended(c: map<string, seq<Vertex>>, key: string, vs: seq<Vertex>): (d: map<string, seq<Vertex>>)
    ensures d.Keys == c.Keys + {key}
    ensures d[key] == (if key in c then c[key] else []) + vs
  {
    c[key := (if key in c then c[key] else []) + vs]
  }

  lemma AppendedNothingFirst(c: map<string, seq<Vertex>>, key: string, vs: seq<Vertex>)
    ensures Appended(Appended(c, key, []), key, vs) == Appended(c, key, vs)
  {
    if key in c {
      assert c[key] + [] == c[key];
    }
  }

  lemma AppendedNothingPresent(c: map<string, seq<Vertex>>, key: string)
    requires key in c
    ensures Appended(c, key, []) == c
  {
    assert c[key] + [] == c[key];
  }

  /** The contents a table that held start holds once the first n records
      have been added, one triangle at a time, as the parser's loop adds
      them. */
  function Filled(start: map<string, seq<Vertex>>, format: real -> string, records: seq<Record>, n: nat): map<string, seq<Vertex>>
    requires n <= |records|
  {
    if n == 0 then start
    else
      var prev := Filled(start, format, records, n - 1);
      var r := records[n - 1];
      if Complete(r) then Appended(prev, RecordKey(format, r), TriangleVertices(r))
      else prev
  }

  /** The table after n records holds the names it started with and those
      of the records. */
  lemma {:induction false} FilledKeys(start: map<string, seq<Vertex>>, format: real -> string, records: seq<Record>, n: nat)
    requires n <= |records|
    ensures Filled(start, format, records, n).Keys == start.Keys + KeysOf(format, records, n)
  {
    if n > 0 {
      FilledKeys(start, format, records, n - 1);
    }
  }

  /** Read shape by shape, the table after n records holds the names it
      started with and those of the records; every shape keeps what it had
      and receives the vertices of its own records, in file order. */
  lemma {:induction false} FilledByKey(start: map<string, seq<Vertex>>, format: real -> string, records: seq<Record>, n: nat)
    requires n <= |records|
    ensures Filled(start, format, records, n).Keys == start.Keys + KeysOf(format, records, n)
    ensures forall k | k in Filled(start, format, records, n) ::
      Filled(start, format, records, n)[k] == (if k in start then start[k] else []) + VerticesFor(format, records, n, k)
  {
    FilledKeys(start, format, records, n);
    var d := Filled(start, format, records, n);
    if n == 0 {
      forall k | k in d
        ensures d[k] == (if k in start then start[k] else []) + VerticesFor(format, records, n, k)
      {
        ConcatEmpty(start[k]);
      }
    } else {
      FilledByKey(start, format, records, n - 1);
      forall k | k in d
        ensures d[k] == (if k in start then start[k] else []) + VerticesFor(format, records, n, k)
      {
        FilledEntryStep(start, format, records, n - 1, k);
      }
    }
  }

  /** One record more, read for one shape name. */
  lemma FilledEntryStep(start: map<string, seq<Vertex>>, format: real -> string, records: seq<Record>, m: nat, k: string)
    requires m < |records|
    requires Filled(start, format, records, m).Keys == start.Keys + KeysOf(format, records, m)
    requires k in Filled(start, format, records, m) ==>
      Filled(start, format, records, m)[k] == (if k in start then start[k] else []) + VerticesFor(format, records, m, k)
    requires k in Filled(start, format, records, m + 1)
    ensures Filled(start, format, records, m + 1)[k]
         == (if k in start then start[k] else []) + VerticesFor(format, records, m + 1, k)
  {
    var prev := Filled(start, format, records, m);
    var base := if k in start then start[k] else [];
    var r := records[m];
    if Complete(r) && RecordKey(format, r) == k {
      if k !in prev {
        VerticesForUnused(format, records, m, k);
      }
      ConcatAssociates(base, VerticesFor(format, records, m, k), TriangleVertices(r));
    } else {
      ConcatEmpty(VerticesFor(format, records, m, k));
    }
  }

  lemma ConcatAssociates<T>(a: seq<T>, b: seq<T>, c: seq<T>)
    ensures a + (b + c) == (a + b) + c
  {
  }

  lemma ConcatEmpty<T>(a: seq<T>)
    ensures a + [] == a
  {
  }

  /** The shape names of the first n records. */
  function KeysOf(format: real -> string, records: seq<Record>, n: nat): set<string>
    requires n <= |records|
  {
    if n == 0 then {}
    else KeysOf(format, records, n - 1)
           + (if Complete(records[n - 1]) then {RecordKey(format, records[n - 1])} else {})
  }

  /** sets.get_triangle_set(tag, mtl).add_triangle(v0, v1, v2): the
      triangle is appended to the shape its material and tag name, which is
      created first when new; no other entry of the table changes. */
  method AddToSets(sets: TriangleSets, t: Triangle)
    requires sets.Valid()
    modifies sets.Repr
    ensures sets.Valid() && fresh(sets.Repr - old(sets.Repr))
    ensures sets.shapes.Keys == old(sets.shapes.Keys) + {ShapeName(sets.format, t.mtl, t.tag)}
    ensures forall k | k in old(sets.shapes) :: sets.shapes[k] == old(sets.shapes[k])
    ensures sets.Contents() == Appended(old(sets.Contents()), ShapeName(sets.format, t.mtl, t.tag), [t.v0, t.v1, t.v2])
  {
    var key := ShapeName(sets.format, t.mtl, t.tag);
    ghost var c0 := sets.Contents();
    var sh := sets.GetTriangleSet(t.tag, t.mtl);
    ghost var between := sets.shapes;
    sets.AppendToShape(key, sh, t.v0, t.v1, t.v2);
    assert sets.shapes == between;
    AppendedNothingFirst(c0, key, [t.v0, t.v1, t.v2]);
  }

  /** One turn of the parser's loop that read a triangle: the table then
      holds the first i + 1 records. */
  method AddRecord(sets: TriangleSets, records: seq<Record>, i: nat, t: Triangle, ghost start: map<string, seq<Vertex>>)
    requires i < |records| && Complete(records[i]) && t == TriangleOf(records[i])
    requires sets.Valid() && sets.Contents() == Filled(start, sets.format, records, i)
    modifies sets.Repr
    ensures sets.Valid() && fresh(sets.Repr - old(sets.Repr))
    ensures old(sets.shapes.Keys) <= sets.shapes.Keys
    ensures forall k | k in old(sets.shapes) :: sets.shapes[k] == old(sets.shapes[k])
    ensures sets.Contents() == Filled(start, sets.format, records, i + 1)
  {
    AddToSets(sets, t);
  }

  /** ParseTriSrc(fp, sets): reads triangles until the loop's test fails
      (success) or a record is cut short (failure). Each triangle's three
      vertices are appended, in file order, to the shape named by its
      material and tag; shapes already in the table keep their objects and
      what they held. */
  method ParseTriSrc(sets: TriangleSets, records: seq<Record>) returns (ok: bool)
    requires sets.Valid()
    modifies sets.Repr
    ensures sets.Valid() && fresh(sets.Repr - old(sets.Repr))
    ensures ok <==> ParseSucceeds(records)
    ensures sets.shapes.Keys == old(sets.shapes.Keys) + KeysOf(sets.format, records, Consumed(records, 0))
    ensures forall k | k in old(sets.shapes) :: sets.shapes[k] == old(sets.shapes[k])
    ensures sets.Contents() == Filled(old(sets.Contents()), sets.format, records, Consumed(records, 0))
    ensures forall k | k in sets.shapes ::
      sets.shapes[k].vertices
        == (if k in old(sets.shapes) then old(sets.shapes[k].vertices) else [])
           + VerticesFor(sets.format, records, Consumed(records, 0), k)
  {
    ghost var start := sets.Contents();
    ok := true;
    var i := 0;
    while i < |records|
      invariant i <= Consumed(records, 0)
      invariant Consumed(records, i) == Consumed(records, 0)
      invariant sets.Valid() && fresh(sets.Repr - old(sets.Repr))
      invariant old(sets.shapes.Keys) <= sets.shapes.Keys
      invariant forall k | k in old(sets.shapes) :: sets.shapes[k] == old(sets.shapes[k])
      invariant sets.Contents() == Filled(start, sets.format, records, i)
    {
      var r := records[i];
      if !Opens(r) {
        break;
      }
      var t := ReadTriangle(r);
      if t.None? {
        ok := false;
        break;
      }
      AddRecord(sets, records, i, t.value, start);
      i := i + 1;
    }
    FilledByKey(start, sets.format, records, i);
  }
}
