/** The Assimp loader: converting an imported mesh into the vertices and
    triangle indices of one shape, walking the imported node tree into
    groups, and the import settings chosen from the file extension. The
    import itself and the GL upload (MakeShape) are not part of this model:
    an imported scene is a value here, and a shape is the data that
    MakeShape would receive. */
module AssimpLoader {
  import opened Vectors
  import opened Matrices
  import opened Wrappers
  import opened Vertices
  import Loader

  // ---------------------------------------------------------------------
  // The imported scene

  /** aiMesh: vertex positions, the optional per-vertex arrays (normals,
      first texture-coordinate set, first colour set) and the faces, each a
      list of vertex indices. */
  datatype AiMesh = AiMesh(
    positions: seq<Vec3>,
    normals: Option<seq<Vec3>>,
    texcoords: Option<seq<Vec3>>,
    colors: Option<seq<Vec4>>,
    faces: seq<seq<nat>>)

  /** Each array that is present has one entry per vertex, as Assimp
      guarantees. */
  predicate MeshOk(mesh: AiMesh)
  {
    && (mesh.normals.Some? ==> |mesh.normals.value| == |mesh.positions|)
    && (mesh.texcoords.Some? ==> |mesh.texcoords.value| == |mesh.positions|)
    && (mesh.colors.Some? ==> |mesh.colors.value| == |mesh.positions|)
  }

  /** aiNode: its transformation (row-major, entry (i, j) at 4 * i + j),
      the indices of its meshes in the scene and its children. */
  datatype AiNode = AiNode(transform: Mat4, meshes: seq<nat>, children: seq<AiNode>)

  /** Every mesh index of the node and its descendants names a well-formed
      mesh of the scene. */
  predicate NodeOk(meshes: seq<AiMesh>, node: AiNode)
    decreases node
  {
    && (forall i | 0 <= i < |node.meshes| :: node.meshes[i] < |meshes| && MeshOk(meshes[node.meshes[i]]))
    && (forall k | 0 <= k < |node.children| :: NodeOk(meshes, node.children[k]))
  }

  // ---------------------------------------------------------------------
  // What the loader produces

  /** PhongShader::Material(diffuse, ambient, specular, shininess) */
  datatype PhongMaterial = PhongMaterial(diffuse: Vec4, ambient: Vec4, specular: Vec4, shininess: real)

  /** The arguments of MakeShape: material, vertices, indices and whether
      the shape is textured. */
  datatype ShapeData = ShapeData(mtl: PhongMaterial, vertices: seq<Vertex>, indices: seq<nat>, textured: bool)

  /** The scene-graph nodes the loader builds: a shape, or a group holding
      a matrix and its children. */
  datatype Node = Shape(data: ShapeData) | Group(matrix: Mat4, children: seq<Node>)

  // ---------------------------------------------------------------------
  // ConvertVertex

  /** ConvertVertex(mesh, i): the position of vertex i, and its normal,
      colour and texture coordinate, or the defaults (0, 0, 1), (1, 1, 1, 1)
      and (0, 0) for an array the mesh does not have. */
  function ConvertVertex(mesh: AiMesh, i: nat): (r: Vertex)
    requires MeshOk(mesh) && i < |mesh.positions|
    ensures r.v == mesh.positions[i]
    ensures mesh.normals.None? ==> r.n == [0.0, 0.0, 1.0]
    ensures mesh.normals.Some? ==> r.n == mesh.normals.value[i]
    ensures mesh.texcoords.None? ==> r.t == [0.0, 0.0]
    ensures mesh.texcoords.Some? ==> r.t == mesh.texcoords.value[i][..2]
    ensures mesh.colors.None? ==> r.c == [1.0, 1.0, 1.0, 1.0]
    ensures mesh.colors.Some? ==> r.c == mesh.colors.value[i]
  {
    var position := mesh.positions[i];
    var normal := if mesh.normals.None? then [0.0, 0.0, 1.0] else mesh.normals.value[i];
    var texcoord := if mesh.texcoords.None? then [0.0, 0.0]
                    else [mesh.texcoords.value[i][0], mesh.texcoords.value[i][1]];
    var color := if mesh.colors.None? then [1.0, 1.0, 1.0, 1.0] else mesh.colors.value[i];
    Vertex(position, normal, color, texcoord)
  }

  // ---------------------------------------------------------------------
  // Fan triangulation (ConvertFacesSmooth)

  /** The triangles the inner loop has emitted for a face once its counter
      has reached n: (f0, f[k - 1], f[k]) for k = 2 .. n - 1. */
  function Fan(face: seq<nat>, n: nat): seq<nat>
    requires n <= |face|
  {
    if n < 3 then [] else Fan(face, n - 1) + [face[0], face[n - 2], face[n - 1]]
  }

  /** The indices one face contributes: none for fewer than three indices,
      otherwise the whole fan. */
  function FaceIndices(face: seq<nat>): seq<nat>
  {
    if |face| < 3 then [] else Fan(face, |face|)
  }

  /** The indices the first n faces contribute, in order. */
  function FacesIndices(faces: seq<seq<nat>>, n: nat): seq<nat>
    requires n <= |faces|
  {
    if n == 0 then [] else FacesIndices(faces, n - 1) + FaceIndices(faces[n - 1])
  }

  /** The number of triangles of the first n faces: n - 2 for each face of
      n >= 3 indices. */
  function TriangleCount(faces: seq<seq<nat>>, n: nat): nat
    requires n <= |faces|
  {
    if n == 0 then 0
    else TriangleCount(faces, n - 1) + (if |faces[n - 1]| < 3 then 0 else |faces[n - 1]| - 2)
  }

  /** The fan of a face holds n - 2 triangles, the k-th of which is
      (f0, f[k + 1], f[k + 2]). */
  lemma {:induction false} FanTriangles(face: seq<nat>, n: nat)
    requires 2 <= n <= |face|
    ensures |Fan(face, n)| == 3 * (n - 2)
    ensures forall k | 0 <= k < n - 2 ::
              Fan(face, n)[3 * k] == face[0] && Fan(face, n)[3 * k + 1] == face[k + 1]
              && Fan(face, n)[3 * k + 2] == face[k + 2]
  {
    if n > 2 {
      FanTriangles(face, n - 1);
    }
  }

  /** Every index of a fan is one of the face's own indices. */
  lemma {:induction false} FanFromFace(face: seq<nat>, n: nat)
    requires n <= |face|
    ensures forall x | x in Fan(face, n) :: x in face
  {
    if n >= 3 {
      FanFromFace(face, n - 1);
      assert face[0] in face && face[n - 2] in face && face[n - 1] in face;
    }
  }

  /** Three indices per triangle: the index list of the faces has
      3 * (sum of n - 2) entries. */
  lemma {:induction false} FacesIndicesLength(faces: seq<seq<nat>>, n: nat)
    requires n <= |faces|
    ensures |FacesIndices(faces, n)| == 3 * TriangleCount(faces, n)
  {
    if n > 0 {
      FacesIndicesLength(faces, n - 1);
      if |faces[n - 1]| >= 3 {
        FanTriangles(faces[n - 1], |faces[n - 1]|);
      }
    }
  }

  /** Every emitted index comes from the index list of some face. */
  lemma {:induction false} FacesIndicesFromFaces(faces: seq<seq<nat>>, n: nat)
    requires n <= |faces|
    ensures forall x | x in FacesIndices(faces, n) :: exists j | 0 <= j < n :: x in faces[j]
  {
    if n > 0 {
      FacesIndicesFromFaces(faces, n - 1);
      FanFromFace(faces[n - 1], |faces[n - 1]|);
      forall x | x in FacesIndices(faces, n)
        ensures exists j | 0 <= j < n :: x in faces[j]
      {
        if x in FacesIndices(faces, n - 1) {
          var j :| 0 <= j < n - 1 && x in faces[j];
          assert 0 <= j < n && x in faces[j];
        } else {
          assert x in FaceIndices(faces[n - 1]);
          assert x in faces[n - 1];
        }
      }
    }
  }

  /** The material every converted mesh gets: diffuse white, ambient 0.1
      grey, specular white and shininess 100. */
  const DefaultMaterial: PhongMaterial :=
    PhongMaterial([1.0, 1.0, 1.0, 1.0], [0.1, 0.1, 0.1, 1.0], [1.0, 1.0, 1.0, 1.0], 100.0)

  /** The vertices of a mesh, converted one for one. */
  function ConvertedVertices(mesh: AiMesh): (vs: seq<Vertex>)
    requires MeshOk(mesh)
    ensures |vs| == |mesh.positions|
    ensures forall i | 0 <= i < |vs| :: vs[i] == ConvertVertex(mesh, i)
  {
    seq(|mesh.positions|, i requires 0 <= i < |mesh.positions| => ConvertVertex(mesh, i))
  }

  /** The shape ConvertFacesSmooth hands to MakeShape. */
  function SmoothShape(mesh: AiMesh): ShapeData
    requires MeshOk(mesh)
  {
    ShapeData(DefaultMaterial, ConvertedVertices(mesh), FacesIndices(mesh.faces, |mesh.faces|), false)
  }

  /** ConvertFacesSmooth(mesh): converts every vertex, then emits the fan
      of each face of at least three indices; it always succeeds. */
  method ConvertFacesSmooth(mesh: AiMesh) returns (ok: bool, node: Option<Node>)
    requires MeshOk(mesh)
    ensures ok && node == Some(Shape(SmoothShape(mesh)))
  {
    var vertices: seq<Vertex> := [];
    var indices: seq<nat> := [];

    for j := 0 to |mesh.positions|
      invariant |vertices| == j
      invariant forall i | 0 <= i < j :: vertices[i] == ConvertVertex(mesh, i)
    {
      vertices := vertices + [ConvertVertex(mesh, j)];
    }

    for j := 0 to |mesh.faces|
      invariant indices == FacesIndices(mesh.faces, j)
    {
      var face := mesh.faces[j];
      if |face| < 3 {
        continue;
      }
      var i0, i1, i2 := face[0], 0, face[1];
      for i := 2 to |face|
        invariant i2 == face[i - 1]
        invariant indices == FacesIndices(mesh.faces, j) + Fan(face, i)
      {
        i1 := i2;
        i2 := face[i];
        indices := indices + [i0, i1, i2];
      }
    }

    assert vertices == ConvertedVertices(mesh);
    return true, Some(Shape(ShapeData(DefaultMaterial, vertices, indices, false)));
  }

  /** ConvertMesh(mesh): a mesh without normals fails with a null node;
      any other is converted with smooth normals. */
  method ConvertMesh(mesh: AiMesh) returns (ok: bool, node: Option<Node>)
    requires MeshOk(mesh)
    ensures ok <==> mesh.normals.Some?
    ensures !ok ==> node == None
    ensures ok ==> node == Some(Shape(SmoothShape(mesh)))
  {
    if mesh.normals.None? {
      return false, None;
    } else {
      ok, node := ConvertFacesSmooth(mesh);
    }
  }

  // ---------------------------------------------------------------------
  // EmitMeshes

  /** The matrix of a group: the node transform transposed by
      aiTransposeMatrix4 and copied out row by row, so that entry 4 * j + i
      is entry (i, j) of the node transform. */
  method GroupMatrix(transform: Mat4) returns (mtxf: Mat4)
    ensures forall i, j | 0 <= i < 4 && 0 <= j < 4 :: mtxf[4 * j + i] == transform[4 * i + j]
    ensures mtxf == TransposeOf(transform)
  {
    var m := TransposeOf(transform);
    var a := new real[16];
    for j := 0 to 4
      invariant forall k | 0 <= k < 4 * j :: a[k] == m[k]
    {
      for i := 0 to 4
        invariant forall k | 0 <= k < 4 * j + i :: a[k] == m[k]
      {
        a[j * 4 + i] := m[j * 4 + i];
      }
    }
    mtxf := a[..];
    forall i, j | 0 <= i < 4 && 0 <= j < 4
      ensures mtxf[4 * j + i] == transform[4 * i + j]
    {
      TransposeAt(transform, i, j);
    }
  }

  lemma TransposeAt(m: Mat4, i: int, j: int)
    requires 0 <= i < 4 && 0 <= j < 4
    ensures TransposeOf(m)[4 * j + i] == m[4 * i + j]
  {
    assert RowOf(4 * j + i) == j;
  }

  /** The children the mesh loop has collected from the first n meshes of a
      node, or None once one of them has failed. */
  function MeshNodes(meshes: seq<AiMesh>, ids: seq<nat>, n: nat): Option<seq<Node>>
    requires n <= |ids|
    requires forall i | 0 <= i < |ids| :: ids[i] < |meshes| && MeshOk(meshes[ids[i]])
  {
    if n == 0 then Some([])
    else match MeshNodes(meshes, ids, n - 1)
      case None => None
      case Some(done) =>
        var mesh := meshes[ids[n - 1]];
        if mesh.normals.None? then None else Some(done + [Shape(SmoothShape(mesh))])
  }

  /** The children collected once the child loop has visited the first n
      children, or None once a mesh or a child has failed; a child that
      comes back null is skipped. */
  function ChildNodes(meshes: seq<AiMesh>, node: AiNode, n: nat): Option<seq<Node>>
    requires n <= |node.children| && NodeOk(meshes, node)
    decreases node, 0, n
  {
    if n == 0 then MeshNodes(meshes, node.meshes, |node.meshes|)
    else match ChildNodes(meshes, node, n - 1)
      case None => None
      case Some(done) =>
        var (ok, child) := Emit(meshes, node.children[n - 1]);
        if !ok then None
        else if child.Some? then Some(done + [child.value])
        else Some(done)
  }

  /** EmitMeshes(scene, node): failure and a null group when any mesh or
      child fails; otherwise a group of the node's transposed transform
      over the collected children, or success with a null group when there
      are none. */
  function Emit(meshes: seq<AiMesh>, node: AiNode): (bool, Option<Node>)
    requires NodeOk(meshes, node)
    decreases node, 1
  {
    match ChildNodes(meshes, node, |node.children|)
    case None => (false, None)
    case Some(children) =>
      if |children| > 0 then (true, Some(Group(TransposeOf(node.transform), children)))
      else (true, None)
  }

  /** Once a mesh has failed, the mesh loop stays failed. */
  lemma {:induction false} MeshNodesStaysNone(meshes: seq<AiMesh>, ids: seq<nat>, n: nat, m: nat)
    requires n <= m <= |ids|
    requires forall i | 0 <= i < |ids| :: ids[i] < |meshes| && MeshOk(meshes[ids[i]])
    requires MeshNodes(meshes, ids, n) == None
    ensures MeshNodes(meshes, ids, m) == None
    decreases m
  {
    if n < m {
      MeshNodesStaysNone(meshes, ids, n, m - 1);
    }
  }

  /** Once a mesh or a child has failed, the child loop stays failed. */
  lemma {:induction false} ChildNodesStaysNone(meshes: seq<AiMesh>, node: AiNode, n: nat, m: nat)
    requires n <= m <= |node.children| && NodeOk(meshes, node)
    requires ChildNodes(meshes, node, n) == None
    ensures ChildNodes(meshes, node, m) == None
    decreases m
  {
    if n < m {
      ChildNodesStaysNone(meshes, node, n, m - 1);
    }
  }

  /** EmitMeshes(scene, node), with its two loops and its recursion. */
  method EmitMeshes(meshes: seq<AiMesh>, node: AiNode) returns (ok: bool, group: Option<Node>)
    requires NodeOk(meshes, node)
    ensures (ok, group) == Emit(meshes, node)
    decreases node
  {
    var children: seq<Node> := [];
    var mtxf := GroupMatrix(node.transform);

    for i := 0 to |node.meshes|
      invariant MeshNodes(meshes, node.meshes, i) == Some(children)
    {
      var success, child := ConvertMesh(meshes[node.meshes[i]]);
      if !success {
        MeshNodesStaysNone(meshes, node.meshes, i + 1, |node.meshes|);
        ChildNodesStaysNone(meshes, node, 0, |node.children|);
        return false, None;
      }
      if child.Some? {
        children := children + [child.value];
      }
    }

    for i := 0 to |node.children|
      invariant ChildNodes(meshes, node, i) == Some(children)
    {
      var success, child := EmitMeshes(meshes, node.children[i]);
      if !success {
        ChildNodesStaysNone(meshes, node, i + 1, |node.children|);
        return false, None;
      }
      if child.Some? {
        children := children + [child.value];
      }
    }

    if |children| > 0 {
      return true, Some(Group(mtxf, children));
    } else {
      return true, None;
    }
  }

  // ---------------------------------------------------------------------
  // Properties of EmitMeshes

  /** Every mesh of the node and its descendants has normals. */
  predicate AllSmooth(meshes: seq<AiMesh>, node: AiNode)
    requires NodeOk(meshes, node)
    decreases node
  {
    && (forall i | 0 <= i < |node.meshes| :: meshes[node.meshes[i]].normals.Some?)
    && (forall k | 0 <= k < |node.children| :: AllSmooth(meshes, node.children[k]))
  }

  /** The node and its descendants name no mesh at all. */
  predicate NoMeshes(node: AiNode)
    decreases node
  {
    && |node.meshes| == 0
    && (forall k | 0 <= k < |node.children| :: NoMeshes(node.children[k]))
  }

  lemma {:induction false} MeshNodesOk(meshes: seq<AiMesh>, ids: seq<nat>, n: nat)
    requires n <= |ids|
    requires forall i | 0 <= i < |ids| :: ids[i] < |meshes| && MeshOk(meshes[ids[i]])
    ensures MeshNodes(meshes, ids, n).Some? <==> forall i | 0 <= i < n :: meshes[ids[i]].normals.Some?
    ensures MeshNodes(meshes, ids, n).Some? ==> |MeshNodes(meshes, ids, n).value| == n
  {
    if n > 0 {
      MeshNodesOk(meshes, ids, n - 1);
    }
  }

  lemma {:induction false} ChildNodesOk(meshes: seq<AiMesh>, node: AiNode, n: nat)
    requires n <= |node.children| && NodeOk(meshes, node)
    ensures ChildNodes(meshes, node, n).Some? <==>
              && (forall i | 0 <= i < |node.meshes| :: meshes[node.meshes[i]].normals.Some?)
              && (forall k | 0 <= k < n :: AllSmooth(meshes, node.children[k]))
    ensures ChildNodes(meshes, node, n).Some? ==>
              (|ChildNodes(meshes, node, n).value| == 0 <==>
                 |node.meshes| == 0 && forall k | 0 <= k < n :: NoMeshes(node.children[k]))
    decreases node, 0, n
  {
    if n == 0 {
      MeshNodesOk(meshes, node.meshes, |node.meshes|);
    } else {
      ChildNodesOk(meshes, node, n - 1);
      EmitOk(meshes, node.children[n - 1]);
    }
  }

  /** EmitMeshes succeeds exactly when every mesh in the subtree has
      normals; on failure the group is null; on success the group is null
      exactly when the subtree has no mesh, and otherwise it is a group
      whose matrix is the node transform transposed. */
  lemma {:induction false} EmitOk(meshes: seq<AiMesh>, node: AiNode)
    requires NodeOk(meshes, node)
    ensures Emit(meshes, node).0 <==> AllSmooth(meshes, node)
    ensures !Emit(meshes, node).0 ==> Emit(meshes, node).1 == None
    ensures Emit(meshes, node).0 ==> (Emit(meshes, node).1 == None <==> NoMeshes(node))
    ensures Emit(meshes, node).1.Some? ==>
              && Emit(meshes, node).1.value.Group?
              && Emit(meshes, node).1.value.matrix == TransposeOf(node.transform)
              && |Emit(meshes, node).1.value.children| > 0
    decreases node, 1
  {
    ChildNodesOk(meshes, node, |node.children|);
  }

  // ---------------------------------------------------------------------
  // Load

  /** The post-processing steps requested from the importer. */
  datatype Process = RemoveComponent | GenSmoothNormals | JoinIdenticalVertices | FindDegenerates

  /** The importer settings: the processing steps and the components that
      RemoveComponent strips (AI_CONFIG_PP_RVC_FLAGS). */
  datatype ImportSettings = ImportSettings(steps: set<Process>, removed: set<Component>)

  datatype Component = Normals

  /** The settings Load passes to the importer: an "stl" file also has its
      normals removed, so that they are all regenerated smooth. */
  function Settings(filename: string): (s: ImportSettings)
    ensures {GenSmoothNormals, JoinIdenticalVertices, FindDegenerates} <= s.steps
    ensures RemoveComponent in s.steps <==> Loader.Extension(filename) == "stl"
    ensures s.removed == (if Loader.Extension(filename) == "stl" then {Normals} else {})
  {
    var extension := Loader.Extension(filename);
    if extension == "stl" then
      ImportSettings({RemoveComponent, GenSmoothNormals, JoinIdenticalVertices, FindDegenerates}, {Normals})
    else
      ImportSettings({GenSmoothNormals, JoinIdenticalVertices, FindDegenerates}, {})
  }

  /** An imported scene: its meshes and its root node. */
  datatype AiScene = AiScene(meshes: seq<AiMesh>, root: AiNode)

  /** What Load does: exits the program when the import fails, and
      otherwise returns what EmitMeshes returns for the root. */
  datatype LoadOutcome = Exit | Loaded(success: bool, root: Option<Node>)

  /** Load(filename), the importer being a parameter that gives the scene
      (or null) for a file name and settings. */
  method Load(filename: string, importer: (string, ImportSettings) -> Option<AiScene>) returns (r: LoadOutcome)
    requires var scene := importer(filename, Settings(filename));
      scene.Some? ==> NodeOk(scene.value.meshes, scene.value.root)
    ensures var scene := importer(filename, Settings(filename));
      && (scene.None? ==> r == Exit)
      && (scene.Some? ==> r.Loaded? && (r.success, r.root) == Emit(scene.value.meshes, scene.value.root))
  {
    var settings := Settings(filename);
    var scene := importer(filename, settings);
    if scene.None? {
      return Exit;
    }
    var success, child := EmitMeshes(scene.value.meshes, scene.value.root);
    return Loaded(success, child);
  }
}
