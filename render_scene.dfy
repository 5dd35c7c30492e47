/**
 * The render scene: the instance, primitive and material tables the
 * shaders read, the textures, and the vertex and index staging lists that
 * submitting hands to the device. Loading a glTF file appends to every
 * table, shifting the file's own references past what earlier loads left
 * there, so that several files share one set of tables.
 */
module RenderScenes {
  import opened Linear
  import opened TagHandles

  /**
   * A primitive: its range in the index list, its range in the vertex
   * lists and its material. All five are 32-bit unsigned in the source.
   */
  datatype PrimMesh = PrimMesh(firstIndex: nat, indexCount: nat, vertexOffset: nat, vertexCount: nat, materialIndex: nat)

  /** A material: four texture slots, -1 for an unused one, and its other parameters. */
  datatype Material = Material(pbrBaseColorTexture: int, pbrMetallicRoughnessTexture: int,
                               emissiveTexture: int, normalTexture: int, factors: seq<real>)

  /** The four texture slots of a material, in declaration order. */
  function TextureSlots(m: Material): seq<int>
  {
    [m.pbrBaseColorTexture, m.pbrMetallicRoughnessTexture, m.emissiveTexture, m.normalTexture]
  }

  /** A drawable node of a glTF file: its world matrix and the primitive it draws. */
  datatype GltfNode = GltfNode(worldMatrix: Mat4, primMesh: nat)

  /**
   * A texture coordinate after scaling to 16-bit fixed point and rounding:
   * x as converted to 16 bits, y as converted to 32 bits.
   */
  datatype QuantisedUv = QuantisedUv(x: bv16, y: bv32)

  /** A device texture: its image and the descriptor the shaders bind it through. */
  datatype Texture = Texture(image: nat, descriptor: nat)

  /**
   * What the glTF importer hands over for one file: drawable nodes,
   * materials, primitives, vertex attributes, 32-bit indices, the image
   * that each glTF texture samples, and one device texture per image.
   */
  datatype GltfScene = GltfScene(nodes: seq<GltfNode>, materials: seq<Material>, primMeshes: seq<PrimMesh>,
                                 positions: seq<Vec3>, normals: seq<Vec3>, texcoords: seq<QuantisedUv>,
                                 indices: seq<bv32>, textureSources: seq<int>, images: seq<Texture>)

  /** A texture slot is unused (any negative value) or names one of the file's glTF textures. */
  predicate SlotOk(slot: int, sources: seq<int>)
  {
    slot <= -1 || slot < |sources|
  }

  /** Every texture slot of the material is unused or names a glTF texture of the file. */
  predicate MaterialOk(m: Material, sources: seq<int>)
  {
    && SlotOk(m.pbrBaseColorTexture, sources) && SlotOk(m.pbrMetallicRoughnessTexture, sources)
    && SlotOk(m.emissiveTexture, sources) && SlotOk(m.normalTexture, sources)
  }

  /** Every material of the file is well formed. */
  predicate GltfSceneOk(g: GltfScene)
  {
    forall k :: 0 <= k < |g.materials| ==> MaterialOk(g.materials[k], g.textureSources)
  }

  /** The CPU-side state of a render scene, one component per member list or counter. */
  datatype SceneData = SceneData(
    worldFromInstance: seq<Mat4>, primitives: seq<PrimMesh>, nodePrimitivesLut: seq<nat>, materials: seq<Material>,
    numVertices: nat, numTriangles: nat, maxVerticesPerPrimitive: nat,
    textures: seq<Texture>, textureDescriptors: seq<nat>,
    vtxPositions: seq<Vec3>, normals: seq<bv32>, uvs: seq<bv32>, indices: seq<bv16>)

  /** Whether part occurs in s, as a search for it finds. */
  predicate Contains(s: string, part: string)
  {
    exists i | 0 <= i <= |s| - |part| :: OccursAt(s, part, i)
  }

  /** Whether part occurs in s starting at position i. */
  predicate OccursAt(s: string, part: string, i: nat)
  {
    i + |part| <= |s| && s[i..i + |part|] == part
  }

  /** Every name that ends in ".gltf" passes the file-name check. */
  lemma {:induction false} GltfNamesAccepted(stem: string)
    ensures Contains(stem + ".gltf", ".gltf")
  {
    var s := stem + ".gltf";
    assert s[|stem|..|stem| + 5] == ".gltf";
    assert OccursAt(s, ".gltf", |stem|);
  }

  /**
   * A texture slot after loading: an unused slot stays -1; a used one
   * becomes the image its glTF texture samples, counted past the textures
   * held before the load. A glTF texture that samples no image has source
   * -1, and its slot lands just before the load's own textures.
   */
  function RebaseSlot(slot: int, sources: seq<int>, textureOffset: nat): (r: int)
    requires SlotOk(slot, sources)
    ensures slot <= -1 ==> r == -1
    ensures slot > -1 && sources[slot] >= 0 ==> textureOffset <= r
    ensures slot > -1 && sources[slot] < 0 ==> r < textureOffset
  {
    if slot > -1 then sources[slot] + textureOffset else -1
  }

  /**
   * A used slot whose glTF texture samples no image is not kept apart: in
   * the first scene it becomes -1 and reads as unused, and in a later scene
   * it names the last texture of the scenes loaded before.
   */
  lemma SourcelessSlot(slot: int, sources: seq<int>, textureOffset: nat)
    requires SlotOk(slot, sources) && slot > -1 && sources[slot] == -1
    ensures textureOffset == 0 ==> RebaseSlot(slot, sources, textureOffset) == -1
    ensures textureOffset > 0 ==> RebaseSlot(slot, sources, textureOffset) == textureOffset - 1
  {
  }

  /** A material after loading: its four texture slots rebased, all else kept. */
  function RebaseMaterial(m: Material, sources: seq<int>, textureOffset: nat): (r: Material)
    requires MaterialOk(m, sources)
    ensures r.factors == m.factors
    ensures forall c :: 0 <= c < 4 ==> TextureSlots(r)[c] == RebaseSlot(TextureSlots(m)[c], sources, textureOffset)
  {
    m.(pbrBaseColorTexture := RebaseSlot(m.pbrBaseColorTexture, sources, textureOffset),
       pbrMetallicRoughnessTexture := RebaseSlot(m.pbrMetallicRoughnessTexture, sources, textureOffset),
       emissiveTexture := RebaseSlot(m.emissiveTexture, sources, textureOffset),
       normalTexture := RebaseSlot(m.normalTexture, sources, textureOffset))
  }

  /**
   * The materials a load appends: for each glTF material, the material
   * itself rebased in place and then a second copy of the rebased entry.
   */
  function MergedMaterials(ms: seq<Material>, sources: seq<int>, textureOffset: nat): (r: seq<Material>)
    requires forall k :: 0 <= k < |ms| ==> MaterialOk(ms[k], sources)
  {
    if |ms| == 0 then []
    else
      var m := RebaseMaterial(ms[|ms| - 1], sources, textureOffset);
      MergedMaterials(ms[..|ms| - 1], sources, textureOffset) + [m, m]
  }

  /** Every glTF material lands at two neighbouring entries, 2k and 2k + 1, both rebased. */
  lemma {:induction false} MaterialsPushedTwice(ms: seq<Material>, sources: seq<int>, textureOffset: nat)
    requires forall k :: 0 <= k < |ms| ==> MaterialOk(ms[k], sources)
    ensures |MergedMaterials(ms, sources, textureOffset)| == 2 * |ms|
    ensures forall k :: 0 <= k < |ms| ==>
              && MergedMaterials(ms, sources, textureOffset)[2 * k] == RebaseMaterial(ms[k], sources, textureOffset)
              && MergedMaterials(ms, sources, textureOffset)[2 * k + 1] == RebaseMaterial(ms[k], sources, textureOffset)
  {
    if |ms| > 0 {
      var init := ms[..|ms| - 1];
      MaterialsPushedTwice(init, sources, textureOffset);
      forall k | 0 <= k < |init| ensures init[k] == ms[k] { }
    }
  }

  /** A primitive after loading: its index, vertex and material references shifted past the earlier entries. */
  function RebasePrim(p: PrimMesh, ndx0: nat, v0: nat, materialOffset: nat): (r: PrimMesh)
    ensures r.indexCount == p.indexCount && r.vertexCount == p.vertexCount
    ensures r.firstIndex - ndx0 == p.firstIndex && r.vertexOffset - v0 == p.vertexOffset
    ensures r.materialIndex - materialOffset == p.materialIndex
  {
    p.(firstIndex := p.firstIndex + ndx0, vertexOffset := p.vertexOffset + v0, materialIndex := p.materialIndex + materialOffset)
  }

  /** The world matrices a load appends: the root transform times each node's world matrix. */
  function Instances(root: Mat4, nodes: seq<GltfNode>, mul: (Mat4, Mat4) -> Mat4): seq<Mat4>
  {
    seq(|nodes|, i requires 0 <= i < |nodes| => mul(root, nodes[i].worldMatrix))
  }

  /** The lookup entries a load appends: each node's primitive, counted past the earlier primitives. */
  function LutEntries(nodes: seq<GltfNode>, primitiveOffset: nat): seq<nat>
  {
    seq(|nodes|, i requires 0 <= i < |nodes| => nodes[i].primMesh + primitiveOffset)
  }

  /** The primitives a load appends, each rebased. */
  function RebasedPrims(ps: seq<PrimMesh>, ndx0: nat, v0: nat, materialOffset: nat): seq<PrimMesh>
  {
    seq(|ps|, i requires 0 <= i < |ps| => RebasePrim(ps[i], ndx0, v0, materialOffset))
  }

  /** uint16_t(i): an index cut to its low 16 bits. */
  function Truncate16(i: bv32): bv16
  {
    (i & 0xFFFF) as bv16
  }

  /** Cutting an index to 16 bits keeps exactly its low half, so indices below 2^16 survive unchanged. */
  lemma {:induction false} TruncateKeepsLowHalf(i: bv32)
    ensures Truncate16(i) as bv32 == i & 0xFFFF
    ensures i < 0x1_0000 ==> Truncate16(i) as bv32 == i
  {
  }

  /** The indices a load appends, each cut to 16 bits. */
  function Truncated(indices: seq<bv32>): seq<bv16>
  {
    seq(|indices|, i requires 0 <= i < |indices| => Truncate16(indices[i]))
  }

  /** The normals a load appends, each through the octahedral encoder octEncode. */
  function OctEncoded(normals: seq<Vec3>, octEncode: Vec3 -> bv32): seq<bv32>
  {
    seq(|normals|, i requires 0 <= i < |normals| => octEncode(normals[i]))
  }

  /**
   * One packed texture coordinate: x in the low 16 bits, y shifted up by
   * 16, whose own high half falls off the 32-bit word.
   */
  function PackUv(uv: QuantisedUv): bv32
  {
    (uv.x as bv32) | (uv.y << 16)
  }

  /** The x half of a packed word. */
  function UnpackX(p: bv32): bv16
  {
    (p & 0xFFFF) as bv16
  }

  /** The y half of a packed word. */
  function UnpackY(p: bv32): bv32
  {
    p >> 16
  }

  /** Packing then unpacking gives back x, and the low 16 bits of y. */
  lemma {:induction false} PackThenUnpack(uv: QuantisedUv)
    ensures UnpackX(PackUv(uv)) == uv.x
    ensures UnpackY(PackUv(uv)) == uv.y & 0xFFFF
  {
  }

  /** Unpacking then packing gives back the word: every 32-bit word is some packed pair. */
  lemma {:induction false} UnpackThenPack(p: bv32)
    ensures PackUv(QuantisedUv(UnpackX(p), UnpackY(p))) == p
  {
  }

  /** The texture coordinates a load appends, each packed. */
  function PackedUvs(uvs: seq<QuantisedUv>): seq<bv32>
  {
    seq(|uvs|, i requires 0 <= i < |uvs| => PackUv(uvs[i]))
  }

  /** The vertex count a load adds to the statistics: the sum over its primitives. */
  function VertexTotal(ps: seq<PrimMesh>): nat
  {
    if |ps| == 0 then 0 else VertexTotal(ps[..|ps| - 1]) + ps[|ps| - 1].vertexCount
  }

  /** The triangle statistic a load adds: the sum of its primitives' index counts. */
  function IndexTotal(ps: seq<PrimMesh>): nat
  {
    if |ps| == 0 then 0 else IndexTotal(ps[..|ps| - 1]) + ps[|ps| - 1].indexCount
  }

  function Max(a: nat, b: nat): nat
  {
    if a < b then b else a
  }

  /** The largest vertex count after a load: the running maximum over its primitives, starting from m0. */
  function MaxVertices(m0: nat, ps: seq<PrimMesh>): nat
  {
    if |ps| == 0 then m0 else Max(MaxVertices(m0, ps[..|ps| - 1]), ps[|ps| - 1].vertexCount)
  }

  /**
   * The running maximum is the maximum: no smaller than the start or any
   * primitive's vertex count, and equal to the start or to one of them.
   */
  lemma {:induction false} MaxVerticesIsMax(m0: nat, ps: seq<PrimMesh>)
    ensures m0 <= MaxVertices(m0, ps)
    ensures forall k :: 0 <= k < |ps| ==> ps[k].vertexCount <= MaxVertices(m0, ps)
    ensures MaxVertices(m0, ps) == m0 || exists k :: 0 <= k < |ps| && MaxVertices(m0, ps) == ps[k].vertexCount
  {
    if |ps| > 0 {
      var init := ps[..|ps| - 1];
      MaxVerticesIsMax(m0, init);
      forall k | 0 <= k < |init| ensures init[k] == ps[k] { }
    }
  }

  /**
   * The statistics compose: counting two lists of primitives one after the
   * other gives the same totals and maximum as counting them together.
   */
  lemma {:induction false} StatisticsCompose(m0: nat, a: seq<PrimMesh>, b: seq<PrimMesh>)
    ensures VertexTotal(a + b) == VertexTotal(a) + VertexTotal(b)
    ensures IndexTotal(a + b) == IndexTotal(a) + IndexTotal(b)
    ensures MaxVertices(m0, a + b) == MaxVertices(MaxVertices(m0, a), b)
  {
    if |b| > 0 {
      var init := b[..|b| - 1];
      StatisticsCompose(m0, a, init);
      assert (a + b)[..|a + b| - 1] == a + init;
    } else {
      assert a + b == a;
    }
  }

  /**
   * loadGltf on a file that passed the name check: the nodes' world
   * matrices and primitive lookups, one texture per image, the materials,
   * the vertex attributes, the 16-bit indices and the rebased primitives
   * are appended, and the statistics are updated. Offsets are the table
   * sizes before the load.
   */
  function Load(s: SceneData, root: Mat4, g: GltfScene, mul: (Mat4, Mat4) -> Mat4, octEncode: Vec3 -> bv32): (r: SceneData)
    requires GltfSceneOk(g)
    ensures r.textureDescriptors == s.textureDescriptors
  {
    s.(worldFromInstance := s.worldFromInstance + Instances(root, g.nodes, mul),
       nodePrimitivesLut := s.nodePrimitivesLut + LutEntries(g.nodes, |s.primitives|),
       textures := s.textures + g.images,
       materials := s.materials + MergedMaterials(g.materials, g.textureSources, |s.textures|),
       vtxPositions := s.vtxPositions + g.positions,
       normals := s.normals + OctEncoded(g.normals, octEncode),
       uvs := s.uvs + PackedUvs(g.texcoords),
       indices := s.indices + Truncated(g.indices),
       primitives := s.primitives + RebasedPrims(g.primMeshes, |s.indices|, |s.vtxPositions|, |s.materials|),
       numVertices := s.numVertices + VertexTotal(g.primMeshes),
       numTriangles := s.numTriangles + IndexTotal(g.primMeshes),
       maxVerticesPerPrimitive := MaxVertices(s.maxVerticesPerPrimitive, g.primMeshes))
  }

  /** loadGltf: a file whose name does not contain ".gltf" changes nothing. */
  function LoadFile(s: SceneData, fileName: string, root: Mat4, g: GltfScene,
                    mul: (Mat4, Mat4) -> Mat4, octEncode: Vec3 -> bv32): SceneData
    requires GltfSceneOk(g)
  {
    if Contains(fileName, ".gltf") then Load(s, root, g, mul, octEncode) else s
  }

  /** The instance tables agree in length, and so do the three vertex attribute lists. */
  predicate Aligned(s: SceneData)
  {
    && |s.worldFromInstance| == |s.nodePrimitivesLut|
    && |s.normals| == |s.vtxPositions| && |s.uvs| == |s.vtxPositions|
  }

  /**
   * A load keeps what earlier loads left: every table of the old scene is
   * a prefix of the new one and no statistic goes down; it keeps the
   * tables aligned when the file's own vertex attributes are.
   */
  lemma {:induction false} LoadKeepsEarlierScene(s: SceneData, root: Mat4, g: GltfScene,
                                                 mul: (Mat4, Mat4) -> Mat4, octEncode: Vec3 -> bv32)
    requires GltfSceneOk(g)
    ensures var r := Load(s, root, g, mul, octEncode);
            && s.worldFromInstance <= r.worldFromInstance && s.nodePrimitivesLut <= r.nodePrimitivesLut
            && s.primitives <= r.primitives && s.materials <= r.materials && s.textures <= r.textures
            && s.vtxPositions <= r.vtxPositions && s.normals <= r.normals && s.uvs <= r.uvs
            && s.indices <= r.indices
            && s.numVertices <= r.numVertices && s.numTriangles <= r.numTriangles
            && s.maxVerticesPerPrimitive <= r.maxVerticesPerPrimitive
    ensures Aligned(s) && |g.normals| == |g.positions| && |g.texcoords| == |g.positions|
            ==> Aligned(Load(s, root, g, mul, octEncode))
  {
    MaxVerticesIsMax(s.maxVerticesPerPrimitive, g.primMeshes);
  }

  /**
   * Instance i of the loaded file gets the root transform times its node's
   * world matrix, and its lookup entry leads to the node's own primitive,
   * rebased, even when earlier loads left primitives behind.
   */
  lemma {:induction false} InstanceDrawsOwnPrimitive(s: SceneData, root: Mat4, g: GltfScene,
                                                     mul: (Mat4, Mat4) -> Mat4, octEncode: Vec3 -> bv32, i: nat)
    requires GltfSceneOk(g) && Aligned(s)
    requires i < |g.nodes| && g.nodes[i].primMesh < |g.primMeshes|
    ensures var r := Load(s, root, g, mul, octEncode);
            var n := |s.nodePrimitivesLut| + i;
            && n < |r.worldFromInstance| && n < |r.nodePrimitivesLut|
            && r.worldFromInstance[n] == mul(root, g.nodes[i].worldMatrix)
            && r.nodePrimitivesLut[n] < |r.primitives|
            && r.primitives[r.nodePrimitivesLut[n]]
               == RebasePrim(g.primMeshes[g.nodes[i].primMesh], |s.indices|, |s.vtxPositions|, |s.materials|)
  {
    var r := Load(s, root, g, mul, octEncode);
    var n := |s.nodePrimitivesLut| + i;
    assert r.nodePrimitivesLut[n] == LutEntries(g.nodes, |s.primitives|)[i];
    assert r.worldFromInstance[n] == Instances(root, g.nodes, mul)[i];
  }

  /**
   * Reading index j of a loaded primitive through its rebased first index
   * gives the file's own index at the primitive's original position, cut
   * to 16 bits.
   */
  lemma {:induction false} RebasedIndicesMatch(s: SceneData, root: Mat4, g: GltfScene,
                                               mul: (Mat4, Mat4) -> Mat4, octEncode: Vec3 -> bv32, p: nat, j: nat)
    requires GltfSceneOk(g) && p < |g.primMeshes| && g.primMeshes[p].firstIndex + j < |g.indices|
    ensures var r := Load(s, root, g, mul, octEncode);
            var q := r.primitives[|s.primitives| + p];
            && q.firstIndex + j < |r.indices|
            && r.indices[q.firstIndex + j] == Truncate16(g.indices[g.primMeshes[p].firstIndex + j])
  {
    var r := Load(s, root, g, mul, octEncode);
    var k := g.primMeshes[p].firstIndex + j;
    assert r.primitives[|s.primitives| + p] == RebasedPrims(g.primMeshes, |s.indices|, |s.vtxPositions|, |s.materials|)[p];
    assert r.indices[|s.indices| + k] == Truncated(g.indices)[k];
  }

  /**
   * Reading vertex j of a loaded primitive through its rebased vertex
   * offset gives the file's own position, encoded normal and packed
   * texture coordinate at the primitive's original vertex.
   */
  lemma {:induction false} RebasedVerticesMatch(s: SceneData, root: Mat4, g: GltfScene,
                                                mul: (Mat4, Mat4) -> Mat4, octEncode: Vec3 -> bv32, p: nat, j: nat)
    requires GltfSceneOk(g) && Aligned(s) && p < |g.primMeshes|
    requires g.primMeshes[p].vertexOffset + j < |g.positions|
    requires |g.normals| == |g.positions| && |g.texcoords| == |g.positions|
    ensures var r := Load(s, root, g, mul, octEncode);
            var v := r.primitives[|s.primitives| + p].vertexOffset + j;
            var k := g.primMeshes[p].vertexOffset + j;
            && v < |r.vtxPositions| && v < |r.normals| && v < |r.uvs|
            && r.vtxPositions[v] == g.positions[k]
            && r.normals[v] == octEncode(g.normals[k])
            && r.uvs[v] == PackUv(g.texcoords[k])
  {
    var r := Load(s, root, g, mul, octEncode);
    var k := g.primMeshes[p].vertexOffset + j;
    assert r.primitives[|s.primitives| + p] == RebasedPrims(g.primMeshes, |s.indices|, |s.vtxPositions|, |s.materials|)[p];
    assert r.normals[|s.normals| + k] == OctEncoded(g.normals, octEncode)[k];
    assert r.uvs[|s.uvs| + k] == PackedUvs(g.texcoords)[k];
  }

  /**
   * Both entries of a loaded material name, in each used slot, the device
   * texture made from the image its glTF texture samples; an unused slot
   * stays -1.
   */
  lemma {:induction false} MaterialTexturesAreOwnImages(s: SceneData, root: Mat4, g: GltfScene,
                                                        mul: (Mat4, Mat4) -> Mat4, octEncode: Vec3 -> bv32,
                                                        k: nat, copy: nat, c: nat)
    requires GltfSceneOk(g) && k < |g.materials| && copy < 2 && c < 4
    ensures var r := Load(s, root, g, mul, octEncode);
            var slot := TextureSlots(g.materials[k])[c];
            && |s.materials| + 2 * k + copy < |r.materials|
            && var rebased := TextureSlots(r.materials[|s.materials| + 2 * k + copy])[c];
               && (slot <= -1 ==> rebased == -1)
               && (slot > -1 && 0 <= g.textureSources[slot] < |g.images| ==>
                     0 <= rebased < |r.textures| && r.textures[rebased] == g.images[g.textureSources[slot]])
  {
    MaterialsPushedTwice(g.materials, g.textureSources, |s.textures|);
    var merged := MergedMaterials(g.materials, g.textureSources, |s.textures|);
    assert merged[2 * k + copy] == RebaseMaterial(g.materials[k], g.textureSources, |s.textures|);
  }

  /**
   * A loaded primitive with material index m reads the entry m past the
   * earlier materials; as every material was appended twice, that entry is
   * glTF material m / 2, rebased.
   */
  lemma {:induction false} PrimitiveMaterialEntry(s: SceneData, root: Mat4, g: GltfScene,
                                                  mul: (Mat4, Mat4) -> Mat4, octEncode: Vec3 -> bv32, p: nat)
    requires GltfSceneOk(g) && p < |g.primMeshes| && g.primMeshes[p].materialIndex < 2 * |g.materials|
    ensures var r := Load(s, root, g, mul, octEncode);
            var m := r.primitives[|s.primitives| + p].materialIndex;
            && m < |r.materials|
            && r.materials[m] == RebaseMaterial(g.materials[g.primMeshes[p].materialIndex / 2], g.textureSources, |s.textures|)
  {
    MaterialsPushedTwice(g.materials, g.textureSources, |s.textures|);
    var r := Load(s, root, g, mul, octEncode);
    var m := g.primMeshes[p].materialIndex;
    assert r.primitives[|s.primitives| + p] == RebasedPrims(g.primMeshes, |s.indices|, |s.vtxPositions|, |s.materials|)[p];
    var half := m / 2;
    assert m == 2 * half || m == 2 * half + 1;
  }

  /**
   * The handle addTexture returns for texture index n: n converted to the
   * 32-bit handle type, which wraps at 2^32. It is a valid handle as long
   * as n is below the reserved all-ones value.
   */
  function HandleOf(n: nat): (h: HandleType)
    ensures n < 0xFFFF_FFFF ==> h != InvalidHandle
  {
    (n % 0x1_0000_0000) as HandleType
  }

  /**
   * octEncodeVec3ToU32: every normal through the octahedral encoder, which
   * is the parameter octEncode. A member of the scene in the source that
   * reads none of its state.
   */
  method OctEncodeVec3ToU32(normals: seq<Vec3>, octEncode: Vec3 -> bv32) returns (encoded: seq<bv32>)
    ensures |encoded| == |normals|
    ensures forall i :: 0 <= i < |normals| ==> encoded[i] == octEncode(normals[i])
  {
    encoded := [];
    for i := 0 to |normals|
      invariant |encoded| == i
      invariant forall k :: 0 <= k < i ==> encoded[k] == octEncode(normals[k])
    {
      encoded := encoded + [octEncode(normals[i])];
    }
  }

  /**
   * packVec2ToU32: every quantised texture coordinate packed into one
   * 32-bit word. A member of the scene in the source that reads none of
   * its state.
   */
  method PackVec2ToU32(uvs: seq<QuantisedUv>) returns (encoded: seq<bv32>)
    ensures |encoded| == |uvs|
    ensures forall i :: 0 <= i < |uvs| ==> encoded[i] == PackUv(uvs[i])
  {
    encoded := [];
    for i := 0 to |uvs|
      invariant |encoded| == i
      invariant forall k :: 0 <= k < i ==> encoded[k] == PackUv(uvs[k])
    {
      encoded := encoded + [PackUv(uvs[i])];
    }
  }

  /**
   * The render scene. Device buffers, images and the allocator are not
   * modelled; the texture the allocator makes from an image is an input.
   */
  class RenderScene {
    var worldFromInstance: seq<Mat4>
    var primitives: seq<PrimMesh>
    var nodePrimitivesLut: seq<nat>
    var materials: seq<Material>
    var numVertices: nat
    var numTriangles: nat
    var maxVerticesPerPrimitive: nat
    var textures: seq<Texture>
    var textureDescriptors: seq<nat>
    var vtxPositions: seq<Vec3>
    var normals: seq<bv32>
    var uvs: seq<bv32>
    var indices: seq<bv16>

    /** The scene's state as a value. */
    function Data(): SceneData
      reads this
    {
      SceneData(worldFromInstance, primitives, nodePrimitivesLut, materials,
                numVertices, numTriangles, maxVerticesPerPrimitive,
                textures, textureDescriptors, vtxPositions, normals, uvs, indices)
    }

    /** The constructor: every list empty, every statistic 0. */
    constructor ()
      ensures Data() == SceneData([], [], [], [], 0, 0, 0, [], [], [], [], [], [])
    {
      worldFromInstance, primitives, nodePrimitivesLut, materials := [], [], [], [];
      numVertices, numTriangles, maxVerticesPerPrimitive := 0, 0, 0;
      textures, textureDescriptors := [], [];
      vtxPositions, normals, uvs, indices := [], [], [], [];
    }

    /** addTexture: appends the texture and returns a handle holding its index. */
    method AddTexture(texture: Texture) returns (handle: TagHandle)
      modifies this
      ensures Data() == old(Data()).(textures := old(textures) + [texture])
      ensures fresh(handle) && handle.id == HandleOf(|textures| - 1)
    {
      textures := textures + [texture];
      handle := new TagHandle(HandleOf(|textures| - 1));
    }

    /** addDefaultTexture: adds the 1x1 white texture, made by the allocator (white). */
    method AddDefaultTexture(white: Texture)
      modifies this
      ensures Data() == old(Data()).(textures := old(textures) + [white])
    {
      var _ := AddTexture(white);
    }

    /** createTextureImages: one texture per image of the file, in image order. */
    method CreateTextureImages(images: seq<Texture>)
      modifies this
      ensures Data() == old(Data()).(textures := old(textures) + images)
    {
      ghost var d0 := Data();
      for i := 0 to |images|
        invariant textures == d0.textures + images[..i]
        invariant Data() == d0.(textures := textures)
      {
        var _ := AddTexture(images[i]);
        assert images[..i + 1] == images[..i] + [images[i]];
      }
      assert images[..|images|] == images;
    }

    /** The node loop of loadGltf: one world matrix and one lookup entry per node. */
    method AppendInstances(root: Mat4, nodes: seq<GltfNode>, mul: (Mat4, Mat4) -> Mat4)
      modifies this
      ensures Data() == old(Data()).(worldFromInstance := old(worldFromInstance) + Instances(root, nodes, mul),
                                     nodePrimitivesLut := old(nodePrimitivesLut) + LutEntries(nodes, |primitives|))
    {
      ghost var d0 := Data();
      var primitiveOffset := |primitives|;
      for i := 0 to |nodes|
        invariant worldFromInstance == d0.worldFromInstance + Instances(root, nodes, mul)[..i]
        invariant nodePrimitivesLut == d0.nodePrimitivesLut + LutEntries(nodes, primitiveOffset)[..i]
        invariant Data() == d0.(worldFromInstance := worldFromInstance, nodePrimitivesLut := nodePrimitivesLut)
      {
        worldFromInstance := worldFromInstance + [mul(root, nodes[i].worldMatrix)];
        nodePrimitivesLut := nodePrimitivesLut + [nodes[i].primMesh + primitiveOffset];
        assert Instances(root, nodes, mul)[..i + 1] == Instances(root, nodes, mul)[..i] + [mul(root, nodes[i].worldMatrix)];
        assert LutEntries(nodes, primitiveOffset)[..i + 1] == LutEntries(nodes, primitiveOffset)[..i] + [nodes[i].primMesh + primitiveOffset];
      }
      assert Instances(root, nodes, mul)[..|nodes|] == Instances(root, nodes, mul);
      assert LutEntries(nodes, primitiveOffset)[..|nodes|] == LutEntries(nodes, primitiveOffset);
    }

    /**
     * The material loop of loadGltf: each material is appended, rebased in
     * place as the last entry, and the rebased entry appended once more.
     */
    method AppendMaterials(ms: seq<Material>, sources: seq<int>, textureOffset: nat)
      requires forall k :: 0 <= k < |ms| ==> MaterialOk(ms[k], sources)
      modifies this
      ensures Data() == old(Data()).(materials := old(materials) + MergedMaterials(ms, sources, textureOffset))
    {
      ghost var d0 := Data();
      for i := 0 to |ms|
        invariant materials == d0.materials + MergedMaterials(ms[..i], sources, textureOffset)
        invariant Data() == d0.(materials := materials)
      {
        materials := materials + [ms[i]];
        var material := RebaseMaterial(ms[i], sources, textureOffset);
        materials := materials[|materials| - 1 := material];
        materials := materials + [materials[|materials| - 1]];
        assert ms[..i + 1][..i] == ms[..i];
      }
      assert ms[..|ms|] == ms;
    }

    /**
     * The index loop of loadGltf: every index cut to 16 bits and pushed
     * straight onto the member list; the local list meant for them stays
     * empty and appending it adds nothing.
     */
    method AppendIndices(newIndices: seq<bv32>)
      modifies this
      ensures Data() == old(Data()).(indices := old(indices) + Truncated(newIndices))
    {
      ghost var d0 := Data();
      var shortIndices: seq<bv16> := [];
      for i := 0 to |newIndices|
        invariant indices == d0.indices + Truncated(newIndices)[..i]
        invariant Data() == d0.(indices := indices)
      {
        indices := indices + [Truncate16(newIndices[i])];
        assert Truncated(newIndices)[..i + 1] == Truncated(newIndices)[..i] + [Truncate16(newIndices[i])];
      }
      indices := indices + shortIndices;
      assert Truncated(newIndices)[..|newIndices|] == Truncated(newIndices);
    }

    /**
     * The primitive loop of loadGltf: the statistics take in each
     * primitive, which is appended rebased by the index, vertex and
     * material counts held before the load.
     */
    method AppendPrimitives(ps: seq<PrimMesh>, ndx0: nat, v0: nat, materialOffset: nat)
      modifies this
      ensures Data() == old(Data()).(primitives := old(primitives) + RebasedPrims(ps, ndx0, v0, materialOffset),
                                     numVertices := old(numVertices) + VertexTotal(ps),
                                     numTriangles := old(numTriangles) + IndexTotal(ps),
                                     maxVerticesPerPrimitive := MaxVertices(old(maxVerticesPerPrimitive), ps))
    {
      ghost var d0 := Data();
      for i := 0 to |ps|
        invariant primitives == d0.primitives + RebasedPrims(ps, ndx0, v0, materialOffset)[..i]
        invariant numVertices == d0.numVertices + VertexTotal(ps[..i])
        invariant numTriangles == d0.numTriangles + IndexTotal(ps[..i])
        invariant maxVerticesPerPrimitive == MaxVertices(d0.maxVerticesPerPrimitive, ps[..i])
        invariant Data() == d0.(primitives := primitives, numVertices := numVertices, numTriangles := numTriangles,
                                maxVerticesPerPrimitive := maxVerticesPerPrimitive)
      {
        var p := ps[i];
        numVertices := numVertices + p.vertexCount;
        numTriangles := numTriangles + p.indexCount;
        maxVerticesPerPrimitive := Max(maxVerticesPerPrimitive, p.vertexCount);
        primitives := primitives + [RebasePrim(p, ndx0, v0, materialOffset)];
        assert ps[..i + 1][..i] == ps[..i];
        assert RebasedPrims(ps, ndx0, v0, materialOffset)[..i + 1]
               == RebasedPrims(ps, ndx0, v0, materialOffset)[..i] + [RebasePrim(p, ndx0, v0, materialOffset)];
      }
      assert ps[..|ps|] == ps;
      assert RebasedPrims(ps, ndx0, v0, materialOffset)[..|ps|] == RebasedPrims(ps, ndx0, v0, materialOffset);
    }

    /**
     * loadGltf: a file whose name lacks ".gltf" is ignored; otherwise the
     * file's contents (g, as the importer read it) are appended. Matrix
     * product and normal encoding are the parameters mul and octEncode.
     */
    method LoadGltf(fileName: string, rootTransform: Mat4, g: GltfScene,
                    mul: (Mat4, Mat4) -> Mat4, octEncode: Vec3 -> bv32)
      requires GltfSceneOk(g)
      modifies this
      ensures Data() == LoadFile(old(Data()), fileName, rootTransform, g, mul, octEncode)
    {
      if !Contains(fileName, ".gltf") {
        return;
      }
      ghost var d0 := Data();
      AppendInstances(rootTransform, g.nodes, mul);
      var textureOffset := |textures|;
      CreateTextureImages(g.images);
      var materialOffset := |materials|;
      AppendMaterials(g.materials, g.textureSources, textureOffset);
      var v0, ndx0 := |vtxPositions|, |indices|;
      vtxPositions := vtxPositions + g.positions;
      var encodedNormals := OctEncodeVec3ToU32(g.normals, octEncode);
      normals := normals + encodedNormals;
      var encodedUvs := PackVec2ToU32(g.texcoords);
      uvs := uvs + encodedUvs;
      AppendIndices(g.indices);
      AppendPrimitives(g.primMeshes, ndx0, v0, materialOffset);
      assert encodedNormals == OctEncoded(g.normals, octEncode);
      assert encodedUvs == PackedUvs(g.texcoords);
      assert Data() == Load(d0, rootTransform, g, mul, octEncode);
    }

    /**
     * updateTextureDescriptors: with textures present and no descriptors
     * yet, takes each texture's descriptor in order, so that there are as
     * many descriptors as textures.
     */
    method UpdateTextureDescriptors()
      requires |textures| > 0 && |textureDescriptors| == 0
      modifies this
      ensures |textureDescriptors| == |textures|
      ensures forall i :: 0 <= i < |textures| ==> textureDescriptors[i] == textures[i].descriptor
      ensures Data() == old(Data()).(textureDescriptors := textureDescriptors)
    {
      for i := 0 to |textures|
        invariant Data() == old(Data()).(textureDescriptors := textureDescriptors)
        invariant |textureDescriptors| == i
        invariant forall k :: 0 <= k < i ==> textureDescriptors[k] == textures[k].descriptor
      {
        textureDescriptors := textureDescriptors + [textures[i].descriptor];
      }
    }

    /**
     * submitToGPU, on the lists it keeps: a scene without textures gets the
     * white default one (white, as the allocator makes it), the
     * descriptors are taken, and the vertex and index staging lists are
     * emptied once the device buffers hold them.
     */
    method SubmitToGpu(white: Texture)
      requires |textureDescriptors| == 0
      modifies this
      ensures textures == if |old(textures)| == 0 then [white] else old(textures)
      ensures |textureDescriptors| == |textures|
      ensures forall i :: 0 <= i < |textures| ==> textureDescriptors[i] == textures[i].descriptor
      ensures Data() == old(Data()).(textures := textures, textureDescriptors := textureDescriptors,
                                     vtxPositions := [], normals := [], uvs := [], indices := [])
    {
      if |textures| == 0 {
        AddDefaultTexture(white);
      }
      UpdateTextureDescriptors();
      vtxPositions := [];
      normals := [];
      uvs := [];
      indices := [];
    }
  }
}
