/**
 * Light-table construction: the emissive instances and emissive triangles
 * the path tracer samples for next-event estimation, built from the glTF
 * scene's nodes, primitive meshes and materials, then normalised so that
 * their weights are sampling probabilities.
 */
module LightTables {
  import opened RealSums
  import opened Linear

  /** The part of a glTF primitive mesh the light tables read. */
  datatype PrimMesh = PrimMesh(firstIndex: nat, indexCount: nat, vertexOffset: nat, materialIndex: nat)

  /**
   * The part of the loaded glTF scene the light tables read: each node's
   * primitive mesh, the primitive meshes, and each material's emissive
   * factor.
   */
  datatype Scene = Scene(nodePrimMesh: seq<nat>, primMeshes: seq<PrimMesh>, emissiveFactors: seq<Vec3>)

  /** Every node names an existing primitive mesh, and every mesh an existing material. */
  predicate WellFormed(scene: Scene)
  {
    && (forall i :: 0 <= i < |scene.nodePrimMesh| ==> scene.nodePrimMesh[i] < |scene.primMeshes|)
    && (forall p :: 0 <= p < |scene.primMeshes| ==> scene.primMeshes[p].materialIndex < |scene.emissiveFactors|)
  }

  datatype LightInstance = LightInstance(indexOffset: nat, numTriangles: nat, vtxOffset: nat,
                                         matrixIndex: nat, weightedRadiance: real)

  datatype EmissiveTriangle = EmissiveTriangle(vtxOffset: nat, indexOffset: nat, matrixIndex: nat,
                                               weightedRadiance: real)

  /**
   * The geometry the tables need but do not compute: the norm of an
   * emissive factor and the world-space area of a triangle given its vertex
   * offset, index offset and matrix index.
   */
  datatype Geometry = Geometry(norm: Vec3 -> real, area: (nat, nat, nat) -> real)

  /** Norms and areas are never negative. */
  ghost predicate GeometryOk(g: Geometry)
  {
    && (forall v :: g.norm(v) >= 0.0)
    && (forall vtx, idx, m :: g.area(vtx, idx, m) >= 0.0)
  }

  /** A triangle's weight: the norm of its material's emissive factor times its area. */
  function Radiance(g: Geometry, emissive: Vec3, vtxOffset: nat, indexOffset: nat, matrixIndex: nat): real
  {
    g.norm(emissive) * g.area(vtxOffset, indexOffset, matrixIndex)
  }

  /**
   * A node as the tables see it: its primitive mesh, its material's emissive
   * factor and the weights of the primitive's whole triangles.
   */
  datatype Node = Node(prim: PrimMesh, emissive: Vec3, weights: seq<real>)

  /**
   * Node i with primitive prim and emissive factor emissive: one weight per
   * whole triangle (index count divided by three), triangle j starting 3 * j
   * indices after the primitive's first index.
   */
  function MakeNode(g: Geometry, prim: PrimMesh, emissive: Vec3, i: nat): Node
  {
    Node(prim, emissive, seq(prim.indexCount / 3, j requires 0 <= j =>
      Radiance(g, emissive, prim.vertexOffset, prim.firstIndex + 3 * j, i)))
  }

  /** The lookups node -> primitive mesh -> material, done for every node. */
  function Resolve(scene: Scene, g: Geometry): (nodes: seq<Node>)
    requires WellFormed(scene)
    ensures |nodes| == |scene.nodePrimMesh|
  {
    seq(|scene.nodePrimMesh|, i requires 0 <= i < |scene.nodePrimMesh| =>
      var p := scene.primMeshes[scene.nodePrimMesh[i]];
      MakeNode(g, p, scene.emissiveFactors[p.materialIndex], i))
  }

  /** All triangle weights of all nodes are non-negative. */
  predicate NonnegWeights(nodes: seq<Node>)
  {
    forall i, j :: 0 <= i < |nodes| && 0 <= j < |nodes[i].weights| ==> nodes[i].weights[j] >= 0.0
  }

  /** Non-negative norms and areas give non-negative triangle weights. */
  lemma {:induction false} ResolveNonneg(scene: Scene, g: Geometry)
    requires WellFormed(scene) && GeometryOk(g)
    ensures NonnegWeights(Resolve(scene, g))
  {
    var nodes := Resolve(scene, g);
    forall i, j | 0 <= i < |nodes| && 0 <= j < |nodes[i].weights| ensures nodes[i].weights[j] >= 0.0 {
      var p := nodes[i].prim;
      var m := g.norm(nodes[i].emissive);
      var a := g.area(p.vertexOffset, p.firstIndex + 3 * j, i);
      assert m >= 0.0 && a >= 0.0;
      assert nodes[i].weights[j] == m * a;
    }
  }

  /** A node is a light when its material's emissive factor is not zero. */
  predicate IsLight(node: Node)
  {
    node.emissive != Vec3(0.0, 0.0, 0.0)
  }

  /**
   * The triangle records node i produces: one per whole triangle of its
   * primitive, three indices apart, sharing its vertex offset and matrix
   * index, each with its weight.
   */
  function NodeTriangles(node: Node, i: nat): seq<EmissiveTriangle>
  {
    seq(|node.weights|, j requires 0 <= j < |node.weights| =>
      EmissiveTriangle(node.prim.vertexOffset, node.prim.firstIndex + 3 * j, i, node.weights[j]))
  }

  function TriangleWeights(ts: seq<EmissiveTriangle>): seq<real>
  {
    seq(|ts|, k requires 0 <= k < |ts| => ts[k].weightedRadiance)
  }

  function LightWeights(ls: seq<LightInstance>): seq<real>
  {
    seq(|ls|, k requires 0 <= k < |ls| => ls[k].weightedRadiance)
  }

  /**
   * Node i of the scene yields one record per whole triangle of its
   * primitive (index count divided by three), three indices apart from the
   * primitive's first index, all with the primitive's vertex offset and the
   * node's matrix index, weighted by emissive norm times area.
   */
  lemma {:induction false} NodeTrianglesShape(scene: Scene, g: Geometry, i: nat)
    requires WellFormed(scene) && i < |scene.nodePrimMesh|
    ensures var p := scene.primMeshes[scene.nodePrimMesh[i]];
      var e := scene.emissiveFactors[p.materialIndex];
      var ts := NodeTriangles(Resolve(scene, g)[i], i);
      && |ts| == p.indexCount / 3
      && forall j :: 0 <= j < |ts| ==>
           ts[j] == EmissiveTriangle(p.vertexOffset, p.firstIndex + 3 * j, i, Radiance(g, e, p.vertexOffset, p.firstIndex + 3 * j, i))
  {
  }

  /** The instance record of a light node; its weight is its triangles' total. */
  function NodeLight(node: Node, i: nat): LightInstance
  {
    LightInstance(node.prim.firstIndex, |node.weights|, node.prim.vertexOffset, i, Sum(node.weights))
  }

  /** A light node's weight is the total of its triangle records' weights. */
  lemma {:induction false} NodeLightWeight(node: Node, i: nat)
    ensures NodeLight(node, i).weightedRadiance == Sum(TriangleWeights(NodeTriangles(node, i)))
    ensures NodeLight(node, i).numTriangles == |NodeTriangles(node, i)|
  {
    assert TriangleWeights(NodeTriangles(node, i)) == node.weights;
  }

  lemma {:induction false} TriangleWeightsAppend(a: seq<EmissiveTriangle>, b: seq<EmissiveTriangle>)
    ensures TriangleWeights(a + b) == TriangleWeights(a) + TriangleWeights(b)
  {
  }

  /** The instance records of the light nodes among the first n. */
  function Lights(nodes: seq<Node>, n: nat): seq<LightInstance>
    requires n <= |nodes|
  {
    if n == 0 then []
    else Lights(nodes, n - 1) + (if IsLight(nodes[n - 1]) then [NodeLight(nodes[n - 1], n - 1)] else [])
  }

  /** The triangle records of the light nodes among the first n. */
  function Triangles(nodes: seq<Node>, n: nat): seq<EmissiveTriangle>
    requires n <= |nodes|
  {
    if n == 0 then []
    else Triangles(nodes, n - 1) + (if IsLight(nodes[n - 1]) then NodeTriangles(nodes[n - 1], n - 1) else [])
  }

  /** The light nodes among the first n, in node order: the independent reference for Lights. */
  function LightNodes(nodes: seq<Node>, n: nat): (r: seq<nat>)
    requires n <= |nodes|
    ensures forall k :: 0 <= k < |r| ==> r[k] < n && IsLight(nodes[r[k]])
    ensures forall a, b :: 0 <= a < b < |r| ==> r[a] < r[b]
    ensures forall i :: 0 <= i < n && IsLight(nodes[i]) ==> i in r
  {
    if n == 0 then []
    else LightNodes(nodes, n - 1) + (if IsLight(nodes[n - 1]) then [n - 1] else [])
  }

  /**
   * The instances are exactly the light nodes, in node order, each built
   * from its own node.
   */
  lemma {:induction false} LightsAreLightNodes(nodes: seq<Node>, n: nat)
    requires n <= |nodes|
    ensures |Lights(nodes, n)| == |LightNodes(nodes, n)|
    ensures forall k :: 0 <= k < |Lights(nodes, n)| ==>
              Lights(nodes, n)[k] == NodeLight(nodes[LightNodes(nodes, n)[k]], LightNodes(nodes, n)[k])
  {
    if n > 0 {
      LightsAreLightNodes(nodes, n - 1);
    }
  }

  /** Where instance k's triangles start in the triangle list: the triangle counts before it. */
  function TriangleStart(ls: seq<LightInstance>, k: nat): nat
    requires k <= |ls|
  {
    if k == 0 then 0 else TriangleStart(ls, k - 1) + ls[k - 1].numTriangles
  }

  lemma {:induction false} TriangleStartPrefix(ls: seq<LightInstance>, extra: seq<LightInstance>, k: nat)
    requires k <= |ls|
    ensures TriangleStart(ls + extra, k) == TriangleStart(ls, k)
  {
    if k > 0 {
      TriangleStartPrefix(ls, extra, k - 1);
    }
  }

  /** One node's contribution to the tables and to the total. */
  lemma {:induction false} LightsStep(nodes: seq<Node>, i: nat)
    requires i < |nodes|
    ensures Lights(nodes, i + 1) == Lights(nodes, i) + (if IsLight(nodes[i]) then [NodeLight(nodes[i], i)] else [])
    ensures Triangles(nodes, i + 1) == Triangles(nodes, i) + (if IsLight(nodes[i]) then NodeTriangles(nodes[i], i) else [])
    ensures Sum(LightWeights(Lights(nodes, i + 1))) ==
              Sum(LightWeights(Lights(nodes, i))) + (if IsLight(nodes[i]) then Sum(nodes[i].weights) else 0.0)
  {
    var ls0 := Lights(nodes, i);
    if IsLight(nodes[i]) {
      var w := Sum(nodes[i].weights);
      assert LightWeights(Lights(nodes, i + 1)) == LightWeights(ls0) + [w];
      SumAppend(LightWeights(ls0), [w]);
      assert Sum([w]) == SumTo([w], 0) + w;
    } else {
      assert Lights(nodes, i + 1) == ls0;
    }
  }

  /** The tables built from the first i nodes are prefixes of those built from the first n. */
  lemma {:induction false} TablesGrowByAppending(nodes: seq<Node>, i: nat, n: nat)
    requires i <= n <= |nodes|
    ensures Lights(nodes, i) <= Lights(nodes, n)
    ensures Triangles(nodes, i) <= Triangles(nodes, n)
    decreases n
  {
    if i < n {
      TablesGrowByAppending(nodes, i, n - 1);
      LightsStep(nodes, n - 1);
    }
  }

  /** The triangles of the first i nodes' instances are exactly the triangles of the first i nodes. */
  lemma {:induction false} StartIsTrianglesBefore(nodes: seq<Node>, i: nat)
    requires i <= |nodes|
    ensures TriangleStart(Lights(nodes, i), |Lights(nodes, i)|) == |Triangles(nodes, i)|
  {
    if i > 0 {
      StartIsTrianglesBefore(nodes, i - 1);
      LightsStep(nodes, i - 1);
      var l0, l1 := Lights(nodes, i - 1), Lights(nodes, i);
      if IsLight(nodes[i - 1]) {
        var light := NodeLight(nodes[i - 1], i - 1);
        TriangleStartPrefix(l0, [light], |l0|);
        assert TriangleStart(l1, |l1|) == TriangleStart(l1, |l0|) + light.numTriangles;
        assert |NodeTriangles(nodes[i - 1], i - 1)| == light.numTriangles;
      } else {
        assert l1 == l0;
      }
    }
  }

  /**
   * Light node i becomes instance k = |Lights(i)| of the whole table, and
   * the instances before it own exactly the triangles of the nodes before i.
   */
  lemma {:induction false} LightNodeInstance(nodes: seq<Node>, i: nat)
    requires i < |nodes| && IsLight(nodes[i])
    ensures var ls, k := Lights(nodes, |nodes|), |Lights(nodes, i)|;
      && k < |ls| && ls[k] == NodeLight(nodes[i], i)
      && TriangleStart(ls, k) == |Triangles(nodes, i)|
  {
    var ls, l0, l1 := Lights(nodes, |nodes|), Lights(nodes, i), Lights(nodes, i + 1);
    var k := |l0|;
    LightsStep(nodes, i);
    TablesGrowByAppending(nodes, i + 1, |nodes|);
    assert ls[k] == l1[k];
    StartIsTrianglesBefore(nodes, i);
    TriangleStartPrefix(l0, ls[k..], k);
    assert l0 + ls[k..] == ls;
  }

  /** Light node i's triangle records follow the triangles of the nodes before it. */
  lemma {:induction false} LightNodeTriangles(nodes: seq<Node>, i: nat)
    requires i < |nodes| && IsLight(nodes[i])
    ensures var ts, t0, nt := Triangles(nodes, |nodes|), Triangles(nodes, i), NodeTriangles(nodes[i], i);
      && |t0| + |nt| <= |ts|
      && ts[|t0|..|t0| + |nt|] == nt
  {
    LightsStep(nodes, i);
    TablesGrowByAppending(nodes, i + 1, |nodes|);
    InfixOfPrefix(Triangles(nodes, |nodes|), Triangles(nodes, i), NodeTriangles(nodes[i], i));
  }

  /** A sequence that starts with a + b holds b right after a. */
  lemma InfixOfPrefix<T>(s: seq<T>, a: seq<T>, b: seq<T>)
    requires a + b <= s
    ensures |a| + |b| <= |s| && s[|a|..|a| + |b|] == b
  {
    assert s[|a|..|a| + |b|] == (a + b)[|a|..];
  }

  /**
   * The two tables agree. Light node i becomes instance k = |Lights(i)|,
   * built from that node; its triangles are the node's triangle records and
   * sit in the triangle list right after those of the instances before it,
   * that is at TriangleStart(k); the instance's weight is the total of those
   * triangles' weights; the triangle list holds nothing else.
   */
  lemma {:induction false} LightNodeLaidOut(nodes: seq<Node>, i: nat)
    requires i < |nodes| && IsLight(nodes[i])
    ensures var ls, ts := Lights(nodes, |nodes|), Triangles(nodes, |nodes|);
      var k := |Lights(nodes, i)|;
      && k < |ls| && ls[k] == NodeLight(nodes[i], i)
      && TriangleStart(ls, k) + ls[k].numTriangles <= |ts|
      && ts[TriangleStart(ls, k)..TriangleStart(ls, k) + ls[k].numTriangles] == NodeTriangles(nodes[i], i)
      && ls[k].weightedRadiance == Sum(TriangleWeights(ts[TriangleStart(ls, k)..TriangleStart(ls, k) + ls[k].numTriangles]))
      && |ts| == TriangleStart(ls, |ls|)
  {
    LightNodeInstance(nodes, i);
    LightNodeTriangles(nodes, i);
    NodeLightWeight(nodes[i], i);
    StartIsTrianglesBefore(nodes, |nodes|);
  }

  /** Radiance is counted once: the instance weights and the triangle weights have the same total. */
  lemma {:induction false} TotalsAgree(nodes: seq<Node>, n: nat)
    requires n <= |nodes|
    ensures Sum(LightWeights(Lights(nodes, n))) == Sum(TriangleWeights(Triangles(nodes, n)))
  {
    if n > 0 {
      TotalsAgree(nodes, n - 1);
      LightsStep(nodes, n - 1);
      TriangleTotalStep(nodes, n - 1);
    }
  }

  /** One node's contribution to the triangle total: its own triangles' weights. */
  lemma {:induction false} TriangleTotalStep(nodes: seq<Node>, i: nat)
    requires i < |nodes|
    ensures Sum(TriangleWeights(Triangles(nodes, i + 1))) ==
              Sum(TriangleWeights(Triangles(nodes, i))) + (if IsLight(nodes[i]) then Sum(nodes[i].weights) else 0.0)
  {
    var ts0 := Triangles(nodes, i);
    if IsLight(nodes[i]) {
      var nt := NodeTriangles(nodes[i], i);
      assert Triangles(nodes, i + 1) == ts0 + nt;
      TriangleWeightsAppend(ts0, nt);
      SumAppend(TriangleWeights(ts0), TriangleWeights(nt));
      NodeLightWeight(nodes[i], i);
    } else {
      assert Triangles(nodes, i + 1) == ts0;
    }
  }

  /** With non-negative triangle weights every table weight is non-negative. */
  lemma {:induction false} WeightsNonneg(nodes: seq<Node>, n: nat)
    requires n <= |nodes| && NonnegWeights(nodes)
    ensures forall k :: 0 <= k < |Triangles(nodes, n)| ==> Triangles(nodes, n)[k].weightedRadiance >= 0.0
    ensures forall k :: 0 <= k < |Lights(nodes, n)| ==> Lights(nodes, n)[k].weightedRadiance >= 0.0
  {
    if n > 0 {
      WeightsNonneg(nodes, n - 1);
      LightsStep(nodes, n - 1);
      if IsLight(nodes[n - 1]) {
        SumNonneg(nodes[n - 1].weights);
      }
    }
  }


  /** Every instance's weight divided by total. */
  function NormalisedLights(ls: seq<LightInstance>, total: real): (r: seq<LightInstance>)
    requires total != 0.0
    ensures |r| == |ls|
    ensures LightWeights(r) == Scaled(LightWeights(ls), total)
    ensures forall k :: 0 <= k < |ls| ==> r[k] == ls[k].(weightedRadiance := r[k].weightedRadiance)
  {
    seq(|ls|, k requires 0 <= k < |ls| => ls[k].(weightedRadiance := ls[k].weightedRadiance / total))
  }

  /** Every triangle's weight divided by total. */
  function NormalisedTriangles(ts: seq<EmissiveTriangle>, total: real): (r: seq<EmissiveTriangle>)
    requires total != 0.0
    ensures |r| == |ts|
    ensures TriangleWeights(r) == Scaled(TriangleWeights(ts), total)
    ensures forall k :: 0 <= k < |ts| ==> r[k] == ts[k].(weightedRadiance := r[k].weightedRadiance)
  {
    seq(|ts|, k requires 0 <= k < |ts| => ts[k].(weightedRadiance := ts[k].weightedRadiance / total))
  }

  /**
   * After normalisation the instance weights of a table built from all the
   * nodes are a probability distribution: non-negative and summing to one.
   */
  lemma {:induction false} NormalisedLightsDistribution(nodes: seq<Node>)
    requires NonnegWeights(nodes)
    requires Sum(LightWeights(Lights(nodes, |nodes|))) != 0.0
    ensures var ls := Lights(nodes, |nodes|);
      var lw := LightWeights(NormalisedLights(ls, Sum(LightWeights(ls))));
      && Sum(lw) == 1.0
      && (forall k :: 0 <= k < |lw| ==> lw[k] >= 0.0)
  {
    var ls := Lights(nodes, |nodes|);
    var total := Sum(LightWeights(ls));
    WeightsNonneg(nodes, |nodes|);
    SumNonneg(LightWeights(ls));
    ScaledSumOne(LightWeights(ls), total);
    ScaledNonneg(LightWeights(ls), total);
  }

  /**
   * The triangle weights, divided by the same total, are a probability
   * distribution as well.
   */
  lemma {:induction false} NormalisedTrianglesDistribution(nodes: seq<Node>)
    requires NonnegWeights(nodes)
    requires Sum(LightWeights(Lights(nodes, |nodes|))) != 0.0
    ensures var ts := Triangles(nodes, |nodes|);
      var tw := TriangleWeights(NormalisedTriangles(ts, Sum(LightWeights(Lights(nodes, |nodes|)))));
      && Sum(tw) == 1.0
      && (forall k :: 0 <= k < |tw| ==> tw[k] >= 0.0)
  {
    var n := |nodes|;
    var ts := Triangles(nodes, n);
    var total := Sum(LightWeights(Lights(nodes, n)));
    TotalsAgree(nodes, n);
    WeightsNonneg(nodes, n);
    SumNonneg(TriangleWeights(ts));
    ScaledSumOne(TriangleWeights(ts), total);
    ScaledNonneg(TriangleWeights(ts), total);
  }

  /**
   * The node loop of buildLightTables: looks up each node's primitive mesh
   * and material, appends each light node's instance and triangles to the
   * given tables, and sums the new instances' weights.
   */
  method CollectLights(scene: Scene, g: Geometry, instances0: seq<LightInstance>, triangles0: seq<EmissiveTriangle>)
    returns (instances: seq<LightInstance>, triangles: seq<EmissiveTriangle>, totalRadiance: real)
    requires WellFormed(scene)
    ensures instances == instances0 + Lights(Resolve(scene, g), |scene.nodePrimMesh|)
    ensures triangles == triangles0 + Triangles(Resolve(scene, g), |scene.nodePrimMesh|)
    ensures totalRadiance == Sum(LightWeights(Lights(Resolve(scene, g), |scene.nodePrimMesh|)))
  {
    ghost var nodes := Resolve(scene, g);
    instances, triangles, totalRadiance := instances0, triangles0, 0.0;
    for i := 0 to |scene.nodePrimMesh|
      invariant instances == instances0 + Lights(nodes, i)
      invariant triangles == triangles0 + Triangles(nodes, i)
      invariant totalRadiance == Sum(LightWeights(Lights(nodes, i)))
    {
      var primitive := scene.primMeshes[scene.nodePrimMesh[i]];
      var emissive := scene.emissiveFactors[primitive.materialIndex];
      assert nodes[i] == MakeNode(g, primitive, emissive, i);
      LightsStep(nodes, i);
      if emissive != Vec3(0.0, 0.0, 0.0) {
        var light;
        triangles, light := CollectNodeTriangles(g, primitive, emissive, i, triangles);
        totalRadiance := totalRadiance + light.weightedRadiance;
        instances := instances + [light];
      }
    }
  }

  /**
   * The triangle loop for one light node: appends its triangles and builds
   * its instance record, accumulating the weight triangle by triangle.
   */
  method CollectNodeTriangles(g: Geometry, primitive: PrimMesh, emissive: Vec3, i: nat, triangles0: seq<EmissiveTriangle>)
    returns (triangles: seq<EmissiveTriangle>, light: LightInstance)
    ensures triangles == triangles0 + NodeTriangles(MakeNode(g, primitive, emissive, i), i)
    ensures light == NodeLight(MakeNode(g, primitive, emissive, i), i)
  {
    light := LightInstance(primitive.firstIndex, primitive.indexCount / 3, primitive.vertexOffset, i, 0.0);
    ghost var node := MakeNode(g, primitive, emissive, i);
    ghost var nt := NodeTriangles(node, i);
    triangles := triangles0;
    for j := 0 to light.numTriangles
      invariant triangles == triangles0 + nt[..j]
      invariant light == NodeLight(node, i).(weightedRadiance := SumTo(node.weights, j))
    {
      var triangle := EmissiveTriangle(light.vtxOffset, light.indexOffset + 3 * j, light.matrixIndex,
                                       Radiance(g, emissive, light.vtxOffset, light.indexOffset + 3 * j, i));
      assert nt[..j + 1] == nt[..j] + [triangle];
      triangles := triangles + [triangle];
      light := light.(weightedRadiance := light.weightedRadiance + triangle.weightedRadiance);
    }
    assert nt[..light.numTriangles] == nt;
  }


  /** The first normalisation loop: divides every instance weight by total, in place. */
  method NormaliseLights(ls: seq<LightInstance>, total: real) returns (r: seq<LightInstance>)
    requires total != 0.0
    ensures r == NormalisedLights(ls, total)
  {
    r := ls;
    for k := 0 to |r|
      invariant |r| == |ls|
      invariant forall m :: 0 <= m < k ==> r[m] == NormalisedLights(ls, total)[m]
      invariant forall m :: k <= m < |r| ==> r[m] == ls[m]
    {
      r := r[k := r[k].(weightedRadiance := r[k].weightedRadiance / total)];
    }
  }

  /** The second normalisation loop: divides every triangle weight by total, in place. */
  method NormaliseTriangles(ts: seq<EmissiveTriangle>, total: real) returns (r: seq<EmissiveTriangle>)
    requires total != 0.0
    ensures r == NormalisedTriangles(ts, total)
  {
    r := ts;
    for k := 0 to |r|
      invariant |r| == |ts|
      invariant forall m :: 0 <= m < k ==> r[m] == NormalisedTriangles(ts, total)[m]
      invariant forall m :: k <= m < |r| ==> r[m] == ts[m]
    {
      r := r[k := r[k].(weightedRadiance := r[k].weightedRadiance / total)];
    }
  }
}
