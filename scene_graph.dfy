/**
 * The scene graph: a flat list of nodes, each naming its local and world
 * matrices by index and its children by an offset from its own position,
 * and the pass that recomputes the children's world matrices.
 */
module SceneGraphs {
  import opened Linear

  /**
   * A node: the index of its matrices, and its children, the numChildren
   * nodes starting childOffset positions after its own.
   */
  datatype Node = Node(matrixIndex: nat, childOffset: nat, numChildren: nat)

  /** The field widths: a 32-bit matrix index and 16-bit child offset and count. */
  predicate NodeFits(node: Node)
  {
    node.matrixIndex < 0x1_0000_0000 && node.childOffset < 0x1_0000 && node.numChildren < 0x1_0000
  }

  /** The position where the children of the node at position p begin. */
  function ChildBegin(nodes: seq<Node>, p: nat): nat
    requires p < |nodes|
  {
    p + nodes[p].childOffset
  }

  /** The position just past the children of the node at position p. */
  function ChildEnd(nodes: seq<Node>, p: nat): nat
    requires p < |nodes|
  {
    p + nodes[p].childOffset + nodes[p].numChildren
  }

  /** Whether the node at position c is a child of the node at position p. */
  predicate IsChild(nodes: seq<Node>, p: nat, c: nat)
  {
    p < |nodes| && c < |nodes| && ChildBegin(nodes, p) <= c < ChildEnd(nodes, p)
  }

  /**
   * What the pass indexes stays in range. Only nodes with children are read:
   * their child range lies inside the node list, their own matrix index
   * inside the world matrices, and each child's index inside both matrix
   * lists. A leaf that is nobody's child is never read.
   */
  predicate InBounds(nodes: seq<Node>, local: seq<Mat4>, world: seq<Mat4>)
  {
    forall p :: 0 <= p < |nodes| ==>
      && NodeFits(nodes[p])
      && (nodes[p].numChildren > 0 ==>
            && ChildEnd(nodes, p) <= |nodes|
            && nodes[p].matrixIndex < |world|
            && forall c :: ChildBegin(nodes, p) <= c < ChildEnd(nodes, p) ==>
                 nodes[c].matrixIndex < |local| && nodes[c].matrixIndex < |world|)
  }

  /** One child update: the child's world matrix becomes parent world times child local. */
  function SetChild(world: seq<Mat4>, parent: nat, child: nat, local: seq<Mat4>, mul: (Mat4, Mat4) -> Mat4): (r: seq<Mat4>)
    requires parent < |world| && child < |world| && child < |local|
    ensures |r| == |world|
  {
    world[child := mul(world[parent], local[child])]
  }

  /**
   * The world matrices after the inner loop for the node at position p has
   * handled its children up to position j (exclusive), reading the parent's
   * world matrix anew for every child.
   */
  function Children(nodes: seq<Node>, local: seq<Mat4>, world: seq<Mat4>, mul: (Mat4, Mat4) -> Mat4, p: nat, j: nat): (r: seq<Mat4>)
    requires InBounds(nodes, local, world) && p < |nodes|
    requires ChildBegin(nodes, p) <= j <= ChildEnd(nodes, p)
    ensures |r| == |world|
    decreases j - ChildBegin(nodes, p)
  {
    if j == ChildBegin(nodes, p) then world
    else
      var w := Children(nodes, local, world, mul, p, j - 1);
      SetChild(w, nodes[p].matrixIndex, nodes[j - 1].matrixIndex, local, mul)
  }

  /** The world matrices after the outer loop has handled the nodes before position n. */
  function Recalc(nodes: seq<Node>, local: seq<Mat4>, world: seq<Mat4>, mul: (Mat4, Mat4) -> Mat4, n: nat): (r: seq<Mat4>)
    requires InBounds(nodes, local, world) && n <= |nodes|
    ensures |r| == |world|
  {
    if n == 0 then world
    else
      var w := Recalc(nodes, local, world, mul, n - 1);
      Children(nodes, local, w, mul, n - 1, ChildEnd(nodes, n - 1))
  }

  /** A node's children do not touch a matrix index none of them carries. */
  lemma {:induction false} ChildrenFrame(nodes: seq<Node>, local: seq<Mat4>, world: seq<Mat4>, mul: (Mat4, Mat4) -> Mat4,
                                         p: nat, j: nat, m: nat)
    requires InBounds(nodes, local, world) && p < |nodes|
    requires ChildBegin(nodes, p) <= j <= ChildEnd(nodes, p) && m < |world|
    requires forall k :: ChildBegin(nodes, p) <= k < j ==> nodes[k].matrixIndex != m
    ensures Children(nodes, local, world, mul, p, j)[m] == world[m]
    decreases j - ChildBegin(nodes, p)
  {
    if j > ChildBegin(nodes, p) {
      ChildrenFrame(nodes, local, world, mul, p, j - 1, m);
    }
  }

  /** Whether some node before position n has a child carrying matrix index m. */
  ghost predicate Written(nodes: seq<Node>, n: nat, m: nat)
  {
    exists q: nat, c: nat :: q < n && IsChild(nodes, q, c) && nodes[c].matrixIndex == m
  }

  /** The nodes from position k to n do not touch a matrix index none of their children carries. */
  lemma {:induction false} RecalcFrame(nodes: seq<Node>, local: seq<Mat4>, world: seq<Mat4>, mul: (Mat4, Mat4) -> Mat4,
                                       k: nat, n: nat, m: nat)
    requires InBounds(nodes, local, world) && k <= n <= |nodes| && m < |world|
    requires forall q: nat, c: nat :: k <= q < n && IsChild(nodes, q, c) ==> nodes[c].matrixIndex != m
    ensures Recalc(nodes, local, world, mul, n)[m] == Recalc(nodes, local, world, mul, k)[m]
  {
    if n > k {
      RecalcFrame(nodes, local, world, mul, k, n - 1, m);
      var w := Recalc(nodes, local, world, mul, n - 1);
      forall c | ChildBegin(nodes, n - 1) <= c < ChildEnd(nodes, n - 1) ensures nodes[c].matrixIndex != m {
        assert IsChild(nodes, n - 1, c);
      }
      ChildrenFrame(nodes, local, w, mul, n - 1, ChildEnd(nodes, n - 1), m);
    }
  }

  /**
   * World matrices that no node's child carries the index of come out of
   * the pass unchanged.
   */
  lemma {:induction false} RecalcUntouched(nodes: seq<Node>, local: seq<Mat4>, world: seq<Mat4>, mul: (Mat4, Mat4) -> Mat4, m: nat)
    requires InBounds(nodes, local, world) && m < |world|
    requires !Written(nodes, |nodes|, m)
    ensures Recalc(nodes, local, world, mul, |nodes|)[m] == world[m]
  {
    RecalcFrame(nodes, local, world, mul, 0, |nodes|, m);
  }

  /**
   * A proper hierarchy in the list: children come after their parent, a
   * node has at most one parent, and nodes carry distinct matrix indices.
   */
  ghost predicate Hierarchy(nodes: seq<Node>)
  {
    && (forall p: nat, c: nat :: IsChild(nodes, p, c) ==> p < c)
    && (forall p: nat, q: nat, c: nat :: IsChild(nodes, p, c) && IsChild(nodes, q, c) ==> p == q)
    && (forall a, b :: 0 <= a < b < |nodes| ==> nodes[a].matrixIndex != nodes[b].matrixIndex)
  }

  /**
   * Within one node's inner loop each handled child gets the parent's world
   * matrix as it was before the loop, times its own local matrix.
   */
  lemma {:induction false} ChildrenValue(nodes: seq<Node>, local: seq<Mat4>, world: seq<Mat4>, mul: (Mat4, Mat4) -> Mat4,
                                         p: nat, j: nat, c: nat)
    requires InBounds(nodes, local, world) && Hierarchy(nodes) && p < |nodes|
    requires ChildBegin(nodes, p) <= c < j <= ChildEnd(nodes, p)
    ensures Children(nodes, local, world, mul, p, j)[nodes[c].matrixIndex]
            == mul(world[nodes[p].matrixIndex], local[nodes[c].matrixIndex])
    decreases j - ChildBegin(nodes, p)
  {
    var pm := nodes[p].matrixIndex;
    if c == j - 1 {
      forall k | ChildBegin(nodes, p) <= k < j - 1 ensures nodes[k].matrixIndex != pm {
        assert IsChild(nodes, p, k);
      }
      ChildrenFrame(nodes, local, world, mul, p, j - 1, pm);
    } else {
      assert nodes[j - 1].matrixIndex != nodes[c].matrixIndex;
      ChildrenValue(nodes, local, world, mul, p, j - 1, c);
    }
  }

  /**
   * In a proper hierarchy the pass leaves every child's world matrix equal
   * to its parent's final world matrix times its own local matrix.
   */
  lemma {:induction false} ChildWorldIsParentTimesLocal(nodes: seq<Node>, local: seq<Mat4>, world: seq<Mat4>, mul: (Mat4, Mat4) -> Mat4,
                                     p: nat, c: nat)
    requires InBounds(nodes, local, world) && Hierarchy(nodes) && IsChild(nodes, p, c)
    ensures var w := Recalc(nodes, local, world, mul, |nodes|);
            w[nodes[c].matrixIndex] == mul(w[nodes[p].matrixIndex], local[nodes[c].matrixIndex])
  {
    var n := |nodes|;
    var pm, cm := nodes[p].matrixIndex, nodes[c].matrixIndex;
    var before := Recalc(nodes, local, world, mul, p);
    ChildrenValue(nodes, local, before, mul, p, ChildEnd(nodes, p), c);
    forall q: nat, d: nat | p + 1 <= q < n && IsChild(nodes, q, d) ensures nodes[d].matrixIndex != cm {
      assert d != c;
    }
    RecalcFrame(nodes, local, world, mul, p + 1, n, cm);
    forall q: nat, d: nat | p <= q < n && IsChild(nodes, q, d) ensures nodes[d].matrixIndex != pm {
      assert d != p;
    }
    RecalcFrame(nodes, local, world, mul, p, n, pm);
  }

  /** The scene graph object: nodes, local matrices, and the world matrices it recomputes in place. */
  class SceneGraph {
    var nodes: seq<Node>
    var localMatrix: seq<Mat4>
    var worldMatrix: array<Mat4>

    /**
     * recalcWorldMatrices: for each node in list order, with a counter that
     * advances once per node, overwrites each child's world matrix with the
     * node's world matrix times the child's local matrix. Matrix product is
     * the parameter mul.
     */
    method RecalcWorldMatrices(mul: (Mat4, Mat4) -> Mat4)
      requires InBounds(nodes, localMatrix, worldMatrix[..])
      modifies worldMatrix
      ensures worldMatrix[..] == Recalc(nodes, localMatrix, old(worldMatrix[..]), mul, |nodes|)
    {
      ghost var world0 := worldMatrix[..];
      var i := 0;
      for n := 0 to |nodes|
        invariant i == n
        invariant worldMatrix[..] == Recalc(nodes, localMatrix, world0, mul, n)
      {
        var node := nodes[n];
        var begin := i + node.childOffset;
        var end := begin + node.numChildren;
        i := i + 1;
        ghost var before := worldMatrix[..];
        var c := begin;
        while c < end
          invariant begin <= c <= end
          invariant worldMatrix[..] == Children(nodes, localMatrix, before, mul, n, c)
        {
          var child := nodes[c];
          worldMatrix[child.matrixIndex] := mul(worldMatrix[node.matrixIndex], localMatrix[child.matrixIndex]);
          c := c + 1;
        }
      }
    }
  }
}
