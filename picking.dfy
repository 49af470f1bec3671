/**
 * Qt3D's picking utilities: the gathering of viewport, camera and surface records from
 * the frame graph, the gathering of enabled entities, the worklist walk that collects
 * the entities a ray hits, and the reductions that combine the hit lists of several
 * picking jobs.
 *
 * The geometry is outside this model: ray casting against a bounding volume, the
 * segment-triangle intersection test and the viewport composition are parameters, and
 * a hit's distance is a real number.
 */
module PickingUtils {

  import opened Wrappers

  // ---------------------------------------------------------------------------
  // The frame graph

  /** A node id; id 0 is the null id. */
  type NodeId = nat

  const NullId: NodeId := 0

  /** A normalized rectangle (x, y, width, height). */
  datatype RectF = RectF(x: real, y: real, w: real, h: real)

  /** The whole normalized surface, the viewport every walk up the frame graph starts from. */
  const UnitRect := RectF(0.0, 0.0, 1.0, 1.0)

  /** A size in pixels; a default-constructed size is (-1, -1). */
  datatype Size = Size(w: int, h: int)

  const InvalidSize := Size(-1, -1)

  /** The node types gatherUpViewportCameraAreas looks at, with the data it reads from each. */
  datatype NodeKind =
    | CameraSelector(cameraUuid: NodeId)
    | Viewport(normalizedRect: RectF)
    | Surface(renderTargetSize: Size, surface: nat)   // surface 0 is the null surface
    | OtherNode

  /** What the walk from a node to the root reads from each node. */
  datatype NodeInfo = NodeInfo(kind: NodeKind, enabled: bool)

  datatype FrameGraphNode = FrameGraphNode(info: NodeInfo, children: seq<FrameGraphNode>)

  /**
   * A leaf of the frame graph, with the nodes from it up to the root: path[0] is the leaf
   * itself and each next element is the parent of the previous one.
   */
  datatype Leaf = Leaf(node: FrameGraphNode, path: seq<NodeInfo>)

  /**
   * The leaves under node, in depth-first, left-to-right order; above is the path from
   * node's parent to the root.
   */
  function Leaves(node: FrameGraphNode, above: seq<NodeInfo>): seq<Leaf>
    decreases node, 1
  {
    if node.children == [] then [Leaf(node, [node.info] + above)]
    else LeavesOf(node.children, [node.info] + above)
  }

  /** The leaves under each of the sibling nodes, in order. */
  function LeavesOf(nodes: seq<FrameGraphNode>, above: seq<NodeInfo>): seq<Leaf>
    decreases nodes, 0
  {
    if nodes == [] then [] else LeavesOf(nodes[..|nodes| - 1], above) + Leaves(nodes[|nodes| - 1], above)
  }

  /** All nodes under node, node first, then each child's subtree in order. */
  function Preorder(node: FrameGraphNode): seq<FrameGraphNode>
    decreases node, 1
  {
    [node] + PreorderOf(node.children)
  }

  function PreorderOf(nodes: seq<FrameGraphNode>): seq<FrameGraphNode>
    decreases nodes, 0
  {
    if nodes == [] then [] else PreorderOf(nodes[..|nodes| - 1]) + Preorder(nodes[|nodes| - 1])
  }

  /** The nodes without children, in the order given. */
  function Childless(nodes: seq<FrameGraphNode>): (r: seq<FrameGraphNode>)
    ensures forall i :: 0 <= i < |r| ==> r[i].children == [] && r[i] in nodes
  {
    if nodes == [] then []
    else Childless(nodes[..|nodes| - 1]) + (if nodes[|nodes| - 1].children == [] then [nodes[|nodes| - 1]] else [])
  }

  function LeafNodes(leaves: seq<Leaf>): seq<FrameGraphNode> {
    if leaves == [] then [] else LeafNodes(leaves[..|leaves| - 1]) + [leaves[|leaves| - 1].node]
  }

  lemma {:induction false} ChildlessConcat(a: seq<FrameGraphNode>, b: seq<FrameGraphNode>)
    ensures Childless(a + b) == Childless(a) + Childless(b)
    decreases |b|
  {
    if b == [] {
      assert a + b == a;
    } else {
      assert (a + b)[..|a + b| - 1] == a + b[..|b| - 1];
      ChildlessConcat(a, b[..|b| - 1]);
    }
  }

  lemma {:induction false} LeafNodesConcat(a: seq<Leaf>, b: seq<Leaf>)
    ensures LeafNodes(a + b) == LeafNodes(a) + LeafNodes(b)
    decreases |b|
  {
    if b == [] {
      assert a + b == a;
    } else {
      assert (a + b)[..|a + b| - 1] == a + b[..|b| - 1];
      LeafNodesConcat(a, b[..|b| - 1]);
    }
  }

  /**
   * The leaves visit collects are exactly the nodes without children, in the order a
   * preorder walk meets them.
   */
  lemma {:induction false} LeavesAreChildless(node: FrameGraphNode, above: seq<NodeInfo>)
    ensures LeafNodes(Leaves(node, above)) == Childless(Preorder(node))
    decreases node, 1
  {
    if node.children == [] {
      assert Leaves(node, above) == [] + [Leaf(node, [node.info] + above)];
      assert PreorderOf(node.children) == [];
      assert Preorder(node) == [] + [node];
    } else {
      LeavesOfAreChildless(node.children, [node.info] + above);
      ChildlessConcat([node], PreorderOf(node.children));
      assert Childless([node]) == Childless([]) + [];
    }
  }

  lemma {:induction false} LeavesOfAreChildless(nodes: seq<FrameGraphNode>, above: seq<NodeInfo>)
    ensures LeafNodes(LeavesOf(nodes, above)) == Childless(PreorderOf(nodes))
    decreases nodes, 0
  {
    if nodes != [] {
      var last := nodes[|nodes| - 1];
      LeavesOfAreChildless(nodes[..|nodes| - 1], above);
      LeavesAreChildless(last, above);
      LeafNodesConcat(LeavesOf(nodes[..|nodes| - 1], above), Leaves(last, above));
      ChildlessConcat(PreorderOf(nodes[..|nodes| - 1]), Preorder(last));
    }
  }

  /**
   * Each collected leaf carries its own path to the root: the leaf's own node first and
   * the path above the visited node last.
   */
  lemma {:induction false} LeafPaths(node: FrameGraphNode, above: seq<NodeInfo>)
    ensures forall l :: l in Leaves(node, above) ==>
      && l.node.children == [] && |l.path| > |above|
      && l.path[0] == l.node.info && l.path[|l.path| - |above|..] == above
    decreases node, 1
  {
    if node.children != [] {
      LeafPathsOf(node.children, [node.info] + above);
      forall l | l in Leaves(node, above)
        ensures l.path[|l.path| - |above|..] == above
      {
        assert l.path[|l.path| - |above| - 1..] == [node.info] + above;
        assert l.path[|l.path| - |above|..] == l.path[|l.path| - |above| - 1..][1..];
      }
    }
  }

  lemma {:induction false} LeafPathsOf(nodes: seq<FrameGraphNode>, above: seq<NodeInfo>)
    ensures forall l :: l in LeavesOf(nodes, above) ==>
      && l.node.children == [] && |l.path| > |above|
      && l.path[0] == l.node.info && l.path[|l.path| - |above|..] == above
    decreases nodes, 0
  {
    if nodes != [] {
      LeafPathsOf(nodes[..|nodes| - 1], above);
      LeafPaths(nodes[|nodes| - 1], above);
    }
  }

  // ---------------------------------------------------------------------------
  // Viewport, camera and surface records

  /** What gatherUpViewportCameraAreas finds on the way from a leaf to the root. */
  datatype ViewportCameraAreaDetails = ViewportCameraAreaDetails(cameraId: NodeId, viewport: RectF, area: Size, surface: nat)

  /** The record the walk starts with: no camera, the whole surface, no area and no surface. */
  const StartDetails := ViewportCameraAreaDetails(NullId, UnitRect, InvalidSize, 0)

  /** One step of the walk: an enabled node of a known type overwrites what it provides. */
  function Apply(vca: ViewportCameraAreaDetails, info: NodeInfo, computeViewport: (RectF, RectF) -> RectF): ViewportCameraAreaDetails {
    if !info.enabled then vca
    else
      match info.kind
      case CameraSelector(id) => vca.(cameraId := id)
      case Viewport(rect) => vca.(viewport := computeViewport(vca.viewport, rect))
      case Surface(size, surface) => vca.(area := size, surface := surface)
      case OtherNode => vca
  }

  /** The record after walking the nodes of path from first to last, starting from vca. */
  function WalkUp(vca: ViewportCameraAreaDetails, path: seq<NodeInfo>, computeViewport: (RectF, RectF) -> RectF): ViewportCameraAreaDetails
    decreases |path|
  {
    if path == [] then vca else WalkUp(Apply(vca, path[0], computeViewport), path[1..], computeViewport)
  }

  /** The enabled nodes of path, in order. */
  function Enabled(path: seq<NodeInfo>): (r: seq<NodeInfo>)
    ensures forall i :: 0 <= i < |r| ==> r[i].enabled && r[i] in path
  {
    if path == [] then [] else (if path[0].enabled then [path[0]] else []) + Enabled(path[1..])
  }

  /** The camera of the enabled CameraSelector nearest the root, or the null id when there is none. */
  function RootmostCamera(path: seq<NodeInfo>): NodeId
    decreases |path|
  {
    if path == [] then NullId
    else
      var top := path[|path| - 1];
      if top.enabled && top.kind.CameraSelector? then top.kind.cameraUuid
      else RootmostCamera(path[..|path| - 1])
  }

  /** The enabled Surface node nearest the root, if any. */
  function RootmostSurface(path: seq<NodeInfo>): Option<(Size, nat)>
    decreases |path|
  {
    if path == [] then None
    else
      var top := path[|path| - 1];
      if top.enabled && top.kind.Surface? then Some((top.kind.renderTargetSize, top.kind.surface))
      else RootmostSurface(path[..|path| - 1])
  }

  /** Whether some enabled node on path is a Viewport. */
  predicate HasEnabledViewport(path: seq<NodeInfo>) {
    exists i :: 0 <= i < |path| && path[i].enabled && path[i].kind.Viewport?
  }

  lemma {:induction false} WalkUpSnoc(vca: ViewportCameraAreaDetails, path: seq<NodeInfo>, info: NodeInfo,
                                      computeViewport: (RectF, RectF) -> RectF)
    ensures WalkUp(vca, path + [info], computeViewport) == Apply(WalkUp(vca, path, computeViewport), info, computeViewport)
    decreases |path|
  {
    if path == [] {
      assert ([] + [info])[1..] == [];
    } else {
      assert (path + [info])[1..] == path[1..] + [info];
      WalkUpSnoc(Apply(vca, path[0], computeViewport), path[1..], info, computeViewport);
    }
  }

  /**
   * The walk from a leaf: the camera is that of the enabled CameraSelector nearest the
   * root, the area and surface those of the enabled Surface nearest the root, and without
   * an enabled Viewport the viewport stays the whole surface (0, 0, 1, 1).
   */
  lemma {:induction false} WalkUpFindsRootmost(path: seq<NodeInfo>, computeViewport: (RectF, RectF) -> RectF)
    ensures var vca := WalkUp(StartDetails, path, computeViewport);
      && vca.cameraId == RootmostCamera(path)
      && (RootmostSurface(path).None? ==> vca.area == InvalidSize && vca.surface == 0)
      && (RootmostSurface(path).Some? ==>
            vca.area == RootmostSurface(path).value.0 && vca.surface == RootmostSurface(path).value.1)
      && (!HasEnabledViewport(path) ==> vca.viewport == UnitRect)
    decreases |path|
  {
    if path != [] {
      var init := path[..|path| - 1];
      var top := path[|path| - 1];
      assert path == init + [top];
      WalkUpSnoc(StartDetails, init, top, computeViewport);
      WalkUpFindsRootmost(init, computeViewport);
    }
  }

  /** Disabled nodes are skipped: walking the path and walking only its enabled nodes agree. */
  lemma {:induction false} WalkUpSkipsDisabled(vca: ViewportCameraAreaDetails, path: seq<NodeInfo>,
                                               computeViewport: (RectF, RectF) -> RectF)
    ensures WalkUp(vca, path, computeViewport) == WalkUp(vca, Enabled(path), computeViewport)
    decreases |path|
  {
    if path != [] {
      WalkUpSkipsDisabled(Apply(vca, path[0], computeViewport), path[1..], computeViewport);
      if path[0].enabled {
        assert Enabled(path) == [path[0]] + Enabled(path[1..]);
        assert Enabled(path)[1..] == Enabled(path[1..]);
      } else {
        assert Apply(vca, path[0], computeViewport) == vca;
        assert Enabled(path) == Enabled(path[1..]);
      }
    }
  }

  /** Two records match when they agree on camera, viewport, surface and area. */
  predicate SameDetails(a: ViewportCameraAreaDetails, b: ViewportCameraAreaDetails) {
    a.cameraId == b.cameraId && a.viewport == b.viewport && a.surface == b.surface && a.area == b.area
  }

  /** The records gather keeps: a camera, and the target camera when one is set. */
  predicate Kept(vca: ViewportCameraAreaDetails, targetCamera: NodeId) {
    (targetCamera == NullId || vca.cameraId == targetCamera) && vca.cameraId != NullId
  }

  /** A sequence without repeated elements. */
  predicate Distinct<T(==)>(s: seq<T>) {
    forall i, j :: 0 <= i < j < |s| ==> s[i] != s[j]
  }

  class ViewportCameraAreaGatherer {
    const targetCamera: NodeId
    var leaves: seq<Leaf>

    constructor (targetCamera: NodeId)
      ensures this.targetCamera == targetCamera && leaves == []
    {
      this.targetCamera := targetCamera;
      leaves := [];
    }

    /** visit: appends the leaves under node, depth first and left to right. */
    method Visit(node: FrameGraphNode, above: seq<NodeInfo>)
      modifies this`leaves
      ensures leaves == old(leaves) + Leaves(node, above)
      decreases node, 1
    {
      var i := 0;
      while i < |node.children|
        invariant i <= |node.children|
        invariant leaves == old(leaves) + LeavesOf(node.children[..i], [node.info] + above)
      {
        assert node.children[..i + 1][..i] == node.children[..i];
        Visit(node.children[i], [node.info] + above);
        i := i + 1;
      }
      assert node.children[..i] == node.children;
      if node.children == [] {
        leaves := leaves + [Leaf(node, [node.info] + above)];
      }
    }

    /** gatherUpViewportCameraAreas: walks from the leaf to the root, overwriting what each enabled node provides. */
    static method GatherUpViewportCameraAreas(leaf: Leaf, computeViewport: (RectF, RectF) -> RectF)
      returns (vca: ViewportCameraAreaDetails)
      ensures vca == WalkUp(StartDetails, leaf.path, computeViewport)
    {
      vca := StartDetails;
      var i := 0;
      while i < |leaf.path|
        invariant i <= |leaf.path|
        invariant WalkUp(vca, leaf.path[i..], computeViewport) == WalkUp(StartDetails, leaf.path, computeViewport)
      {
        assert leaf.path[i..][1..] == leaf.path[i + 1..];
        vca := Apply(vca, leaf.path[i], computeViewport);
        i := i + 1;
      }
    }

    /** isUnique: true unless some record of list matches vca on all four fields. */
    static method IsUnique(list: seq<ViewportCameraAreaDetails>, vca: ViewportCameraAreaDetails) returns (r: bool)
      ensures r <==> forall i :: 0 <= i < |list| ==> !SameDetails(list[i], vca)
      ensures r <==> vca !in list
    {
      for i := 0 to |list|
        invariant forall k :: 0 <= k < i ==> !SameDetails(list[k], vca)
      {
        if SameDetails(list[i], vca) {
          return false;
        }
      }
      return true;
    }

    /**
     * gather: collects the leaves under root, then keeps the record of each leaf that has
     * a camera, and the target camera when one is set, once.
     */
    method Gather(root: FrameGraphNode, above: seq<NodeInfo>, computeViewport: (RectF, RectF) -> RectF)
      returns (triplets: seq<ViewportCameraAreaDetails>)
      modifies this`leaves
      ensures leaves == old(leaves) + Leaves(root, above)
      ensures Distinct(triplets)
      ensures forall k :: 0 <= k < |triplets| ==> Kept(triplets[k], targetCamera)
      ensures forall v :: v in triplets <==>
        exists k :: 0 <= k < |leaves| && v == WalkUp(StartDetails, leaves[k].path, computeViewport) && Kept(v, targetCamera)
    {
      Visit(root, above);
      ghost var visited := leaves;
      triplets := [];
      var i := 0;
      while i < |leaves|
        invariant leaves == visited && i <= |leaves|
        invariant Distinct(triplets)
        invariant forall k :: 0 <= k < |triplets| ==> Kept(triplets[k], targetCamera)
        invariant forall v :: v in triplets <==>
          exists k :: 0 <= k < i && v == WalkUp(StartDetails, leaves[k].path, computeViewport) && Kept(v, targetCamera)
      {
        var vca := GatherUpViewportCameraAreas(leaves[i], computeViewport);
        if targetCamera != NullId && vca.cameraId != targetCamera {
          i := i + 1;
          continue;
        }
        if vca.cameraId != NullId {
          var unique := IsUnique(triplets, vca);
          if unique {
            triplets := triplets + [vca];
          }
        }
        i := i + 1;
      }
    }
  }

  // ---------------------------------------------------------------------------
  // Entities

  /** A scene entity: its id, whether it is enabled, whether it has an ObjectPicker, and its children. */
  datatype Entity = Entity(id: NodeId, enabled: bool, hasPicker: bool, children: seq<Entity>)

  /** The enabled entities under e in preorder; a disabled entity hides its whole subtree. */
  function EnabledPreorder(e: Entity): seq<Entity>
    decreases e, 1
  {
    if e.enabled then [e] + EnabledPreorderOf(e.children) else []
  }

  function EnabledPreorderOf(es: seq<Entity>): seq<Entity>
    decreases es, 0
  {
    if es == [] then [] else EnabledPreorderOf(es[..|es| - 1]) + EnabledPreorder(es[|es| - 1])
  }

  /** The enabled entities under a possibly null entity: none under null. */
  function EnabledEntities(entity: Option<Entity>): seq<Entity> {
    match entity
    case None => []
    case Some(e) => EnabledPreorder(e)
  }

  /** The number of levels of the subtree under e. */
  function Height(e: Entity): nat
    decreases e, 1
  {
    1 + HeightOf(e.children)
  }

  function HeightOf(es: seq<Entity>): (h: nat)
    ensures forall i :: 0 <= i < |es| ==> Height(es[i]) <= h
    decreases es, 0
  {
    if es == [] then 0
    else
      var h0 := HeightOf(es[..|es| - 1]);
      var h1 := Height(es[|es| - 1]);
      assert forall i :: 0 <= i < |es| - 1 ==> es[i] == es[..|es| - 1][i];
      if h0 < h1 then h1 else h0
  }

  function EntityHeight(entity: Option<Entity>): nat {
    match entity
    case None => 0
    case Some(e) => Height(e)
  }

  /** Every entity gatherEntities returns is enabled. */
  lemma {:induction false} EnabledPreorderEnabled(e: Entity)
    ensures forall x :: x in EnabledPreorder(e) ==> x.enabled
    decreases e, 1
  {
    if e.enabled {
      EnabledPreorderOfEnabled(e.children);
    }
  }

  lemma {:induction false} EnabledPreorderOfEnabled(es: seq<Entity>)
    ensures forall x :: x in EnabledPreorderOf(es) ==> x.enabled
    decreases es, 0
  {
    if es != [] {
      EnabledPreorderOfEnabled(es[..|es| - 1]);
      EnabledPreorderEnabled(es[|es| - 1]);
    }
  }

  /**
   * gatherEntities: appends to entities the enabled entities under entity in preorder;
   * a null or disabled entity appends nothing, children included.
   */
  method GatherEntities(entity: Option<Entity>, entities: seq<Entity>) returns (r: seq<Entity>)
    ensures r == entities + EnabledEntities(entity)
    decreases EntityHeight(entity)
  {
    r := entities;
    if entity.Some? && entity.value.enabled {
      var e := entity.value;
      r := r + [e];
      var i := 0;
      while i < |e.children|
        invariant i <= |e.children|
        invariant r == entities + [e] + EnabledPreorderOf(e.children[..i])
      {
        assert e.children[..i + 1][..i] == e.children[..i];
        r := GatherEntities(Some(e.children[i]), r);
        ConcatAssoc(entities + [e], EnabledPreorderOf(e.children[..i]), EnabledPreorder(e.children[i]));
        i := i + 1;
      }
      assert e.children[..i] == e.children;
    }
  }

  /**
   * EntityGatherer: the enabled entities under a root, gathered on the first request
   * and cached after it.
   */
  class EntityGatherer {
    const root: Option<Entity>
    var needsRefresh: bool
    var entities: seq<Entity>

    /** Once refreshed, the cache holds the enabled entities under the root. */
    ghost predicate Valid()
      reads this`needsRefresh, this`entities
    {
      !needsRefresh ==> entities == EnabledEntities(root)
    }

    constructor (root: Option<Entity>)
      ensures Valid() && this.root == root && needsRefresh && entities == []
    {
      this.root := root;
      needsRefresh := true;
      entities := [];
    }

    /** entities(): gathers while a refresh is needed, then clears the flag; later calls return the cache. */
    method Entities() returns (r: seq<Entity>)
      requires Valid()
      modifies this`needsRefresh, this`entities
      ensures Valid() && !needsRefresh && r == entities
      ensures r == EnabledEntities(root)
      ensures !old(needsRefresh) ==> entities == old(entities)
    {
      if needsRefresh {
        entities := [];
        entities := GatherEntities(root, entities);
        needsRefresh := false;
      }
      r := entities;
    }
  }

  // ---------------------------------------------------------------------------
  // Hits

  /**
   * A ray hit: the entity hit, the distance along the ray (negative when the query
   * missed), and for a triangle hit its index and the indices of its three vertices.
   */
  datatype Hit = Hit(entityId: NodeId, distance: real, triangleIndex: nat, vertexIndex: seq<nat>)

  /** Distances that never decrease along the list. */
  predicate SortedByDistance(hits: seq<Hit>) {
    forall i, j :: 0 <= i < j < |hits| ==> hits[i].distance <= hits[j].distance
  }

  /** hit placed into a list sorted by distance, before the first farther hit. */
  function Insert(hit: Hit, sorted: seq<Hit>): (r: seq<Hit>)
    requires SortedByDistance(sorted)
    ensures SortedByDistance(r) && multiset(r) == multiset(sorted) + multiset{hit}
    ensures r != [] && (r[0] == hit || (sorted != [] && r[0] == sorted[0]))
  {
    if sorted == [] then [hit]
    else if hit.distance <= sorted[0].distance then
      SortedCons(hit, sorted);
      [hit] + sorted
    else
      var rest := Insert(hit, sorted[1..]);
      assert sorted == [sorted[0]] + sorted[1..];
      SortedCons(sorted[0], rest);
      [sorted[0]] + rest
  }

  /** A hit no farther than the head of a sorted list can go in front of it. */
  lemma SortedCons(hit: Hit, sorted: seq<Hit>)
    requires SortedByDistance(sorted) && (sorted != [] ==> hit.distance <= sorted[0].distance)
    ensures SortedByDistance([hit] + sorted)
  {
    var r := [hit] + sorted;
    forall i, j | 0 <= i < j < |r| ensures r[i].distance <= r[j].distance {
      if i == 0 {
        assert r[j] == sorted[j - 1];
      } else {
        assert r[i] == sorted[i - 1] && r[j] == sorted[j - 1];
      }
    }
  }

  /** sortHits: the hits ordered by distance, nearest first; the same hits, only reordered. */
  function SortHits(results: seq<Hit>): (r: seq<Hit>)
    ensures SortedByDistance(r) && multiset(r) == multiset(results)
  {
    if results == [] then []
    else
      assert results == [results[0]] + results[1..];
      Insert(results[0], SortHits(results[1..]))
  }

  /** EntityCollisionGathererFunctor::pick: the bounding-volume hit, kept exactly when its distance is not negative. */
  function EntityPick(queryResult: Hit): (r: seq<Hit>)
    ensures |r| <= 1 && (r != [] ==> r[0] == queryResult)
    ensures r != [] <==> queryResult.distance >= 0.0
  {
    if queryResult.distance >= 0.0 then [queryResult] else []
  }

  /**
   * TriangleCollisionGathererFunctor::pick: nothing without a geometry renderer or when
   * the ray misses the bounding volume; otherwise the triangle hits, sorted by distance.
   */
  function TrianglePick(hasGeometryRenderer: bool, boundingHit: Hit, triangleHits: seq<Hit>): (r: seq<Hit>)
    ensures SortedByDistance(r)
    ensures r != [] ==> hasGeometryRenderer && boundingHit.distance >= 0.0
    ensures hasGeometryRenderer && boundingHit.distance >= 0.0 ==> multiset(r) == multiset(triangleHits)
  {
    if !hasGeometryRenderer then []
    else if boundingHit.distance >= 0.0 then SortHits(triangleHits)
    else []
  }

  /**
   * The ObjectPicker a collision gatherer uses: the entity's own, else the nearest
   * ancestor's. pickers lists, from the entity up to the root, None for an entity
   * without an ObjectPicker and Some(enabled) for one with it.
   */
  method FindObjectPicker(pickers: seq<Option<bool>>) returns (picker: Option<bool>)
    ensures picker.None? <==> forall i :: 0 <= i < |pickers| ==> pickers[i].None?
    ensures picker.Some? ==> exists i :: 0 <= i < |pickers| && pickers[i] == picker && forall j :: 0 <= j < i ==> pickers[j].None?
  {
    picker := None;
    var i := 0;
    while picker.None? && i < |pickers|
      invariant i <= |pickers|
      invariant picker.None? ==> forall j :: 0 <= j < i ==> pickers[j].None?
      invariant picker.Some? ==> 0 < i && pickers[i - 1] == picker && forall j :: 0 <= j < i - 1 ==> pickers[j].None?
    {
      picker := pickers[i];
      i := i + 1;
    }
  }

  /**
   * A collision gatherer's call on an entity: nothing when neither the entity nor an
   * ancestor has an ObjectPicker, or when the nearest one is disabled; otherwise what
   * its pick returns for the entity.
   */
  method GatherCollisions(pickers: seq<Option<bool>>, picked: seq<Hit>) returns (r: seq<Hit>)
    ensures r != [] ==> r == picked
    ensures r == picked <==> (picked == [] ||
      exists i :: 0 <= i < |pickers| && pickers[i] == Some(true) && forall j :: 0 <= j < i ==> pickers[j].None?)
  {
    var picker := FindObjectPicker(pickers);
    if picker.None? || !picker.value {
      r := [];
      if picker.Some? {
        forall i | 0 <= i < |pickers| && pickers[i] == Some(true)
          ensures exists j :: 0 <= j < i && pickers[j].Some?
        {
          var k :| 0 <= k < |pickers| && pickers[k] == picker && forall j :: 0 <= j < k ==> pickers[j].None?;
          assert k < i;
        }
      }
      return;
    }
    r := picked;
  }

  // ---------------------------------------------------------------------------
  // Combining the hits of several picking jobs

  /**
   * The first hit with the smallest distance: a later hit replaces the current one only
   * when strictly closer, so ties keep the earlier hit.
   */
  function FirstMinIndex(cands: seq<Hit>): (k: nat)
    requires cands != []
    ensures k < |cands|
    ensures forall i :: 0 <= i < |cands| ==> cands[k].distance <= cands[i].distance
    ensures forall j :: 0 <= j < k ==> cands[j].distance > cands[k].distance
  {
    if |cands| == 1 then 0
    else
      var init := cands[..|cands| - 1];
      var k0 := FirstMinIndex(init);
      assert forall i :: 0 <= i < |init| ==> init[i] == cands[i];
      if cands[|cands| - 1].distance < cands[k0].distance then |cands| - 1 else k0
  }

  function FirstMin(cands: seq<Hit>): Hit
    requires cands != []
  {
    cands[FirstMinIndex(cands)]
  }

  /**
   * What reduceToFirstHit leaves: result unchanged when the job found nothing, otherwise
   * only the first closest among result's front (or the job's first hit when result is
   * empty) and the job's hits.
   */
  function FirstHitOf(result: seq<Hit>, intermediate: seq<Hit>): seq<Hit> {
    if intermediate == [] then result
    else [FirstMin([if result == [] then intermediate[0] else result[0]] + intermediate)]
  }

  /** reduceToFirstHit: folds a job's hits into the running result, keeping only the closest hit. */
  method ReduceToFirstHit(result: seq<Hit>, intermediate: seq<Hit>) returns (r: seq<Hit>)
    ensures r == FirstHitOf(result, intermediate)
  {
    r := result;
    if intermediate != [] {
      if r == [] {
        r := r + [intermediate[0]];
      }
      ghost var front := r[0];
      var closest := r[0].distance;
      for i := 0 to |intermediate|
        invariant r != [] && closest == r[0].distance
        invariant r[0] == FirstMin([front] + intermediate[..i])
      {
        assert ([front] + intermediate[..i + 1])[..i + 1] == [front] + intermediate[..i];
        if intermediate[i].distance < closest {
          r := [intermediate[i]] + r;
          closest := intermediate[i].distance;
        }
      }
      assert intermediate[..|intermediate|] == intermediate;
      ghost var m := r[0];
      while |r| > 1
        invariant r != [] && r[0] == m
      {
        r := r[..|r| - 1];
      }
      assert r == [m];
    }
  }

  /** reduceToAllHits: appends a job's hits, in order, to the running result. */
  method ReduceToAllHits(results: seq<Hit>, intermediate: seq<Hit>) returns (r: seq<Hit>)
    ensures r == results + intermediate
  {
    r := results;
    if intermediate != [] {
      r := r + intermediate;
    }
  }

  /** All the jobs' hits, job after job. */
  function Concat(jobs: seq<seq<Hit>>): seq<Hit> {
    if jobs == [] then [] else jobs[0] + Concat(jobs[1..])
  }

  /** The result after reducing the jobs one after another with reduceToFirstHit. */
  function FoldFirstHit(result: seq<Hit>, jobs: seq<seq<Hit>>): seq<Hit>
    decreases |jobs|
  {
    if jobs == [] then result else FoldFirstHit(FirstHitOf(result, jobs[0]), jobs[1..])
  }

  /** The closest of the hits of a then b is the closest of a's closest then b's hits. */
  lemma {:induction false} FirstMinAppend(a: seq<Hit>, b: seq<Hit>)
    requires a != []
    ensures FirstMin(a + b) == FirstMin([FirstMin(a)] + b)
    decreases |b|
  {
    if b == [] {
      assert a + b == a;
      assert [FirstMin(a)] + b == [FirstMin(a)];
    } else {
      var b0 := b[..|b| - 1];
      assert (a + b)[..|a + b| - 1] == a + b0;
      assert ([FirstMin(a)] + b)[..|b|] == [FirstMin(a)] + b0;
      FirstMinAppend(a, b0);
    }
  }

  /** Repeating the first hit in front changes nothing: the copy and the original tie. */
  lemma FirstMinRepeatFront(job: seq<Hit>)
    requires job != []
    ensures FirstMin([job[0]] + job) == FirstMin(job)
  {
    assert [job[0]] + job == [job[0], job[0]] + job[1..];
    FirstMinAppend([job[0], job[0]], job[1..]);
    FirstMinAppend([job[0]], job[1..]);
    assert job == [job[0]] + job[1..];
  }

  /** One reduction step: the running first hit of prefix, reduced with a job that hit something. */
  lemma FirstHitOfStep(prefix: seq<Hit>, job: seq<Hit>)
    requires job != []
    ensures FirstHitOf(if prefix == [] then [] else [FirstMin(prefix)], job) == [FirstMin(prefix + job)]
  {
    if prefix == [] {
      FirstMinRepeatFront(job);
      assert prefix + job == job;
    } else {
      FirstMinAppend(prefix, job);
    }
  }

  /**
   * Reducing every job with reduceToFirstHit from an empty result gives the first closest
   * hit among all the jobs' hits taken in order, or nothing when no job hit anything.
   */
  lemma FoldFirstHitIsFirstMin(jobs: seq<seq<Hit>>)
    ensures FoldFirstHit([], jobs) == if Concat(jobs) == [] then [] else [FirstMin(Concat(jobs))]
  {
    FoldFirstHitFrom([], jobs);
    assert [] + Concat(jobs) == Concat(jobs);
  }

  lemma {:induction false} FoldFirstHitFrom(prefix: seq<Hit>, jobs: seq<seq<Hit>>)
    ensures FoldFirstHit(if prefix == [] then [] else [FirstMin(prefix)], jobs)
         == if prefix + Concat(jobs) == [] then [] else [FirstMin(prefix + Concat(jobs))]
    decreases |jobs|
  {
    if jobs == [] {
      assert prefix + Concat(jobs) == prefix;
    } else {
      var job := jobs[0];
      var acc := if prefix == [] then [] else [FirstMin(prefix)];
      assert FoldFirstHit(acc, jobs) == FoldFirstHit(FirstHitOf(acc, job), jobs[1..]);
      assert prefix + Concat(jobs) == (prefix + job) + Concat(jobs[1..]);
      FoldFirstHitFrom(prefix + job, jobs[1..]);
      if job != [] {
        FirstHitOfStep(prefix, job);
      } else {
        assert prefix + job == prefix;
      }
    }
  }

  // ---------------------------------------------------------------------------
  // Triangle hits

  /**
   * CollisionVisitor: tests each triangle of an entity's geometry against the ray and
   * records a hit per intersected triangle. intersect(a, b, c) is the distance at which
   * the ray crosses the triangle with vertices a, b, c in that winding, if it does.
   */
  class CollisionVisitor {
    const rootId: NodeId
    const frontFaceRequested: bool
    const backFaceRequested: bool
    var hits: seq<Hit>
    var triangleIndex: nat

    /** Hits are of the root entity, at most one per triangle, in triangle order, all of triangles already visited. */
    ghost predicate Valid()
      reads this`hits, this`triangleIndex
    {
      && (forall k :: 0 <= k < |hits| ==> hits[k].entityId == rootId && hits[k].triangleIndex < triangleIndex)
      && (forall j, k :: 0 <= j < k < |hits| ==> hits[j].triangleIndex < hits[k].triangleIndex)
    }

    constructor (rootId: NodeId, frontFaceRequested: bool, backFaceRequested: bool)
      ensures Valid() && hits == [] && triangleIndex == 0
      ensures this.rootId == rootId && this.frontFaceRequested == frontFaceRequested
      ensures this.backFaceRequested == backFaceRequested
    {
      this.rootId := rootId;
      this.frontFaceRequested := frontFaceRequested;
      this.backFaceRequested := backFaceRequested;
      hits := [];
      triangleIndex := 0;
    }

    /** intersectsSegmentTriangle: records a hit of the current triangle when the ray crosses it in the given winding. */
    method IntersectsSegmentTriangle(andx: nat, bndx: nat, cndx: nat, intersect: (nat, nat, nat) -> Option<real>)
      returns (intersected: bool)
      modifies this`hits
      ensures intersected == intersect(andx, bndx, cndx).Some?
      ensures hits == old(hits) +
        (if intersected then [Hit(rootId, intersect(andx, bndx, cndx).value, triangleIndex, [andx, bndx, cndx])] else [])
    {
      var t := intersect(andx, bndx, cndx);
      intersected := t.Some?;
      if intersected {
        hits := hits + [Hit(rootId, t.value, triangleIndex, [andx, bndx, cndx])];
      }
    }

    /**
     * visit: when front faces are requested, tests the triangle wound c, b, a; when that
     * is not a hit and back faces are requested, tests it wound a, b, c; then moves on to
     * the next triangle.
     */
    method Visit(andx: nat, bndx: nat, cndx: nat, intersect: (nat, nat, nat) -> Option<real>)
      requires Valid()
      modifies this`hits, this`triangleIndex
      ensures Valid() && triangleIndex == old(triangleIndex) + 1
      ensures var front := frontFaceRequested && intersect(cndx, bndx, andx).Some?;
              var back := !front && backFaceRequested && intersect(andx, bndx, cndx).Some?;
              hits == old(hits)
                + (if front then [Hit(rootId, intersect(cndx, bndx, andx).value, old(triangleIndex), [cndx, bndx, andx])] else [])
                + (if back then [Hit(rootId, intersect(andx, bndx, cndx).value, old(triangleIndex), [andx, bndx, cndx])] else [])
    {
      var intersected := false;
      if frontFaceRequested {
        intersected := IntersectsSegmentTriangle(cndx, bndx, andx, intersect);
      }
      if !intersected && backFaceRequested {
        intersected := IntersectsSegmentTriangle(andx, bndx, cndx, intersect);
      }
      triangleIndex := triangleIndex + 1;
    }
  }

  // ---------------------------------------------------------------------------
  // Hierarchical picking

  /** Which bounding volume of an entity a ray query tests: its own, or the one enclosing its subtree. */
  datatype Volume = Own | WithChildren

  /** An entity collectHits recorded, with the hit of its own volume. */
  datatype Record = Record(entity: Entity, hit: Hit)

  /**
   * What collectHits records under e, in the order it records it: nothing when the ray
   * misses e's subtree volume; otherwise e itself when its own volume is hit and picking
   * applies (picked: e or an ancestor has an ObjectPicker), then its children's subtrees,
   * the last child first.
   */
  function Collected(e: Entity, picked: bool, query: (Entity, Volume) -> Hit): seq<Record>
    decreases e, 1
  {
    if query(e, WithChildren).distance < 0.0 then []
    else OwnRecord(e, picked, query) + CollectedOf(e.children, picked, query)
  }

  /** The record of e itself: its own volume is hit and picking applies. */
  function OwnRecord(e: Entity, picked: bool, query: (Entity, Volume) -> Hit): seq<Record> {
    var own := query(e, Own);
    if own.distance >= 0.0 && picked then [Record(e, own)] else []
  }

  /** The children's records, last child first, each child picked when its parent is or it has an ObjectPicker. */
  function CollectedOf(es: seq<Entity>, picked: bool, query: (Entity, Volume) -> Hit): seq<Record>
    decreases es, 0
  {
    if es == [] then []
    else
      var last := es[|es| - 1];
      Collected(last, picked || last.hasPicker, query) + CollectedOf(es[..|es| - 1], picked, query)
  }

  /** Whether e or an entity under it has an ObjectPicker. */
  predicate AnyPicker(e: Entity)
    decreases e, 1
  {
    e.hasPicker || AnyPickerOf(e.children)
  }

  predicate AnyPickerOf(es: seq<Entity>)
    decreases es, 0
  {
    es != [] && (AnyPickerOf(es[..|es| - 1]) || AnyPicker(es[|es| - 1]))
  }

  /** e and every entity under it, e first. */
  function Subtree(e: Entity): seq<Entity>
    decreases e, 1
  {
    [e] + SubtreeOf(e.children)
  }

  function SubtreeOf(es: seq<Entity>): seq<Entity>
    decreases es, 0
  {
    if es == [] then [] else SubtreeOf(es[..|es| - 1]) + Subtree(es[|es| - 1])
  }

  /** x lies under an entity of the forest that has an ObjectPicker (itself included). */
  predicate PickerOver(forest: seq<Entity>, x: Entity) {
    exists d :: d in forest && d.hasPicker && x in Subtree(d)
  }

  /**
   * Every record is of an entity of e's subtree whose subtree volume and own volume the
   * ray hits, with the hit of its own volume, and that entity is picked: picked held above
   * e, or the entity itself or one of its ancestors within e's subtree has an ObjectPicker.
   * So nothing is recorded under an entity when neither it, an ancestor, nor anything
   * under it has an ObjectPicker.
   */
  lemma {:induction false} CollectedHits(e: Entity, picked: bool, query: (Entity, Volume) -> Hit)
    ensures forall r :: r in Collected(e, picked, query) ==>
      && query(r.entity, WithChildren).distance >= 0.0
      && r.hit == query(r.entity, Own) && r.hit.distance >= 0.0
      && r.entity in Subtree(e)
      && (picked || PickerOver(Subtree(e), r.entity))
    ensures !picked && !AnyPicker(e) ==> Collected(e, picked, query) == []
    decreases e, 1
  {
    CollectedOfHits(e.children, picked, query);
    if query(e, WithChildren).distance >= 0.0 {
      var kids := CollectedOf(e.children, picked, query);
      forall r | r in kids
        ensures r.entity in Subtree(e) && (picked || PickerOver(Subtree(e), r.entity))
      {
        if !picked {
          var d :| d in SubtreeOf(e.children) && d.hasPicker && r.entity in Subtree(d);
          assert d in Subtree(e);
        }
      }
    }
  }

  lemma {:induction false} CollectedOfHits(es: seq<Entity>, picked: bool, query: (Entity, Volume) -> Hit)
    ensures forall r :: r in CollectedOf(es, picked, query) ==>
      && query(r.entity, WithChildren).distance >= 0.0
      && r.hit == query(r.entity, Own) && r.hit.distance >= 0.0
      && r.entity in SubtreeOf(es)
      && (picked || PickerOver(SubtreeOf(es), r.entity))
    ensures !picked && !AnyPickerOf(es) ==> CollectedOf(es, picked, query) == []
    decreases es, 0
  {
    if es != [] {
      var last := es[|es| - 1];
      var front := es[..|es| - 1];
      CollectedHits(last, picked || last.hasPicker, query);
      CollectedOfHits(front, picked, query);
      forall r | r in Collected(last, picked || last.hasPicker, query)
        ensures r.entity in SubtreeOf(es) && (picked || PickerOver(SubtreeOf(es), r.entity))
      {
        if !picked {
          if last.hasPicker {
            assert last in Subtree(last);
            assert last in SubtreeOf(es);
          } else {
            var d :| d in Subtree(last) && d.hasPicker && r.entity in Subtree(d);
            assert d in SubtreeOf(es);
          }
        }
      }
      forall r | r in CollectedOf(front, picked, query)
        ensures r.entity in SubtreeOf(es) && (picked || PickerOver(SubtreeOf(es), r.entity))
      {
        if !picked {
          var d :| d in SubtreeOf(front) && d.hasPicker && r.entity in Subtree(d);
          assert d in SubtreeOf(es);
        }
      }
      if !picked && !AnyPickerOf(es) {
        assert !AnyPicker(last) && !AnyPickerOf(front);
        assert !last.hasPicker;
      }
    }
  }

  /** A worklist entry: an entity and whether it or an ancestor has an ObjectPicker. */
  datatype WorkItem = WorkItem(entity: Entity, picked: bool)

  /** What the walk records from a worklist: the top entry's subtree first, then the rest. */
  function Pending(worklist: seq<WorkItem>, query: (Entity, Volume) -> Hit): seq<Record>
    decreases |worklist|
  {
    if worklist == [] then []
    else
      var top := worklist[|worklist| - 1];
      Collected(top.entity, top.picked, query) + Pending(worklist[..|worklist| - 1], query)
  }

  /** The entries pushed for the children of an entity, in child order. */
  function ChildItems(es: seq<Entity>, picked: bool): (items: seq<WorkItem>)
    ensures |items| == |es|
    ensures forall i :: 0 <= i < |es| ==> items[i] == WorkItem(es[i], picked || es[i].hasPicker)
  {
    if es == [] then [] else ChildItems(es[..|es| - 1], picked) + [WorkItem(es[|es| - 1], picked || es[|es| - 1].hasPicker)]
  }

  /** The number of entities under e, e included. */
  function SubtreeSize(e: Entity): nat
    decreases e, 1
  {
    1 + SubtreeSizeOf(e.children)
  }

  function SubtreeSizeOf(es: seq<Entity>): nat
    decreases es, 0
  {
    if es == [] then 0 else SubtreeSizeOf(es[..|es| - 1]) + SubtreeSize(es[|es| - 1])
  }

  /** The number of entities the worklist still has to visit. */
  function WorkSize(worklist: seq<WorkItem>): nat
    decreases |worklist|
  {
    if worklist == [] then 0 else WorkSize(worklist[..|worklist| - 1]) + SubtreeSize(worklist[|worklist| - 1].entity)
  }

  /** Pushing the children of an entity puts their records, last child first, ahead of the rest. */
  lemma {:induction false} PushChildren(worklist: seq<WorkItem>, es: seq<Entity>, picked: bool, query: (Entity, Volume) -> Hit)
    ensures Pending(worklist + ChildItems(es, picked), query) == CollectedOf(es, picked, query) + Pending(worklist, query)
    ensures WorkSize(worklist + ChildItems(es, picked)) == WorkSize(worklist) + SubtreeSizeOf(es)
    decreases |es|
  {
    if es == [] {
      assert worklist + ChildItems(es, picked) == worklist;
    } else {
      var init := es[..|es| - 1];
      var last := es[|es| - 1];
      var ws := worklist + ChildItems(es, picked);
      assert ws == (worklist + ChildItems(init, picked)) + [WorkItem(last, picked || last.hasPicker)];
      assert ws[..|ws| - 1] == worklist + ChildItems(init, picked);
      PushChildren(worklist, init, picked, query);
      ConcatAssoc(Collected(last, picked || last.hasPicker, query), CollectedOf(init, picked, query), Pending(worklist, query));
    }
  }

  /** The entity and hit lists, element by element, are the records. */
  predicate Recorded(records: seq<Record>, entities: seq<Entity>, hits: seq<Hit>) {
    && |hits| == |entities| == |records|
    && forall k :: 0 <= k < |records| ==> records[k] == Record(entities[k], hits[k])
  }

  lemma RecordedSnoc(records: seq<Record>, entities: seq<Entity>, hits: seq<Hit>, e: Entity, hit: Hit)
    requires Recorded(records, entities, hits)
    ensures Recorded(records + [Record(e, hit)], entities + [e], hits + [hit])
  {
  }

  /**
   * One turn of collectHits' loop keeps "recorded so far, then what the worklist will
   * record" equal to the whole walk's records, and shrinks what is left to visit.
   */
  lemma CollectStep(records: seq<Record>, worklist: seq<WorkItem>, current: WorkItem,
                    query: (Entity, Volume) -> Hit, total: seq<Record>)
    requires records + Pending(worklist + [current], query) == total
    ensures query(current.entity, WithChildren).distance < 0.0 ==> records + Pending(worklist, query) == total
    ensures query(current.entity, WithChildren).distance >= 0.0 ==>
      (records + OwnRecord(current.entity, current.picked, query))
      + Pending(worklist + ChildItems(current.entity.children, current.picked), query) == total
  {
    var ws := worklist + [current];
    assert ws[..|ws| - 1] == worklist && ws[|ws| - 1] == current;
    assert Pending(ws, query) == Collected(current.entity, current.picked, query) + Pending(worklist, query);
    if query(current.entity, WithChildren).distance < 0.0 {
      assert Collected(current.entity, current.picked, query) == [];
    } else {
      var own := OwnRecord(current.entity, current.picked, query);
      var kids := CollectedOf(current.entity.children, current.picked, query);
      PushChildren(worklist, current.entity.children, current.picked, query);
      ConcatAssoc(records, own, kids + Pending(worklist, query));
      ConcatAssoc(own, kids, Pending(worklist, query));
    }
  }

  /** Replacing the top entry by its children's entries leaves fewer entities to visit. */
  lemma WorkShrinks(worklist: seq<WorkItem>, current: WorkItem, query: (Entity, Volume) -> Hit)
    ensures WorkSize(worklist + ChildItems(current.entity.children, current.picked)) < WorkSize(worklist + [current])
    ensures WorkSize(worklist) < WorkSize(worklist + [current])
  {
    var ws := worklist + [current];
    assert ws[..|ws| - 1] == worklist && ws[|ws| - 1] == current;
    PushChildren(worklist, current.entity.children, current.picked, query);
  }

  /** The worklist with the entries for es pushed after it, in child order. */
  method PushChildItems(worklist: seq<WorkItem>, es: seq<Entity>, picked: bool) returns (ws: seq<WorkItem>)
    ensures ws == worklist + ChildItems(es, picked)
  {
    ws := worklist;
    var i := 0;
    while i < |es|
      invariant i <= |es|
      invariant ws == worklist + ChildItems(es[..i], picked)
    {
      assert es[..i + 1][..i] == es[..i];
      ws := ws + [WorkItem(es[i], picked || es[i].hasPicker)];
      i := i + 1;
    }
    assert es[..i] == es;
  }

  /**
   * HierarchicalEntityPicker: walks the scene from a root with a worklist and records
   * the entities whose own bounding volume the ray hits, with their hits.
   */
  class HierarchicalEntityPicker {
    var hits: seq<Hit>
    var entities: seq<Entity>

    constructor ()
      ensures hits == [] && entities == []
    {
      hits := [];
      entities := [];
    }

    /**
     * collectHits: clears both lists, then pops the worklist until it is empty. An entity
     * whose subtree volume the ray misses is dropped with its whole subtree; otherwise it is
     * recorded when its own volume is hit and it or an ancestor has an ObjectPicker, and
     * its children are pushed. query(e, v) is the ray cast against e's volume v.
     */
    method CollectHits(root: Entity, query: (Entity, Volume) -> Hit) returns (found: bool)
      modifies this`hits, this`entities
      ensures |hits| == |entities| == |Collected(root, root.hasPicker, query)|
      ensures forall k :: 0 <= k < |hits| ==>
        Collected(root, root.hasPicker, query)[k] == Record(entities[k], hits[k])
      ensures found <==> hits != []
    {
      hits := [];
      entities := [];
      ghost var records: seq<Record> := [];
      ghost var total := Collected(root, root.hasPicker, query);
      var worklist := [WorkItem(root, root.hasPicker)];
      assert worklist[..0] == [];
      assert Pending(worklist, query) == total + [];
      while worklist != []
        invariant Recorded(records, entities, hits)
        invariant records + Pending(worklist, query) == total
        decreases WorkSize(worklist)
      {
        ghost var before := worklist;
        var current := worklist[|worklist| - 1];
        worklist := worklist[..|worklist| - 1];
        assert before == worklist + [current];
        CollectStep(records, worklist, current, query, total);
        WorkShrinks(worklist, current, query);
        var queryResult := query(current.entity, WithChildren);
        if queryResult.distance < 0.0 {
          continue;
        }
        queryResult := query(current.entity, Own);
        if queryResult.distance >= 0.0 && current.picked {
          RecordedSnoc(records, entities, hits, current.entity, queryResult);
          entities := entities + [current.entity];
          hits := hits + [queryResult];
        }
        records := records + OwnRecord(current.entity, current.picked, query);
        worklist := PushChildItems(worklist, current.entity.children, current.picked);
      }
      found := hits != [];
    }
  }
}
