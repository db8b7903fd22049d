/**
 * The `Spatial` objects of a program, performing the operations of `Spatial` in place.
 *
 * `Scene` holds the members of every `Spatial` object as maps from the object's address
 * (`NodeId`) to that member; a method taking `id` is the member function called on the object
 * at `id`. Each method is specified by the arena function of module `SpatialArena` it
 * performs, and the lemmas of that module carry what the operation preserves.
 *
 * Recursion up the parent chain (`UpdateMatrices` and `GetMatrix`) goes on only through dirty
 * nodes, because a clean node returns before looking at its parent, so it diverges only on a
 * cycle of dirty nodes: those methods take a ghost bound `k` on the number of steps and
 * require the climb through dirty nodes to reach a clean node or a root within it (`Climbs`).
 */
module Spatial {
  import opened Wrappers
  import opened Scalar
  import opened Vector
  import opened Quaternion
  import opened Matrix
  import opened SpatialArena

  class Scene {
    /** `mPosition`, `mRotation` and `mScale` of every node. */
    var pose: map<NodeId, Pose>
    /** `mParent` of every node. */
    var parent: map<NodeId, Option<NodeId>>
    /** `mChildren` of every node. */
    var children: map<NodeId, seq<NodeId>>
    /** `mWorldMatrix` and `mLocalMatrix` of every node. */
    var cache: map<NodeId, Cache>
    /** The nodes whose `mIsDirty` is set. */
    var dirty: set<NodeId>
    /** The address the next constructed node receives; every existing node's is lower. */
    var nextId: NodeId

    function State(): Arena
      reads this
    {
      Arena(pose, parent, children, cache, dirty)
    }

    /** Every member is recorded for every node, and every pointer refers to a node. */
    ghost predicate Linked()
      reads this
    {
      State().Shaped() && Closed(State()) && forall n :: n in parent ==> n < nextId
    }

    /** No `Spatial` object exists yet. */
    constructor ()
      ensures Linked() && Valid(State()) && State() == Arena(map[], map[], map[], map[], {})
    {
      pose, parent, children, cache, dirty := map[], map[], map[], map[], {};
      nextId := 0;
    }

    /** `Spatial()`: a node at the origin with identity rotation and unit scale. */
    method NewNode() returns (id: NodeId)
      requires Linked()
      modifies this
      ensures Linked() && id !in old(State()).Nodes()
      ensures State() == Added(old(State()), id, Vec3.Zero, Quat.Identity, Vec3.One)
      ensures old(Valid(State())) ==> Valid(State())
    {
      id := Allocate(Vec3.Zero, Quat.Identity, Vec3.One);
    }

    /**
     * `Spatial(position, rotation, scale)`, with the defaults of the explicit constructor:
     * a node with that transform whose matrices are then computed, so it ends clean with
     * both cached matrices the transform's matrix.
     */
    method NewNodeAt(position: Vec3, rotation: Quat := Quat.Identity, scale: Vec3 := Vec3.One) returns (id: NodeId)
      requires Linked()
      modifies this
      ensures Linked() && id !in old(State()).Nodes() && nextId == old(nextId) + 1
      ensures State() == Resolve(Added(old(State()), id, position, rotation, scale), id, 0)
      ensures id in State().Nodes() && id !in dirty && parent[id].None? && children[id] == []
      ensures cache[id].world == cache[id].local == Matrix4x4.FromPRS(position, rotation, scale)
      ensures old(Valid(State())) ==> Valid(State())
    {
      id := Allocate(position, rotation, scale);
      UpdateMatrices(id, 0);
    }

    /** The member initialisers of both constructors, at a fresh address. */
    method Allocate(position: Vec3, rotation: Quat, scale: Vec3) returns (id: NodeId)
      requires Linked()
      modifies this
      ensures Linked() && id !in old(State()).Nodes() && nextId == old(nextId) + 1
      ensures State() == Added(old(State()), id, position, rotation, scale)
      ensures old(Valid(State())) ==> Valid(State()) && RootedWithin(State(), id, 0)
    {
      id := nextId;
      nextId := nextId + 1;
      AddedKeepsClosed(State(), id, position, rotation, scale);
      if Valid(State()) {
        AddedKeepsValid(State(), id, position, rotation, scale);
      }
      pose := pose[id := Pose(position, rotation, scale)];
      parent := parent[id := None];
      children := children[id := []];
      cache := cache[id := Cache(Matrix4x4.Identity, Matrix4x4.Identity)];
      dirty := dirty + {id};
    }

    // ----- Setters and modifiers -----

    /** `SetPosition`: only the position changes, then `MarkDirty`. */
    method SetPosition(id: NodeId, position: Vec3)
      requires Linked() && id in parent
      modifies this
      ensures Linked() && nextId == old(nextId) && id in dirty
      ensures State() == MarkAll(Retransformed(old(State()), id, position, old(pose[id].rotation), old(pose[id].scale)), [id])
      ensures old(Valid(State())) ==> Valid(State())
    {
      EditLemma(id, position, pose[id].rotation, pose[id].scale);
      pose := pose[id := pose[id].(position := position)];
      MarkDirty(id);
    }

    /** `SetRotation`: only the rotation changes, then `MarkDirty`. */
    method SetRotation(id: NodeId, rotation: Quat)
      requires Linked() && id in parent
      modifies this
      ensures Linked() && nextId == old(nextId) && id in dirty
      ensures State() == MarkAll(Retransformed(old(State()), id, old(pose[id].position), rotation, old(pose[id].scale)), [id])
      ensures old(Valid(State())) ==> Valid(State())
    {
      EditLemma(id, pose[id].position, rotation, pose[id].scale);
      pose := pose[id := pose[id].(rotation := rotation)];
      MarkDirty(id);
    }

    /** `SetScale`: only the scale changes, then `MarkDirty`. */
    method SetScale(id: NodeId, scale: Vec3)
      requires Linked() && id in parent
      modifies this
      ensures Linked() && nextId == old(nextId) && id in dirty
      ensures State() == MarkAll(Retransformed(old(State()), id, old(pose[id].position), old(pose[id].rotation), scale), [id])
      ensures old(Valid(State())) ==> Valid(State())
    {
      EditLemma(id, pose[id].position, pose[id].rotation, scale);
      pose := pose[id := pose[id].(scale := scale)];
      MarkDirty(id);
    }

    /** `Move`: the position gains `offset`, then `MarkDirty`. */
    method Move(id: NodeId, offset: Vec3)
      requires Linked() && id in parent
      modifies this
      ensures Linked() && nextId == old(nextId) && id in dirty
      ensures State() == MarkAll(Retransformed(old(State()), id, old(pose[id].position).Combine(Add, offset),
                                               old(pose[id].rotation), old(pose[id].scale)), [id])
      ensures old(Valid(State())) ==> Valid(State())
    {
      var position := pose[id].position.Combine(Add, offset);
      EditLemma(id, position, pose[id].rotation, pose[id].scale);
      pose := pose[id := pose[id].(position := position)];
      MarkDirty(id);
    }

    /** `Rotate`: the rotation is right-multiplied by `offset`, then `MarkDirty`. */
    method Rotate(id: NodeId, offset: Quat)
      requires Linked() && id in parent
      modifies this
      ensures Linked() && nextId == old(nextId) && id in dirty
      ensures State() == MarkAll(Retransformed(old(State()), id, old(pose[id].position),
                                               old(pose[id].rotation).Times(offset), old(pose[id].scale)), [id])
      ensures old(Valid(State())) ==> Valid(State())
    {
      var rotation := pose[id].rotation.Times(offset);
      EditLemma(id, pose[id].position, rotation, pose[id].scale);
      pose := pose[id := pose[id].(rotation := rotation)];
      MarkDirty(id);
    }

    /** `Scale`: the scale is multiplied component-wise by `amount`, then `MarkDirty`. */
    method Scale(id: NodeId, amount: Vec3)
      requires Linked() && id in parent
      modifies this
      ensures Linked() && nextId == old(nextId) && id in dirty
      ensures State() == MarkAll(Retransformed(old(State()), id, old(pose[id].position), old(pose[id].rotation),
                                               old(pose[id].scale).Combine(Mul, amount)), [id])
      ensures old(Valid(State())) ==> Valid(State())
    {
      var scale := pose[id].scale.Combine(Mul, amount);
      EditLemma(id, pose[id].position, pose[id].rotation, scale);
      pose := pose[id := pose[id].(scale := scale)];
      MarkDirty(id);
    }

    /** What an edit of `id`'s transform followed by `MarkDirty` preserves. */
    lemma EditLemma(id: NodeId, position: Vec3, rotation: Quat, scale: Vec3)
      requires Linked() && id in parent
      ensures Valid(State()) ==> Valid(MarkAll(Retransformed(State(), id, position, rotation, scale), [id]))
    {
      if Valid(State()) {
        EditKeepsValid(State(), id, position, rotation, scale);
      }
    }

    // ----- Relinking -----

    /**
     * `SetParent`: nothing happens when `p` is already the parent; otherwise the node leaves
     * the old parent's list, names `p`, joins `p`'s list, and is marked dirty.
     */
    method SetParent(id: NodeId, p: Option<NodeId>)
      requires Linked() && id in parent && (p.Some? ==> p.value in parent)
      modifies this
      ensures Linked() && nextId == old(nextId)
      ensures p == old(parent[id]) ==> State() == old(State())
      ensures p != old(parent[id]) ==>
        ParentPresent(old(State()), id) && State() == MarkAll(Reparented(old(State()), id, p), [id]) && id in dirty
      ensures old(Valid(State())) ==> Valid(State())
    {
      if parent[id] == p {
        return;
      }
      ghost var g := State();
      ReparentedInSteps(g, id, p);
      if Valid(g) {
        SetParentKeepsValid(g, id, p);
      }
      if parent[id].Some? {
        RemoveChildInternal(parent[id].value, id);
      }
      SetParentInternal(id, p);
      if p.Some? {
        AddChildInternal(p.value, id);
      }
      MarkDirty(id);
    }

    /**
     * `AddChild`: nothing happens on a null child; otherwise this node's list gains the child
     * unless present and the child names this node. The child's old parent still lists it,
     * and nothing is marked dirty.
     */
    method AddChild(id: NodeId, child: Option<NodeId>)
      requires Linked() && id in parent && (child.Some? ==> child.value in parent)
      modifies this
      ensures Linked() && nextId == old(nextId)
      ensures child.None? ==> State() == old(State())
      ensures child.Some? ==> State() == ChildAdded(old(State()), id, child.value)
    {
      if child.None? {
        return;
      }
      AddChildInternal(id, child.value);
      SetParentInternal(child.value, Some(id));
    }

    /**
     * `RemoveChild`: nothing happens on a null child; otherwise this node's list loses the
     * child and the child's parent becomes null, whichever node it named before.
     */
    method RemoveChild(id: NodeId, child: Option<NodeId>)
      requires Linked() && id in parent && (child.Some? ==> child.value in parent)
      modifies this
      ensures Linked() && nextId == old(nextId)
      ensures child.None? ==> State() == old(State())
      ensures child.Some? ==> State() == ChildRemoved(old(State()), id, child.value)
    {
      if child.None? {
        return;
      }
      RemoveChildInternal(id, child.value);
      SetParentInternal(child.value, None);
    }

    /** `SetParentInternal`: only the parent pointer of `c` changes. */
    method SetParentInternal(c: NodeId, p: Option<NodeId>)
      requires Linked() && c in parent && (p.Some? ==> p.value in parent)
      modifies this
      ensures Linked() && nextId == old(nextId)
      ensures State() == WithParent(old(State()), c, p)
    {
      WithParentKeepsClosed(State(), c, p);
      parent := parent[c := p];
    }

    /** `AddChildInternal`: `q`'s list gains `c` at the end, unless it already holds it. */
    method AddChildInternal(q: NodeId, c: NodeId)
      requires Linked() && q in parent && c in parent
      modifies this
      ensures Linked() && nextId == old(nextId)
      ensures State() == Listed(old(State()), q, c)
    {
      ListedKeepsClosed(State(), q, c);
      if c !in children[q] {
        children := children[q := children[q] + [c]];
      }
    }

    /** `RemoveChildInternal`: every occurrence of `c` leaves `q`'s list. */
    method RemoveChildInternal(q: NodeId, c: NodeId)
      requires Linked() && q in parent
      modifies this
      ensures Linked() && nextId == old(nextId)
      ensures State() == Unlisted(old(State()), q, c)
    {
      UnlistedKeepsClosed(State(), q, c);
      children := children[q := Erased(children[q], c)];
    }

    // ----- Getters -----

    /** `GetChild`: the child at `index`, or null past the end of the list. */
    method GetChild(id: NodeId, index: nat) returns (child: Option<NodeId>)
      requires Linked() && id in parent
      ensures child.None? <==> index >= |children[id]|
      ensures child.Some? ==> child.value == children[id][index] && child.value in parent
    {
      if index >= |children[id]| {
        return None;
      }
      return Some(children[id][index]);
    }

    /** `GetChildrenCount` */
    method GetChildrenCount(id: NodeId) returns (count: nat)
      requires Linked() && id in parent
      ensures count == |children[id]|
    {
      return |children[id]|;
    }

    /** `GetParent`: recomputes the matrices first, then returns the parent pointer. */
    method GetParent(id: NodeId, ghost k: nat) returns (p: Option<NodeId>)
      requires Linked() && id in parent && Climbs(State(), id, k)
      modifies this
      ensures Linked() && nextId == old(nextId) && State() == Resolve(old(State()), id, k)
      ensures p == old(parent[id]) && (p.Some? ==> p.value in parent)
    {
      UpdateMatrices(id, k);
      p := parent[id];
    }

    /** `GetLocalPosition`: recomputes the matrices first, then returns the position unchanged. */
    method GetLocalPosition(id: NodeId, ghost k: nat) returns (position: Vec3)
      requires Linked() && id in parent && Climbs(State(), id, k)
      modifies this
      ensures Linked() && nextId == old(nextId) && State() == Resolve(old(State()), id, k)
      ensures position == old(pose[id].position)
    {
      UpdateMatrices(id, k);
      position := pose[id].position;
    }

    /** `GetLocalRotation` */
    method GetLocalRotation(id: NodeId, ghost k: nat) returns (rotation: Quat)
      requires Linked() && id in parent && Climbs(State(), id, k)
      modifies this
      ensures Linked() && nextId == old(nextId) && State() == Resolve(old(State()), id, k)
      ensures rotation == old(pose[id].rotation)
    {
      UpdateMatrices(id, k);
      rotation := pose[id].rotation;
    }

    /** `GetLocalScale` */
    method GetLocalScale(id: NodeId, ghost k: nat) returns (scale: Vec3)
      requires Linked() && id in parent && Climbs(State(), id, k)
      modifies this
      ensures Linked() && nextId == old(nextId) && State() == Resolve(old(State()), id, k)
      ensures scale == old(pose[id].scale)
    {
      UpdateMatrices(id, k);
      scale := pose[id].scale;
    }

    /**
     * `GetPosition`: the translation of the world matrix after recomputation; in a valid
     * scene, that of the transforms composed from the root down.
     */
    method GetPosition(id: NodeId, ghost k: nat) returns (position: Vec3)
      requires Linked() && id in parent && Climbs(State(), id, k)
      modifies this
      ensures Linked() && nextId == old(nextId) && State() == Resolve(old(State()), id, k)
      ensures position == cache[id].world.GetPosition()
      ensures old(Valid(State())) && RootedWithin(old(State()), id, k) ==>
        position == WorldOf(old(State()), id, k).GetPosition()
    {
      var world := GetMatrix(id, k);
      position := world.GetPosition();
    }

    /**
     * `GetMatrix`: recomputes the matrices, then returns the world matrix, which in a valid
     * scene is the transforms composed from the root down.
     */
    method GetMatrix(id: NodeId, ghost k: nat) returns (world: Matrix4x4)
      requires Linked() && id in parent && Climbs(State(), id, k)
      modifies this
      ensures Linked() && nextId == old(nextId) && State() == Resolve(old(State()), id, k)
      ensures world == cache[id].world
      ensures old(Valid(State())) ==> Valid(State())
      ensures old(Valid(State())) && RootedWithin(old(State()), id, k) ==> world == WorldOf(old(State()), id, k)
      decreases k, 1
    {
      ghost var g := State();
      if Valid(g) && RootedWithin(g, id, k) {
        ResolvedWorld(g, id, k);
      }
      UpdateMatrices(id, k);
      world := cache[id].world;
    }

    /**
     * `GetLocalMatrix`: recomputes the matrices, then returns the local matrix, which in a
     * valid scene is the matrix of the node's own transform.
     */
    method GetLocalMatrix(id: NodeId, ghost k: nat) returns (local: Matrix4x4)
      requires Linked() && id in parent && Climbs(State(), id, k)
      modifies this
      ensures Linked() && nextId == old(nextId) && State() == Resolve(old(State()), id, k)
      ensures local == cache[id].local
      ensures old(Valid(State())) && RootedWithin(old(State()), id, k) ==> local == old(State()).LocalOf(id)
    {
      ghost var g := State();
      if Valid(g) && RootedWithin(g, id, k) {
        ResolvedWorld(g, id, k);
      }
      UpdateMatrices(id, k);
      local := cache[id].local;
    }

    // ----- Internal -----

    /**
     * `MarkDirty`: returns at once on a dirty node; otherwise sets the flag and calls itself
     * on each child in list order.
     */
    method MarkDirty(id: NodeId)
      requires Linked() && id in parent
      modifies this
      ensures Linked() && nextId == old(nextId) && id in dirty
      ensures State() == MarkAll(old(State()), [id])
      decreases CleanSet(State())
    {
      ghost var g := State();
      if id in dirty {
        return;
      }
      dirty := dirty + {id};
      ghost var marked := State();
      assert CleanSet(marked) < CleanSet(g) by {
        assert id in CleanSet(g) && id !in CleanSet(marked);
      }
      var list := children[id];
      for i := 0 to |list|
        invariant Linked() && nextId == old(nextId) && id in dirty
        invariant State() == MarkAll(marked, list[..i])
        invariant parent == g.parent && children == g.children
      {
        ListedIsNode(g, id, list[i]);
        assert CleanSet(State()) <= CleanSet(marked);
        MarkDirty(list[i]);
        MarkAllAppend(marked, list[..i], [list[i]]);
        assert list[..i + 1] == list[..i] + [list[i]];
      }
      assert list[..|list|] == list;
    }

    /**
     * `UpdateMatrices`: returns at once on a clean node; otherwise rebuilds the local matrix
     * from the transform, sets the world matrix to the parent's `GetMatrix()` times it (or
     * to it, at a root), and clears the flag.
     */
    method UpdateMatrices(id: NodeId, ghost k: nat)
      requires Linked() && id in parent && Climbs(State(), id, k)
      modifies this
      ensures Linked() && nextId == old(nextId) && State() == Resolve(old(State()), id, k)
      ensures old(Valid(State())) ==> Valid(State())
      decreases k, 0
    {
      if id !in dirty {
        return;
      }
      ghost var g := State();
      if Valid(g) {
        ResolveKeepsValid(g, id, k);
      }
      var local := Matrix4x4.FromPRS(pose[id].position, pose[id].rotation, pose[id].scale);
      assert local == g.LocalOf(id);
      var world := local;
      if parent[id].Some? {
        var p := parent[id].value;
        ParentIsNode(g, id);
        var above := GetMatrix(p, k - 1);
        world := above.Times(local);
        assert world == Multiply(Resolve(g, p, k - 1).cache[p].world, g.LocalOf(id));
      }
      cache, dirty := cache[id := Cache(world, local)], dirty - {id};
      assert State() == Resolve(g, id, k);
    }
  }
}
