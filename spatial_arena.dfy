/**
 * The scene graph of `Spatial` nodes, seen as an arena. A `Spatial` cannot be copied or
 * assigned, so a node is its address; here that address is a `NodeId`, and each data
 * member of `Spatial` is a map from node id to that node's value of the member. Parent
 * and child pointers are ids into the same arena.
 *
 * This module holds the pure specification of the graph operations (marking dirty,
 * recomputing the cached matrices, relinking) and what they preserve; module `Spatial`
 * performs them in place.
 */
module SpatialArena {
  import opened Wrappers
  import opened Vector
  import opened Quaternion
  import opened Matrix

  /** The identity (the address) of a `Spatial` object. */
  type NodeId = int

  /**
   * `Matrix4x4` multiplication and the `FromPRS` builder, as the graph operations use them:
   * function values that agree with `Times` and `FromPRS` on every argument. The graph
   * proofs never need the entries of a product, so they reason about these values without
   * expanding them.
   */
  type MatrixProduct = f: (Matrix4x4, Matrix4x4) -> Matrix4x4 |
    forall a: Matrix4x4, b: Matrix4x4 {:trigger a.Times(b)} :: f(a, b) == a.Times(b)
    witness (a: Matrix4x4, b: Matrix4x4) => a.Times(b)

  type TransformBuilder = f: (Vec3, Quat, Vec3) -> Matrix4x4 |
    forall p: Vec3, r: Quat, s: Vec3 {:trigger Matrix4x4.FromPRS(p, r, s)} :: f(p, r, s) == Matrix4x4.FromPRS(p, r, s)
    witness (p: Vec3, r: Quat, s: Vec3) => Matrix4x4.FromPRS(p, r, s)

  const Multiply: MatrixProduct
  const Transform: TransformBuilder

  /** A node's local transform: `mPosition`, `mRotation` and `mScale`. */
  datatype Pose = Pose(position: Vec3, rotation: Quat, scale: Vec3)
  {
    /** The local matrix this transform determines. */
    function Matrix(): Matrix4x4
    {
      Transform(position, rotation, scale)
    }
  }

  /** A node's cached matrices: `mWorldMatrix` and `mLocalMatrix`. */
  datatype Cache = Cache(world: Matrix4x4, local: Matrix4x4)

  /**
   * The members of every `Spatial`: the local transform, the non-owning parent pointer,
   * the child list, the cached matrices, and the set of nodes whose `mIsDirty` flag is set.
   */
  datatype Arena = Arena(
    pose: map<NodeId, Pose>, parent: map<NodeId, Option<NodeId>>, children: map<NodeId, seq<NodeId>>,
    cache: map<NodeId, Cache>, dirty: set<NodeId>)
  {
    /** The nodes of the arena. */
    function Nodes(): set<NodeId>
    {
      parent.Keys
    }

    /** Every member is recorded for exactly the nodes of the arena. */
    ghost predicate Shaped()
    {
      (forall n :: (n in parent <==> n in pose) && (n in parent <==> n in children) && (n in parent <==> n in cache)) &&
      forall n :: n in dirty ==> n in parent
    }

    /** The local matrix node `n`'s own transform determines. */
    function LocalOf(n: NodeId): Matrix4x4
      requires n in pose
    {
      pose[n].Matrix()
    }
  }

  /**
   * The arena with a new node as a constructor's member initialisers leave it: no parent,
   * no children, dirty, with both cached matrices the identity.
   */
  function Added(g: Arena, id: NodeId, position: Vec3, rotation: Quat, scale: Vec3): (r: Arena)
    requires g.Shaped()
    ensures r.Shaped()
  {
    Arena(g.pose[id := Pose(position, rotation, scale)], g.parent[id := None], g.children[id := []],
          g.cache[id := Cache(Matrix4x4.Identity, Matrix4x4.Identity)], g.dirty + {id})
  }

  // ----- Child lists -----

  /** No node occurs twice in the list. */
  predicate NoDup(s: seq<NodeId>)
    decreases |s|
  {
    s == [] || (s[0] !in s[1..] && NoDup(s[1..]))
  }

  function Elems(s: seq<NodeId>): set<NodeId>
  {
    set x | x in s
  }

  lemma {:induction false} NoDupSnoc(s: seq<NodeId>, c: NodeId)
    requires c !in s
    ensures NoDup(s) ==> NoDup(s + [c])
    decreases |s|
  {
    if s == [] {
      assert [c][1..] == [];
    } else {
      assert (s + [c])[1..] == s[1..] + [c];
      NoDupSnoc(s[1..], c);
    }
  }

  /** `AddChildInternal`: append the child unless the list already holds it. */
  function Appended(s: seq<NodeId>, c: NodeId): (r: seq<NodeId>)
    ensures forall x :: x in r <==> x in s || x == c
    ensures NoDup(s) ==> NoDup(r)
    ensures |s| <= |r| && r[..|s|] == s
  {
    if c in s then s
    else
      NoDupSnoc(s, c);
      s + [c]
  }

  /** `RemoveChildInternal` (`std::erase`): drop every occurrence, keeping the order of the rest. */
  function Erased(s: seq<NodeId>, c: NodeId): (r: seq<NodeId>)
    ensures forall x :: x in r <==> x in s && x != c
    ensures NoDup(s) ==> NoDup(r)
    ensures c !in s ==> r == s
    decreases |s|
  {
    if s == [] then []
    else
      var rest := Erased(s[1..], c);
      if s[0] == c then rest
      else
        assert ([s[0]] + rest)[1..] == rest;
        [s[0]] + rest
  }

  /** Adding a child that was absent and then removing it restores the list. */
  lemma {:induction false} ErasedAppended(s: seq<NodeId>, c: NodeId)
    requires c !in s
    ensures Erased(Appended(s, c), c) == s
  {
    ErasedOfSuffix(s, c);
  }

  lemma {:induction false} ErasedOfSuffix(s: seq<NodeId>, c: NodeId)
    ensures Erased(s + [c], c) == Erased(s, c)
  {
    if s == [] {
      assert [c][1..] == [];
    } else {
      assert (s + [c])[1..] == s[1..] + [c];
      ErasedOfSuffix(s[1..], c);
    }
  }

  // ----- Marking dirty -----

  function CleanSet(g: Arena): set<NodeId>
  {
    g.Nodes() - g.dirty
  }

  /**
   * The arena after `MarkDirty` is called on each of `pending` in turn. A call on a node
   * that is already dirty returns at once; otherwise it sets the flag and recurses into the
   * children in list order.
   */
  function MarkAll(g: Arena, pending: seq<NodeId>): (r: Arena)
    requires g.Shaped()
    ensures r == g.(dirty := r.dirty) && r.Shaped()
    ensures g.dirty <= r.dirty
    ensures forall n :: n in pending && n in g.Nodes() ==> n in r.dirty
    decreases CleanSet(g), |pending|
  {
    if pending == [] then g
    else
      var id := pending[0];
      if id !in g.Nodes() || id in g.dirty then MarkAll(g, pending[1..])
      else
        var marked := g.(dirty := g.dirty + {id});
        assert CleanSet(marked) < CleanSet(g) by {
          assert id in CleanSet(g) && id !in CleanSet(marked);
        }
        MarkAll(MarkAll(marked, g.children[id]), pending[1..])
  }

  /** Marking a list of nodes in turn is marking its prefix, then its suffix. */
  lemma {:induction false} MarkAllAppend(g: Arena, p: seq<NodeId>, q: seq<NodeId>)
    requires g.Shaped()
    ensures MarkAll(g, p + q) == MarkAll(MarkAll(g, p), q)
    decreases |p|
  {
    if p == [] {
      assert p + q == q;
    } else {
      assert (p + q)[0] == p[0];
      assert (p + q)[1..] == p[1..] + q;
      var id := p[0];
      if id !in g.Nodes() || id in g.dirty {
        MarkAllAppend(g, p[1..], q);
      } else {
        var marked := g.(dirty := g.dirty + {id});
        MarkAllAppend(MarkAll(marked, g.children[id]), p[1..], q);
      }
    }
  }

  /**
   * Every dirty node's children that are clean lie in `s`. With `s` empty this is the
   * invariant the early return of `MarkDirty` relies on: a dirty node has only dirty children.
   */
  ghost predicate DirtyClosedUpTo(g: Arena, s: set<NodeId>)
  {
    forall n, c :: n in g.dirty && n in g.children && c in g.children[n] && c in g.Nodes() && c !in g.dirty ==> c in s
  }

  ghost predicate DirtyClosed(g: Arena)
  {
    DirtyClosedUpTo(g, {})
  }

  /**
   * Marking restores dirty-closure: clean children of dirty nodes that are still to be
   * marked stop being exceptions.
   */
  lemma {:induction false} MarkAllCloses(g: Arena, pending: seq<NodeId>, e: set<NodeId>)
    requires g.Shaped() && DirtyClosedUpTo(g, Elems(pending) + e)
    ensures DirtyClosedUpTo(MarkAll(g, pending), e)
    decreases CleanSet(g), |pending|
  {
    if pending != [] {
      var id := pending[0];
      var rest := pending[1..];
      assert Elems(pending) == {id} + Elems(rest) by {
        assert pending == [id] + rest;
      }
      if id !in g.Nodes() || id in g.dirty {
        MarkAllCloses(g, rest, e);
      } else {
        var marked := g.(dirty := g.dirty + {id});
        var ch := g.children[id];
        assert CleanSet(marked) < CleanSet(g) by {
          assert id in CleanSet(g) && id !in CleanSet(marked);
        }
        assert DirtyClosedUpTo(marked, Elems(ch) + (Elems(rest) + e));
        MarkAllCloses(marked, ch, Elems(rest) + e);
        MarkAllCloses(MarkAll(marked, ch), rest, e);
      }
    }
  }

  /** A path that follows child links: each node is a child of the one before it. */
  ghost predicate IsPath(g: Arena, p: seq<NodeId>)
    decreases |p|
  {
    |p| > 0 && p[0] in g.Nodes() && p[0] in g.children &&
    (|p| > 1 ==> p[1] in g.children[p[0]] && IsPath(g, p[1..]))
  }

  lemma ChildOfDirty(g: Arena, n: NodeId, c: NodeId)
    requires DirtyClosed(g) && n in g.dirty && n in g.children && c in g.children[n] && c in g.Nodes()
    ensures c in g.dirty
  {
  }

  /** In a dirty-closed arena, everything below a dirty node is dirty. */
  lemma {:induction false} DirtyBelowDirty(g: Arena, p: seq<NodeId>)
    requires DirtyClosed(g) && IsPath(g, p) && p[0] in g.dirty
    ensures p[|p| - 1] in g.dirty
    decreases |p|
  {
    if |p| > 1 {
      assert p[1..][0] == p[1] && p[1] in g.Nodes();
      ChildOfDirty(g, p[0], p[1]);
      DirtyBelowDirty(g, p[1..]);
    }
  }

  /**
   * `MarkDirty` on a node of a dirty-closed arena leaves the node and every descendant
   * reachable through child lists dirty, and keeps the arena dirty-closed.
   */
  lemma MarkDirtyReachesDescendants(g: Arena, p: seq<NodeId>)
    requires g.Shaped() && DirtyClosed(g) && IsPath(g, p)
    ensures p[|p| - 1] in MarkAll(g, [p[0]]).dirty
    ensures DirtyClosed(MarkAll(g, [p[0]]))
  {
    var r := MarkAll(g, [p[0]]);
    assert Elems([p[0]]) == {p[0]};
    MarkAllCloses(g, [p[0]], {});
    PathOfSameLinks(g, r, p);
    DirtyBelowDirty(r, p);
  }

  lemma {:induction false} PathOfSameLinks(g: Arena, h: Arena, p: seq<NodeId>)
    requires h.parent == g.parent && h.children == g.children && IsPath(g, p)
    ensures IsPath(h, p)
    decreases |p|
  {
    if |p| > 1 {
      PathOfSameLinks(g, h, p[1..]);
    }
  }

  /** `p` leads from `a` to `n` along child links. */
  ghost predicate PathFromTo(g: Arena, p: seq<NodeId>, a: NodeId, n: NodeId)
  {
    IsPath(g, p) && p[0] == a && p[|p| - 1] == n
  }

  /**
   * Conversely, marking dirties nothing but descendants of the marked nodes: a node that
   * turns dirty is reached from one of `pending` along child links.
   */
  lemma {:induction false} MarkAllOnlyDescendants(g: Arena, pending: seq<NodeId>, n: NodeId)
    requires g.Shaped() && n in g.Nodes() && n !in g.dirty && n in MarkAll(g, pending).dirty
    ensures exists i, p :: 0 <= i < |pending| && PathFromTo(g, p, pending[i], n)
    decreases CleanSet(g), |pending|
  {
    var id := pending[0];
    var rest := pending[1..];
    if id !in g.Nodes() || id in g.dirty {
      MarkAllOnlyDescendants(g, rest, n);
      var i, p :| 0 <= i < |rest| && PathFromTo(g, p, rest[i], n);
      assert PathFromTo(g, p, pending[i + 1], n);
    } else {
      var marked := g.(dirty := g.dirty + {id});
      var ch := g.children[id];
      assert CleanSet(marked) < CleanSet(g) by {
        assert id in CleanSet(g) && id !in CleanSet(marked);
      }
      var inner := MarkAll(marked, ch);
      if n == id {
        assert PathFromTo(g, [id], pending[0], n);
      } else if n in inner.dirty {
        MarkAllOnlyDescendants(marked, ch, n);
        var i, p :| 0 <= i < |ch| && PathFromTo(marked, p, ch[i], n);
        PathOfSameLinks(marked, g, p);
        assert IsPath(g, [id] + p) by {
          assert ([id] + p)[1..] == p;
        }
        assert PathFromTo(g, [id] + p, pending[0], n);
      } else {
        MarkAllOnlyDescendants(inner, rest, n);
        var i, p :| 0 <= i < |rest| && PathFromTo(inner, p, rest[i], n);
        PathOfSameLinks(inner, g, p);
        assert PathFromTo(g, p, pending[i + 1], n);
      }
    }
  }

  // ----- The graph invariant -----

  /** Every parent and child pointer refers to a node of the arena. */
  ghost predicate Closed(g: Arena)
  {
    PointersClosed(g.parent, g.children)
  }

  ghost predicate PointersClosed(parent: map<NodeId, Option<NodeId>>, children: map<NodeId, seq<NodeId>>)
  {
    (forall n :: n in parent && parent[n].Some? ==> parent[n].value in parent) &&
    (forall n, c :: n in children && c in children[n] ==> c in parent)
  }

  /** A child listed by a node of a closed arena is a node. */
  lemma ListedIsNode(g: Arena, n: NodeId, c: NodeId)
    requires Closed(g) && n in g.children && c in g.children[n]
    ensures c in g.Nodes()
  {
  }

  /** The parent of a node of a closed arena is a node. */
  lemma ParentIsNode(g: Arena, n: NodeId)
    requires Closed(g) && n in g.parent && g.parent[n].Some?
    ensures g.parent[n].value in g.Nodes()
  {
  }

  ghost predicate ChildrenUnique(g: Arena)
  {
    forall n :: n in g.children ==> NoDup(g.children[n])
  }

  /** A node lists `c` as a child exactly when `c` names it as parent. */
  ghost predicate LinksAgree(g: Arena)
  {
    ListsNameParents(g) && ParentsListChildren(g)
  }

  /** Every listed child names the listing node as its parent. */
  ghost predicate ListsNameParents(g: Arena)
  {
    forall n, c :: n in g.children && c in g.children[n] ==> c in g.parent && g.parent[c] == Some(n)
  }

  /** Every node that names a parent is listed by it. */
  ghost predicate ParentsListChildren(g: Arena)
  {
    forall n :: n in g.parent && g.parent[n].Some? ==>
      g.parent[n].value in g.children && n in g.children[g.parent[n].value]
  }

  /** The cached matrices of `n` are what `UpdateMatrices` would compute now. */
  ghost predicate Fresh(g: Arena, n: NodeId)
    requires g.Shaped() && n in g.Nodes()
  {
    g.cache[n].local == g.LocalOf(n) &&
    match g.parent[n]
    case None => g.cache[n].world == g.cache[n].local
    case Some(p) => p in g.cache && g.cache[n].world == Multiply(g.cache[p].world, g.cache[n].local)
  }

  /** Every clean node outside `s` has fresh caches. */
  ghost predicate FreshUpTo(g: Arena, s: set<NodeId>)
    requires g.Shaped()
  {
    forall n {:trigger Fresh(g, n)} :: n in g.Nodes() && n !in g.dirty && n !in s ==> Fresh(g, n)
  }

  /**
   * The invariant of a well-formed scene graph: duplicate-free child lists, agreeing links,
   * fresh caches on clean nodes, and no clean child under a dirty parent.
   */
  ghost predicate Valid(g: Arena)
  {
    g.Shaped() && ChildrenUnique(g) && LinksAgree(g) && FreshUpTo(g, {}) && DirtyClosed(g)
  }

  lemma ValidIsClosed(g: Arena)
    requires Valid(g)
    ensures Closed(g)
  {
    forall n | n in g.parent && g.parent[n].Some?
      ensures g.parent[n].value in g.parent
    {
      var p := g.parent[n].value;
      assert p in g.children;
    }
  }

  /** In a valid arena the parent of a clean node is clean. */
  lemma CleanParent(g: Arena, n: NodeId)
    requires Valid(g) && n in g.Nodes() && n !in g.dirty && g.parent[n].Some?
    ensures g.parent[n].value in g.Nodes() && g.parent[n].value !in g.dirty
  {
    var p := g.parent[n].value;
    assert n in g.children[p];
  }

  /**
   * Marking the nodes of `pending` repairs the two parts of the invariant that may fail at
   * them: stale caches and clean children under dirty parents.
   */
  lemma MarkAllKeepsValid(g: Arena, pending: seq<NodeId>)
    requires g.Shaped() && ChildrenUnique(g) && LinksAgree(g)
    requires FreshUpTo(g, Elems(pending)) && DirtyClosedUpTo(g, Elems(pending))
    ensures Valid(MarkAll(g, pending))
  {
    var r := MarkAll(g, pending);
    MarkAllCloses(g, pending, {});
    assert r.pose == g.pose && r.parent == g.parent && r.children == g.children && r.cache == g.cache;
    assert ChildrenUnique(r) && LinksAgree(r);
    forall n | n in r.Nodes() && n !in r.dirty
      ensures Fresh(r, n)
    {
      assert n !in Elems(pending);
      assert Fresh(g, n);
    }
  }

  // ----- Editing a node's transform -----

  /** The arena with node `id`'s position, rotation and scale replaced. */
  function Retransformed(g: Arena, id: NodeId, position: Vec3, rotation: Quat, scale: Vec3): (r: Arena)
    requires g.Shaped() && id in g.Nodes()
    ensures r == g.(pose := r.pose) && r.Shaped()
    ensures r.LocalOf(id) == Transform(position, rotation, scale)
    ensures forall n :: n in g.Nodes() && n != id ==> r.LocalOf(n) == g.LocalOf(n)
  {
    g.(pose := g.pose[id := Pose(position, rotation, scale)])
  }

  /**
   * The setters and modifiers overwrite the transform and call `MarkDirty`: the arena stays
   * valid and the edited node ends dirty.
   */
  lemma EditKeepsValid(g: Arena, id: NodeId, position: Vec3, rotation: Quat, scale: Vec3)
    requires Valid(g) && id in g.Nodes()
    ensures var r := MarkAll(Retransformed(g, id, position, rotation, scale), [id]);
      Valid(r) && id in r.dirty
  {
    var h := Retransformed(g, id, position, rotation, scale);
    assert h.parent == g.parent && h.children == g.children && h.cache == g.cache && h.dirty == g.dirty;
    forall n | n in h.Nodes() && n !in h.dirty && n !in {id}
      ensures Fresh(h, n)
    {
      assert Fresh(g, n);
    }
    MarkOneKeepsValid(h, id);
  }

  // ----- Relinking -----

  /** `AddChildInternal` on node `q`: its list gains `c` unless present. */
  function Listed(g: Arena, q: NodeId, c: NodeId): (r: Arena)
    requires g.Shaped() && q in g.Nodes()
    ensures r == g.(children := r.children) && r.Shaped()
    ensures ChildrenUnique(g) ==> ChildrenUnique(r)
  {
    g.(children := g.children[q := Appended(g.children[q], c)])
  }

  /** `RemoveChildInternal` on node `q`: its list loses `c`. */
  function Unlisted(g: Arena, q: NodeId, c: NodeId): (r: Arena)
    requires g.Shaped() && q in g.Nodes()
    ensures r == g.(children := r.children) && r.Shaped()
    ensures ChildrenUnique(g) ==> ChildrenUnique(r)
  {
    g.(children := g.children[q := Erased(g.children[q], c)])
  }

  /** `SetParentInternal` on node `c`: only its parent pointer changes. */
  function WithParent(g: Arena, c: NodeId, p: Option<NodeId>): (r: Arena)
    requires g.Shaped() && c in g.Nodes()
    ensures r == g.(parent := r.parent) && r.Shaped()
    ensures r.parent[c] == p && forall n :: n in g.parent && n != c ==> r.parent[n] == g.parent[n]
  {
    g.(parent := g.parent[c := p])
  }

  /** The parent of `id`, if any, is a node of the arena. */
  ghost predicate ParentPresent(g: Arena, id: NodeId)
    requires id in g.parent
  {
    g.parent[id].Some? ==> g.parent[id].value in g.Nodes()
  }

  /**
   * The links after `SetParent(p)` on `id` when `p` differs from the current parent: the
   * old parent drops `id` as by `RemoveChild`, then `p` takes it as by `AddChild`.
   * Only the parent pointer of `id` changes, and no list gains a duplicate.
   */
  function Reparented(g: Arena, id: NodeId, p: Option<NodeId>): (r: Arena)
    requires g.Shaped() && id in g.Nodes() && ParentPresent(g, id)
    requires (p.Some? ==> p.value in g.Nodes()) && p != g.parent[id]
    ensures r.pose == g.pose && r.cache == g.cache && r.dirty == g.dirty && r.Shaped()
    ensures r.parent == g.parent[id := p]
    ensures ChildrenUnique(g) ==> ChildrenUnique(r)
  {
    var detached := if g.parent[id].Some? then ChildRemoved(g, g.parent[id].value, id) else g;
    if p.Some? then ChildAdded(detached, p.value, id) else detached
  }

  /**
   * After `SetParent`, a node lists `x` exactly when it listed `x` before, unless it is the
   * old parent and `x` is the moved node, or when it is the new parent and `x` is the moved node.
   */
  lemma ReparentedMembership(g: Arena, id: NodeId, p: Option<NodeId>, n: NodeId, x: NodeId)
    requires g.Shaped() && id in g.Nodes() && ParentPresent(g, id)
    requires (p.Some? ==> p.value in g.Nodes()) && p != g.parent[id]
    requires n in g.Nodes()
    ensures var r := Reparented(g, id, p);
      x in r.children[n] <==>
        (x in g.children[n] && !(x == id && g.parent[id] == Some(n))) || (x == id && p == Some(n))
  {
  }

  /** Relinking `id` to `p` keeps every node listed by exactly the node it names as parent. */
  lemma ReparentedLinksAgree(g: Arena, id: NodeId, p: Option<NodeId>)
    requires g.Shaped() && LinksAgree(g) && id in g.Nodes() && (p.Some? ==> p.value in g.Nodes()) && p != g.parent[id]
    ensures ParentPresent(g, id) && LinksAgree(Reparented(g, id, p))
  {
    if g.parent[id].Some? {
      var q := g.parent[id].value;
      assert q in g.children;
    }
    var detached := g;
    if g.parent[id].Some? {
      RemoveOwnChildListsAgree(g, g.parent[id].value, id);
      RemoveOwnChildParentsAgree(g, g.parent[id].value, id);
      detached := ChildRemoved(g, g.parent[id].value, id);
    }
    if p.Some? {
      AddOrphanListsAgree(detached, p.value, id);
      AddOrphanParentsAgree(detached, p.value, id);
    }
  }

  /** Relinking `id` leaves `id` as the only possible clean child of a dirty node. */
  lemma ReparentedDirtyClosed(g: Arena, id: NodeId, p: Option<NodeId>)
    requires g.Shaped() && DirtyClosed(g) && id in g.Nodes() && ParentPresent(g, id)
    requires (p.Some? ==> p.value in g.Nodes()) && p != g.parent[id]
    ensures DirtyClosedUpTo(Reparented(g, id, p), {id})
  {
    var h := Reparented(g, id, p);
    forall n, c | n in h.dirty && n in h.children && c in h.children[n] && c in h.Nodes() && c !in h.dirty
      ensures c in {id}
    {
      ReparentedChildOfDirty(g, id, p, n, c);
    }
  }

  lemma ReparentedChildOfDirty(g: Arena, id: NodeId, p: Option<NodeId>, n: NodeId, c: NodeId)
    requires g.Shaped() && DirtyClosed(g) && id in g.Nodes() && ParentPresent(g, id)
    requires (p.Some? ==> p.value in g.Nodes()) && p != g.parent[id]
    requires n in g.Nodes() && n in g.dirty && c in g.Nodes() && c in Reparented(g, id, p).children[n]
    ensures c == id || c in g.dirty
  {
    ReparentedMembership(g, id, p, n, c);
    if c != id {
      ChildOfDirty(g, n, c);
    }
  }

  /** Relinking `id` leaves every other clean node's caches fresh. */
  lemma ReparentedFresh(g: Arena, id: NodeId, p: Option<NodeId>)
    requires g.Shaped() && FreshUpTo(g, {}) && id in g.Nodes() && ParentPresent(g, id)
    requires (p.Some? ==> p.value in g.Nodes()) && p != g.parent[id]
    ensures FreshUpTo(Reparented(g, id, p), {id})
  {
    var h := Reparented(g, id, p);
    forall n | n in h.Nodes() && n !in h.dirty && n !in {id}
      ensures Fresh(h, n)
    {
      assert Fresh(g, n);
    }
  }

  /** `SetParent` keeps a valid arena valid, and the moved node ends dirty. */
  lemma SetParentKeepsValid(g: Arena, id: NodeId, p: Option<NodeId>)
    requires Valid(g) && id in g.Nodes() && (p.Some? ==> p.value in g.Nodes()) && p != g.parent[id]
    ensures ParentPresent(g, id)
    ensures var r := MarkAll(Reparented(g, id, p), [id]);
      Valid(r) && id in r.dirty
  {
    ReparentedLinksAgree(g, id, p);
    ReparentedDirtyClosed(g, id, p);
    ReparentedFresh(g, id, p);
    MarkOneKeepsValid(Reparented(g, id, p), id);
  }

  /** Marking the one node whose caches or children may be stale makes the arena valid. */
  lemma MarkOneKeepsValid(h: Arena, id: NodeId)
    requires h.Shaped() && ChildrenUnique(h) && LinksAgree(h) && id in h.Nodes()
    requires FreshUpTo(h, {id}) && DirtyClosedUpTo(h, {id})
    ensures Valid(MarkAll(h, [id])) && id in MarkAll(h, [id]).dirty
  {
    assert Elems([id]) == {id};
    MarkAllKeepsValid(h, [id]);
  }

  /** `id` is reached from a root, a node without parent, by at most `k` parent links. */
  ghost predicate RootedWithin(g: Arena, id: NodeId, k: nat)
    decreases k
  {
    id in g.parent &&
    match g.parent[id]
    case None => true
    case Some(p) => k > 0 && RootedWithin(g, p, k - 1)
  }

  /**
   * `UpdateMatrices` on `id` ends within `k` steps: climbing the parent chain through dirty
   * nodes reaches a clean node or a root within `k` parent links.
   */
  ghost predicate Climbs(g: Arena, id: NodeId, k: nat)
    decreases k
  {
    id in g.dirty ==>
      id in g.parent &&
      match g.parent[id]
      case None => true
      case Some(p) => k > 0 && p in g.parent && Climbs(g, p, k - 1)
  }

  /** A node reached from a root within `k` links can be brought up to date within `k` steps. */
  lemma {:induction false} RootedClimbs(g: Arena, id: NodeId, k: nat)
    requires RootedWithin(g, id, k)
    ensures Climbs(g, id, k)
    decreases k
  {
    if g.parent[id].Some? {
      RootedClimbs(g, g.parent[id].value, k - 1);
    }
  }

  /**
   * A node that is its own parent is never rooted, and when it is dirty `UpdateMatrices` on
   * it recurses forever.
   */
  lemma {:induction false} SelfParentNeverRooted(g: Arena, id: NodeId, k: nat)
    requires id in g.parent && g.parent[id] == Some(id)
    ensures !RootedWithin(g, id, k)
    ensures id in g.dirty ==> !Climbs(g, id, k)
  {
    if k > 0 {
      SelfParentNeverRooted(g, id, k - 1);
    }
  }

  /**
   * `SetParent` does not check for cycles: making a node its own parent is accepted, keeps the
   * arena valid, and leaves a node whose matrices can never be recomputed.
   */
  lemma SelfParentingIsAccepted(g: Arena, id: NodeId, k: nat)
    requires Valid(g) && id in g.Nodes() && g.parent[id] != Some(id)
    ensures ParentPresent(g, id)
    ensures var r := MarkAll(Reparented(g, id, Some(id)), [id]);
      Valid(r) && r.parent[id] == Some(id) && id in r.children[id] && !RootedWithin(r, id, k) && !Climbs(r, id, k)
  {
    SetParentKeepsValid(g, id, Some(id));
    SelfParentNeverRooted(MarkAll(Reparented(g, id, Some(id)), [id]), id, k);
  }

  // ----- Recomputing the cached matrices -----

  /**
   * The arena after `UpdateMatrices` on `id`: nothing changes when the node is clean;
   * otherwise the parent chain is brought up to date first, then the node's local matrix is
   * rebuilt from its transform and its world matrix is the parent's world matrix times it.
   */
  function Resolve(g: Arena, id: NodeId, k: nat): (r: Arena)
    requires g.Shaped() && Climbs(g, id, k)
    ensures r == g.(cache := r.cache, dirty := r.dirty) && r.Shaped()
    ensures id !in r.dirty && r.dirty <= g.dirty
    ensures forall n :: n in g.Nodes() && n !in g.dirty ==> r.cache[n] == g.cache[n]
    decreases k
  {
    if id !in g.dirty then g
    else
      var local := g.LocalOf(id);
      match g.parent[id]
      case None =>
        g.(cache := g.cache[id := Cache(local, local)], dirty := g.dirty - {id})
      case Some(p) =>
        var above := Resolve(g, p, k - 1);
        above.(cache := above.cache[id := Cache(Multiply(above.cache[p].world, local), local)],
               dirty := above.dirty - {id})
  }

  /** The nodes `UpdateMatrices` on `id` recomputes: the dirty nodes it climbs through. */
  ghost function Climbed(g: Arena, id: NodeId, k: nat): set<NodeId>
    requires Climbs(g, id, k)
    decreases k
  {
    if id !in g.dirty then {}
    else
      match g.parent[id]
      case None => {id}
      case Some(p) => {id} + Climbed(g, p, k - 1)
  }

  /** `UpdateMatrices` cleans exactly the dirty nodes it climbs through, and no other flag changes. */
  lemma {:induction false} ResolveCleansOnlyClimbed(g: Arena, id: NodeId, k: nat)
    requires g.Shaped() && Climbs(g, id, k)
    ensures Resolve(g, id, k).dirty == g.dirty - Climbed(g, id, k)
    ensures Climbed(g, id, k) <= g.dirty
    decreases k
  {
    if id in g.dirty && g.parent[id].Some? {
      ResolveCleansOnlyClimbed(g, g.parent[id].value, k - 1);
    }
  }

  /** The transform of a node composed from the root down, computed from the transforms alone. */
  ghost function WorldOf(g: Arena, id: NodeId, k: nat): Matrix4x4
    requires g.Shaped() && RootedWithin(g, id, k)
    decreases k
  {
    match g.parent[id]
    case None => g.LocalOf(id)
    case Some(p) => Multiply(WorldOf(g, p, k - 1), g.LocalOf(id))
  }

  lemma {:induction false} WorldOfIgnoresCaches(g: Arena, h: Arena, id: NodeId, k: nat)
    requires g.Shaped() && RootedWithin(g, id, k)
    requires h == g.(cache := h.cache, dirty := h.dirty) && h.Shaped()
    ensures RootedWithin(h, id, k) && WorldOf(h, id, k) == WorldOf(g, id, k)
    decreases k
  {
    if g.parent[id].Some? {
      WorldOfIgnoresCaches(g, h, g.parent[id].value, k - 1);
    }
  }

  /** In a valid arena the cached world matrix of a clean node is its composed transform. */
  lemma {:induction false} CleanWorldIsComposed(g: Arena, id: NodeId, k: nat)
    requires Valid(g) && RootedWithin(g, id, k) && id !in g.dirty
    ensures g.cache[id].world == WorldOf(g, id, k)
    decreases k
  {
    assert Fresh(g, id);
    if g.parent[id].Some? {
      CleanParent(g, id);
      CleanWorldIsComposed(g, g.parent[id].value, k - 1);
    }
  }

  /** Making a dirty node clean with the caches `UpdateMatrices` computes keeps the arena valid. */
  lemma CleanedKeepsValid(g: Arena, id: NodeId, world: Matrix4x4)
    requires Valid(g) && id in g.dirty
    requires g.parent[id].None? ==> world == g.LocalOf(id)
    requires g.parent[id].Some? ==>
      var q := g.parent[id].value;
      q in g.Nodes() && q !in g.dirty && world == Multiply(g.cache[q].world, g.LocalOf(id))
    ensures Valid(g.(cache := g.cache[id := Cache(world, g.LocalOf(id))], dirty := g.dirty - {id}))
  {
    var r := g.(cache := g.cache[id := Cache(world, g.LocalOf(id))], dirty := g.dirty - {id});
    assert r.Shaped() && ChildrenUnique(r) && LinksAgree(r);
    forall n | n in r.Nodes() && n !in r.dirty
      ensures Fresh(r, n)
    {
      if n != id {
        assert Fresh(g, n);
        if g.parent[n].Some? {
          CleanParent(g, n);
        }
      }
    }
    forall n, c | n in r.dirty && n in r.children && c in r.children[n] && c in r.Nodes()
      ensures c in r.dirty
    {
      assert g.parent[c] == Some(n) && c != id;
      ChildOfDirty(g, n, c);
    }
  }

  /** `UpdateMatrices` keeps a valid arena valid. */
  lemma {:induction false} ResolveKeepsValid(g: Arena, id: NodeId, k: nat)
    requires Valid(g) && Climbs(g, id, k)
    ensures Valid(Resolve(g, id, k))
    decreases k
  {
    if id in g.dirty {
      match g.parent[id]
      case None =>
        CleanedKeepsValid(g, id, g.LocalOf(id));
      case Some(p) =>
        ResolveKeepsValid(g, p, k - 1);
        var above := Resolve(g, p, k - 1);
        assert above.LocalOf(id) == g.LocalOf(id);
        if id in above.dirty {
          CleanedKeepsValid(above, id, Multiply(above.cache[p].world, g.LocalOf(id)));
        } else {
          assert Fresh(above, id);
          assert Resolve(g, id, k) == above;
        }
    }
  }

  /**
   * The world matrix `UpdateMatrices` leaves on a node of a valid arena is the transform
   * composed from the root down, and its local matrix is the one its transform determines.
   */
  lemma ResolvedWorld(g: Arena, id: NodeId, k: nat)
    requires Valid(g) && RootedWithin(g, id, k)
    ensures Climbs(g, id, k) && var r := Resolve(g, id, k);
      Valid(r) && r.cache[id].world == WorldOf(g, id, k) && r.cache[id].local == g.LocalOf(id)
  {
    RootedClimbs(g, id, k);
    var r := Resolve(g, id, k);
    ResolveKeepsValid(g, id, k);
    WorldOfIgnoresCaches(g, r, id, k);
    CleanWorldIsComposed(r, id, k);
    assert Fresh(r, id);
  }

  /** The node and every ancestor up to the root are clean. */
  ghost predicate CleanChain(g: Arena, id: NodeId, k: nat)
    decreases k
  {
    id in g.parent && id !in g.dirty &&
    match g.parent[id]
    case None => true
    case Some(p) => k > 0 && CleanChain(g, p, k - 1)
  }

  /** After `UpdateMatrices` on a node of a valid arena, the node and all its ancestors are clean. */
  lemma ResolveCleansAncestors(g: Arena, id: NodeId, k: nat)
    requires Valid(g) && RootedWithin(g, id, k)
    ensures Climbs(g, id, k) && CleanChain(Resolve(g, id, k), id, k)
  {
    RootedClimbs(g, id, k);
    ResolveKeepsValid(g, id, k);
    WorldOfIgnoresCaches(g, Resolve(g, id, k), id, k);
    CleanChainOfValid(Resolve(g, id, k), id, k);
  }

  lemma {:induction false} CleanChainOfValid(g: Arena, id: NodeId, k: nat)
    requires Valid(g) && RootedWithin(g, id, k) && id !in g.dirty
    ensures CleanChain(g, id, k)
    decreases k
  {
    if g.parent[id].Some? {
      CleanParent(g, id);
      CleanChainOfValid(g, g.parent[id].value, k - 1);
    }
  }

  // ----- AddChild and RemoveChild -----

  /** `AddChild(c)` on `id`: `id`'s list gains `c` unless present, and `c` names `id` as parent. */
  function ChildAdded(g: Arena, id: NodeId, c: NodeId): (r: Arena)
    requires g.Shaped() && id in g.Nodes() && c in g.Nodes()
    ensures r == g.(parent := r.parent, children := r.children) && r.Shaped()
    ensures r.parent == g.parent[c := Some(id)]
    ensures forall n, x :: n in g.children ==> (x in r.children[n] <==> x in g.children[n] || (n == id && x == c))
    ensures ChildrenUnique(g) ==> ChildrenUnique(r)
  {
    WithParent(Listed(g, id, c), c, Some(id))
  }

  /** `RemoveChild(c)` on `id`: `id`'s list loses `c`, and `c` has no parent, whoever it was. */
  function ChildRemoved(g: Arena, id: NodeId, c: NodeId): (r: Arena)
    requires g.Shaped() && id in g.Nodes() && c in g.Nodes()
    ensures r == g.(parent := r.parent, children := r.children) && r.Shaped()
    ensures r.parent == g.parent[c := None]
    ensures forall n, x :: n in g.children ==> (x in r.children[n] <==> x in g.children[n] && !(n == id && x == c))
    ensures ChildrenUnique(g) ==> ChildrenUnique(r)
  {
    WithParent(Unlisted(g, id, c), c, None)
  }

  /** Adding a node that has no parent keeps the links consistent and the lists duplicate-free. */
  lemma AddOrphanKeepsLinks(g: Arena, id: NodeId, c: NodeId)
    requires g.Shaped() && LinksAgree(g) && ChildrenUnique(g) && id in g.Nodes() && c in g.Nodes()
    requires g.parent[c].None?
    ensures LinksAgree(ChildAdded(g, id, c)) && ChildrenUnique(ChildAdded(g, id, c))
  {
    AddOrphanListsAgree(g, id, c);
    AddOrphanParentsAgree(g, id, c);
  }

  lemma AddOrphanListsAgree(g: Arena, id: NodeId, c: NodeId)
    requires g.Shaped() && ListsNameParents(g) && id in g.Nodes() && c in g.Nodes()
    requires g.parent[c].None?
    ensures ListsNameParents(ChildAdded(g, id, c))
  {
    var r := ChildAdded(g, id, c);
    forall n, x | n in r.children && x in r.children[n]
      ensures x in r.parent && r.parent[x] == Some(n)
    {
      if x != c {
        assert x in g.children[n];
      }
    }
  }

  lemma AddOrphanParentsAgree(g: Arena, id: NodeId, c: NodeId)
    requires g.Shaped() && ParentsListChildren(g) && id in g.Nodes() && c in g.Nodes()
    ensures ParentsListChildren(ChildAdded(g, id, c))
  {
    var r := ChildAdded(g, id, c);
    forall n | n in r.parent && r.parent[n].Some?
      ensures r.parent[n].value in r.children && n in r.children[r.parent[n].value]
    {
      if n != c {
        var q := g.parent[n].value;
        assert n in g.children[q];
      }
    }
  }

  /** Removing a node's own child keeps the links consistent, the lists duplicate-free and the dirty-closure. */
  lemma RemoveOwnChildKeepsLinks(g: Arena, id: NodeId, c: NodeId)
    requires g.Shaped() && LinksAgree(g) && ChildrenUnique(g) && DirtyClosed(g)
    requires id in g.Nodes() && c in g.Nodes() && g.parent[c] == Some(id)
    ensures var r := ChildRemoved(g, id, c);
      LinksAgree(r) && ChildrenUnique(r) && DirtyClosed(r)
  {
    RemoveOwnChildListsAgree(g, id, c);
    RemoveOwnChildParentsAgree(g, id, c);
  }

  lemma RemoveOwnChildListsAgree(g: Arena, id: NodeId, c: NodeId)
    requires g.Shaped() && ListsNameParents(g) && id in g.Nodes() && c in g.Nodes() && g.parent[c] == Some(id)
    ensures ListsNameParents(ChildRemoved(g, id, c))
  {
    var r := ChildRemoved(g, id, c);
    forall n, x | n in r.children && x in r.children[n]
      ensures x in r.parent && r.parent[x] == Some(n)
    {
      assert x in g.children[n];
    }
  }

  lemma RemoveOwnChildParentsAgree(g: Arena, id: NodeId, c: NodeId)
    requires g.Shaped() && ParentsListChildren(g) && id in g.Nodes() && c in g.Nodes()
    ensures ParentsListChildren(ChildRemoved(g, id, c))
  {
    var r := ChildRemoved(g, id, c);
    forall n | n in r.parent && r.parent[n].Some?
      ensures r.parent[n].value in r.children && n in r.children[r.parent[n].value]
    {
      var q := g.parent[n].value;
      assert n in g.children[q];
    }
  }

  /**
   * `RemoveChild` marks nothing dirty: a clean child whose cached world differs from its local
   * matrix (its parent's world is not a unit for it) keeps that stale world once it is a root.
   */
  lemma RemoveChildLeavesStaleCache(g: Arena, id: NodeId, c: NodeId)
    requires Valid(g) && id in g.Nodes() && c in g.Nodes() && g.parent[c] == Some(id) && c !in g.dirty
    requires Multiply(g.cache[id].world, g.cache[c].local) != g.cache[c].local
    ensures var r := ChildRemoved(g, id, c);
      r.cache == g.cache && r.dirty == g.dirty && !Fresh(r, c) && !Valid(r)
  {
    var r := ChildRemoved(g, id, c);
    assert Fresh(g, c);
    assert !Fresh(r, c);
  }

  /**
   * `AddChild` marks nothing dirty either: a clean root added under a clean node whose world
   * is not a unit for it keeps its root world, which is now stale.
   */
  lemma AddChildLeavesStaleCache(g: Arena, id: NodeId, c: NodeId)
    requires Valid(g) && id in g.Nodes() && c in g.Nodes() && g.parent[c].None? && c !in g.dirty
    requires Multiply(g.cache[id].world, g.cache[c].local) != g.cache[c].local
    ensures var r := ChildAdded(g, id, c);
      r.cache == g.cache && r.dirty == g.dirty && !Fresh(r, c) && !Valid(r)
  {
    var r := ChildAdded(g, id, c);
    assert Fresh(g, c);
    assert !Fresh(r, c);
  }

  /** Removing a node's own child and then marking the child dirty, as `SetParent` does, keeps the arena valid. */
  lemma RemoveChildThenMarkKeepsValid(g: Arena, id: NodeId, c: NodeId)
    requires Valid(g) && id in g.Nodes() && c in g.Nodes() && g.parent[c] == Some(id)
    ensures var r := MarkAll(ChildRemoved(g, id, c), [c]);
      Valid(r) && c in r.dirty && r.parent[c].None?
  {
    var h := ChildRemoved(g, id, c);
    RemoveOwnChildKeepsLinks(g, id, c);
    forall n | n in h.Nodes() && n !in h.dirty && n !in {c}
      ensures Fresh(h, n)
    {
      assert Fresh(g, n);
    }
    MarkOneKeepsValid(h, c);
  }

  /** Adding a root as a child and then marking it dirty, as `SetParent` does, keeps the arena valid. */
  lemma AddChildThenMarkKeepsValid(g: Arena, id: NodeId, c: NodeId)
    requires Valid(g) && id in g.Nodes() && c in g.Nodes() && g.parent[c].None?
    ensures var r := MarkAll(ChildAdded(g, id, c), [c]);
      Valid(r) && c in r.dirty && r.parent[c] == Some(id)
  {
    var h := ChildAdded(g, id, c);
    AddOrphanKeepsLinks(g, id, c);
    forall n | n in h.Nodes() && n !in h.dirty && n !in {c}
      ensures Fresh(h, n)
    {
      assert Fresh(g, n);
    }
    MarkOneKeepsValid(h, c);
  }

  /** Three nodes 0, 1, 2, all dirty, with 1 the child of 0. */
  function SmallScene(): Arena
  {
    var unit := Pose(Vec3.Zero, Quat.Identity, Vec3.One);
    var identity := Cache(Matrix4x4.Identity, Matrix4x4.Identity);
    Arena(map[0 := unit, 1 := unit, 2 := unit], map[0 := None, 1 := Some(0), 2 := None],
          map[0 := [1], 1 := [], 2 := []], map[0 := identity, 1 := identity, 2 := identity], {0, 1, 2})
  }

  lemma SmallSceneIsValid()
    ensures Valid(SmallScene())
  {
    var g := SmallScene();
    forall n, c | n in g.children && c in g.children[n]
      ensures c in g.parent && g.parent[c] == Some(n)
    {
      assert n == 0 && c == 1;
    }
  }

  /**
   * `AddChild` does not detach the child from its previous parent: in a valid arena where
   * 1 is the child of 0, `AddChild(1)` on 2 leaves 1 listed by both 0 and 2.
   */
  lemma AddChildBreaksLinks()
    ensures Valid(SmallScene())
    ensures var r := ChildAdded(SmallScene(), 2, 1);
      1 in r.children[0] && 1 in r.children[2] && r.parent[1] == Some(2) && !LinksAgree(r)
  {
    SmallSceneIsValid();
    var r := ChildAdded(SmallScene(), 2, 1);
    assert 1 in r.children[0];
  }

  /**
   * `RemoveChild` clears the parent even when the child belongs to another node: `RemoveChild(1)`
   * on 2 leaves 1 without a parent while 0 still lists it.
   */
  lemma RemoveChildBreaksLinks()
    ensures Valid(SmallScene())
    ensures var r := ChildRemoved(SmallScene(), 2, 1);
      1 in r.children[0] && r.parent[1].None? && !LinksAgree(r)
  {
    SmallSceneIsValid();
    var r := ChildRemoved(SmallScene(), 2, 1);
    assert 1 in r.children[0];
  }

  /** A dirty root 0 and a clean root 1 with up-to-date caches. */
  function DirtyAndCleanRoots(): Arena
  {
    var unit := Pose(Vec3.Zero, Quat.Identity, Vec3.One);
    var local := unit.Matrix();
    Arena(map[0 := unit, 1 := unit], map[0 := None, 1 := None], map[0 := [], 1 := []],
          map[0 := Cache(Matrix4x4.Identity, Matrix4x4.Identity), 1 := Cache(local, local)], {0})
  }

  lemma DirtyAndCleanRootsIsValid()
    ensures Valid(DirtyAndCleanRoots())
  {
    assert Fresh(DirtyAndCleanRoots(), 1);
  }

  /**
   * `AddChild` does not mark the child dirty: adding the clean root 1 under the dirty node 0
   * keeps the links consistent but leaves a clean child under a dirty parent, and a later
   * `MarkDirty` on 0 returns at once without reaching 1.
   */
  lemma AddChildBreaksDirtyClosure()
    ensures Valid(DirtyAndCleanRoots())
    ensures var r := ChildAdded(DirtyAndCleanRoots(), 0, 1);
      LinksAgree(r) && !DirtyClosed(r) && 1 !in MarkAll(r, [0]).dirty
  {
    var g := DirtyAndCleanRoots();
    DirtyAndCleanRootsIsValid();
    AddOrphanListsAgree(g, 0, 1);
    AddOrphanParentsAgree(g, 0, 1);
    var r := ChildAdded(g, 0, 1);
    assert 0 in r.dirty && 0 in r.children && 1 in r.children[0] && 1 in r.Nodes() && 1 !in r.dirty;
    assert MarkAll(r, [0]) == MarkAll(r, []);
  }

  /**
   * Two clean nodes 0 and 1 that are each other's parent, as `AddChild` on both leaves them,
   * and a dirty node 2 whose parent is 0; every transform is the default one.
   */
  function CleanCycle(): Arena
  {
    var unit := Pose(Vec3.Zero, Quat.Identity, Vec3.One);
    var identity := Cache(Matrix4x4.Identity, Matrix4x4.Identity);
    Arena(map[0 := unit, 1 := unit, 2 := unit], map[0 := Some(1), 1 := Some(0), 2 := Some(0)],
          map[0 := [1, 2], 1 := [0], 2 := []], map[0 := identity, 1 := identity, 2 := identity], {2})
  }

  /** The default transform determines the identity matrix. */
  lemma DefaultPoseIsIdentity()
    ensures Pose(Vec3.Zero, Quat.Identity, Vec3.One).Matrix() == Matrix4x4.Identity
  {
    PRSWithoutRotationOrScale(Vec3.Zero);
    assert Matrix4x4.FromPosition(Vec3.Zero) == Matrix4x4.Identity;
  }

  lemma CleanCycleIsValid()
    ensures Valid(CleanCycle())
  {
    CleanCycleLinksAgree();
    CleanCycleIsFresh();
  }

  lemma CleanCycleLinksAgree()
    ensures CleanCycle().Shaped() && ChildrenUnique(CleanCycle()) && LinksAgree(CleanCycle())
  {
    var g := CleanCycle();
    forall n, c | n in g.children && c in g.children[n]
      ensures c in g.parent && g.parent[c] == Some(n)
    {
      assert (n == 0 && (c == 1 || c == 2)) || (n == 1 && c == 0);
    }
  }

  lemma CleanCycleIsFresh()
    ensures CleanCycle().Shaped() && FreshUpTo(CleanCycle(), {}) && DirtyClosed(CleanCycle())
  {
    var g := CleanCycle();
    DefaultPoseIsIdentity();
    assert Multiply(Matrix4x4.Identity, Matrix4x4.Identity) == Matrix4x4.Identity by {
      Matrix.IdentityIsUnit(Matrix4x4.Identity, Vec4(0.0, 0.0, 0.0, 0.0));
    }
    assert Fresh(g, 0) && Fresh(g, 1);
  }

  lemma {:induction false} CleanCycleNeverRooted(k: nat)
    ensures !RootedWithin(CleanCycle(), 0, k) && !RootedWithin(CleanCycle(), 1, k)
  {
    if k > 0 {
      CleanCycleNeverRooted(k - 1);
    }
  }

  /**
   * `UpdateMatrices` needs no root: on the dirty node 2 below the clean cycle it stops at the
   * clean parent 0 after one step and leaves a valid arena, though no root is ever reached.
   */
  lemma DirtyBelowCleanCycleResolves(k: nat)
    ensures Valid(CleanCycle()) && Climbs(CleanCycle(), 2, 1) && !RootedWithin(CleanCycle(), 2, k)
    ensures var r := Resolve(CleanCycle(), 2, 1);
      Valid(r) && r.dirty == {} && r.cache[2].world == Multiply(CleanCycle().cache[0].world, CleanCycle().LocalOf(2))
  {
    CleanCycleIsValid();
    if k > 0 {
      CleanCycleNeverRooted(k - 1);
    }
    ResolveKeepsValid(CleanCycle(), 2, 1);
  }

  /** A new node has no links, so adding it keeps the links consistent and the dirty-closure. */
  lemma AddedKeepsLinks(g: Arena, id: NodeId, position: Vec3, rotation: Quat, scale: Vec3)
    requires g.Shaped() && ChildrenUnique(g) && LinksAgree(g) && DirtyClosed(g) && id !in g.Nodes()
    ensures var r := Added(g, id, position, rotation, scale);
      ChildrenUnique(r) && LinksAgree(r) && DirtyClosed(r)
  {
    AddedListsAgree(g, id, position, rotation, scale);
    AddedParentsAgree(g, id, position, rotation, scale);
  }

  lemma AddedListsAgree(g: Arena, id: NodeId, position: Vec3, rotation: Quat, scale: Vec3)
    requires g.Shaped() && ListsNameParents(g) && id !in g.Nodes()
    ensures ListsNameParents(Added(g, id, position, rotation, scale))
  {
    var r := Added(g, id, position, rotation, scale);
    forall n, c | n in r.children && c in r.children[n]
      ensures c in r.parent && r.parent[c] == Some(n)
    {
      assert c in g.children[n];
    }
  }

  lemma AddedParentsAgree(g: Arena, id: NodeId, position: Vec3, rotation: Quat, scale: Vec3)
    requires g.Shaped() && ParentsListChildren(g) && id !in g.Nodes()
    ensures ParentsListChildren(Added(g, id, position, rotation, scale))
  {
    var r := Added(g, id, position, rotation, scale);
    forall n | n in r.parent && r.parent[n].Some?
      ensures r.parent[n].value in r.children && n in r.children[r.parent[n].value]
    {
      var q := g.parent[n].value;
      assert n in g.children[q];
    }
  }

  /** A node created by a constructor is a valid root, before any recomputation. */
  lemma AddedKeepsValid(g: Arena, id: NodeId, position: Vec3, rotation: Quat, scale: Vec3)
    requires Valid(g) && id !in g.Nodes()
    ensures Valid(Added(g, id, position, rotation, scale))
    ensures RootedWithin(Added(g, id, position, rotation, scale), id, 0)
  {
    var r := Added(g, id, position, rotation, scale);
    AddedKeepsLinks(g, id, position, rotation, scale);
    forall n | n in r.Nodes() && n !in r.dirty
      ensures Fresh(r, n)
    {
      assert Fresh(g, n);
    }
  }

  // ----- Pointer closure -----

  /** Appending a node of the arena to a list keeps every pointer inside the arena. */
  lemma ListedKeepsClosed(g: Arena, q: NodeId, c: NodeId)
    requires g.Shaped() && Closed(g) && q in g.Nodes() && c in g.Nodes()
    ensures Closed(Listed(g, q, c))
  {
    var r := Listed(g, q, c);
    forall n, x | n in r.children && x in r.children[n]
      ensures x in r.parent
    {
      if n != q || x != c {
        assert x in g.children[n];
      }
    }
  }

  /** Erasing from a list keeps every pointer inside the arena. */
  lemma UnlistedKeepsClosed(g: Arena, q: NodeId, c: NodeId)
    requires g.Shaped() && Closed(g) && q in g.Nodes()
    ensures Closed(Unlisted(g, q, c))
  {
    var r := Unlisted(g, q, c);
    forall n, x | n in r.children && x in r.children[n]
      ensures x in r.parent
    {
      assert x in g.children[n];
    }
  }

  /** Pointing a node at a node of the arena, or at nothing, keeps every pointer inside the arena. */
  lemma WithParentKeepsClosed(g: Arena, c: NodeId, p: Option<NodeId>)
    requires g.Shaped() && Closed(g) && c in g.Nodes() && (p.Some? ==> p.value in g.Nodes())
    ensures Closed(WithParent(g, c, p))
  {
    var r := WithParent(g, c, p);
    forall n, x | n in r.children && x in r.children[n]
      ensures x in r.parent
    {
      assert x in g.children[n];
    }
  }

  /** A new node has no pointers, so the arena stays closed. */
  lemma AddedKeepsClosed(g: Arena, id: NodeId, position: Vec3, rotation: Quat, scale: Vec3)
    requires g.Shaped() && Closed(g) && id !in g.Nodes()
    ensures Closed(Added(g, id, position, rotation, scale))
  {
    var r := Added(g, id, position, rotation, scale);
    forall n, x | n in r.children && x in r.children[n]
      ensures x in r.parent
    {
      assert x in g.children[n];
    }
  }

  /**
   * `SetParent` performs the relinking as `RemoveChildInternal` on the old parent,
   * `SetParentInternal`, then `AddChildInternal` on the new parent; this is `Reparented`.
   */
  lemma ReparentedInSteps(g: Arena, id: NodeId, p: Option<NodeId>)
    requires g.Shaped() && id in g.Nodes() && ParentPresent(g, id)
    requires (p.Some? ==> p.value in g.Nodes()) && p != g.parent[id]
    ensures var unlisted := if g.parent[id].Some? then Unlisted(g, g.parent[id].value, id) else g;
      var linked := WithParent(unlisted, id, p);
      Reparented(g, id, p) == if p.Some? then Listed(linked, p.value, id) else linked
  {
    var unlisted := if g.parent[id].Some? then Unlisted(g, g.parent[id].value, id) else g;
    assert unlisted.parent == g.parent;
    assert g.parent[id := None][id := p] == g.parent[id := p];
  }
}
