/**
 * `Component` objects and the process-wide registry that drives them.
 *
 * `World` holds the members of every `Component` as maps from the component's address
 * (`Ref`), the registry `components` (keyed by id, iterated in ascending id order), the
 * `createList` and `destroyList` queues, and the `Scene` in which every component's embedded
 * `Spatial` lives. A component embeds its `Spatial` by value, so the two share a lifetime
 * and are in one-to-one correspondence; the model gives the embedded `Spatial` the
 * component's own address as its node id.
 *
 * The seven lifecycle hooks are virtual functions whose default bodies are empty; a call to
 * one is recorded as an `Event` appended to `trace`. Hooks that create or destroy components
 * while a pass iterates are outside the model: a recorded call changes nothing else.
 */
module Components {
  import opened Wrappers
  import opened Vector
  import opened Quaternion
  import opened SpatialArena
  import Spatial
  import Uuid

  /** The address of a `Component`, which is also the node id of its embedded `Spatial`. */
  type Ref = NodeId

  /** The seven virtual hooks of `Component`. */
  datatype Hook = CreateEvent | DestroyEvent | UpdateEvent | FixedUpdateEvent | Render3DEvent | Render2DEvent | RenderGUIEvent

  /** A call of `hook` on the component at `target`. */
  datatype Event = Event(hook: Hook, target: Ref)

  // ----- The order of the registry -----

  /**
   * `std::less<>` on `std::string`: lexicographic comparison, a proper prefix coming first.
   * The registry keeps its keys, and its passes visit them, in this order.
   */
  predicate Below(a: string, b: string)
    decreases |a|
  {
    if a == [] then b != []
    else b != [] && (a[0] < b[0] || (a[0] == b[0] && Below(a[1..], b[1..])))
  }

  lemma {:induction false} BelowIrreflexive(a: string)
    ensures !Below(a, a)
    decreases |a|
  {
    if a != [] {
      BelowIrreflexive(a[1..]);
    }
  }

  lemma {:induction false} BelowTransitive(a: string, b: string, c: string)
    requires Below(a, b) && Below(b, c)
    ensures Below(a, c)
    decreases |a|
  {
    if a != [] && a[0] == b[0] && b[0] == c[0] {
      BelowTransitive(a[1..], b[1..], c[1..]);
    }
  }

  lemma {:induction false} BelowTotal(a: string, b: string)
    ensures a == b || Below(a, b) || Below(b, a)
    decreases |a|
  {
    if a != [] && b != [] && a[0] == b[0] {
      BelowTotal(a[1..], b[1..]);
      if a[1..] == b[1..] {
        assert a == [a[0]] + a[1..] && b == [b[0]] + b[1..];
      }
    }
  }

  /** `m` comes before every other key of `keys`. */
  ghost predicate IsFirst(m: string, keys: set<string>)
  {
    m in keys && forall k {:trigger Below(m, k)} :: k in keys && k != m ==> Below(m, k)
  }

  /** A nonempty set of keys has exactly one first key. */
  lemma FirstUnique(m1: string, m2: string, keys: set<string>)
    requires IsFirst(m1, keys) && IsFirst(m2, keys)
    ensures m1 == m2
  {
    if m1 != m2 {
      BelowTransitive(m1, m2, m1);
      BelowIrreflexive(m1);
    }
  }

  /**
   * The key a map iteration visits first: the loop keeps the first key among those looked at,
   * which is the first of all of them once every key has been looked at.
   */
  method First(keys: set<string>) returns (m: string)
    requires keys != {}
    ensures IsFirst(m, keys)
  {
    m :| m in keys;
    var rest := keys - {m};
    while rest != {}
      invariant rest <= keys && m in keys && m !in rest
      invariant forall k :: k in keys && k !in rest && k != m ==> Below(m, k)
      decreases |rest|
    {
      var k :| k in rest;
      if Below(k, m) {
        forall j | j in keys && j !in rest && j != k
          ensures Below(k, j)
        {
          if j != m {
            BelowTransitive(k, m, j);
          }
        }
        m := k;
      } else {
        BelowTotal(k, m);
      }
      rest := rest - {k};
    }
  }

  /** The keys in strictly ascending order. */
  ghost predicate Ascending(s: seq<string>)
  {
    forall i, j {:trigger Below(s[i], s[j])} :: 0 <= i < j < |s| ==> Below(s[i], s[j])
  }

  lemma FirstExists(keys: set<string>)
    requires keys != {}
    ensures exists m :: IsFirst(m, keys)
    decreases |keys|
  {
    var k :| k in keys;
    if keys != {k} {
      FirstExists(keys - {k});
      var m :| IsFirst(m, keys - {k});
      BelowTotal(k, m);
      if Below(k, m) {
        forall j | j in keys && j != k
          ensures Below(k, j)
        {
          if j != m {
            BelowTransitive(k, m, j);
          }
        }
        assert IsFirst(k, keys);
      } else {
        assert IsFirst(m, keys);
      }
    } else {
      assert IsFirst(k, keys);
    }
  }

  /** The order in which iterating the registry visits its keys: each key once. */
  ghost function InOrder(keys: set<string>): (s: seq<string>)
    ensures |s| == |keys| && forall i :: 0 <= i < |s| ==> s[i] in keys
    decreases |keys|
  {
    if keys == {} then []
    else
      FirstExists(keys);
      var m :| IsFirst(m, keys);
      var rest := InOrder(keys - {m});
      [m] + rest
  }

  /** The iteration order is ascending. */
  lemma {:induction false} InOrderAscending(keys: set<string>)
    ensures Ascending(InOrder(keys))
    decreases |keys|
  {
    if keys != {} {
      FirstExists(keys);
      var m :| IsFirst(m, keys);
      InOrderFirst(keys, m);
      var s, rest := InOrder(keys), InOrder(keys - {m});
      InOrderAscending(keys - {m});
      forall i, j | 0 <= i < j < |s|
        ensures Below(s[i], s[j])
      {
        if i == 0 {
          assert s[j] == rest[j - 1] && rest[j - 1] in keys - {m};
        } else {
          assert s[i] == rest[i - 1] && s[j] == rest[j - 1];
        }
      }
    }
  }

  /** The iteration order visits every key. */
  lemma {:induction false} InOrderCovers(keys: set<string>)
    ensures forall k :: k in keys <==> k in InOrder(keys)
    decreases |keys|
  {
    if keys != {} {
      FirstExists(keys);
      var m :| IsFirst(m, keys);
      InOrderFirst(keys, m);
      InOrderCovers(keys - {m});
    }
  }

  /** Removing the first key leaves the order of the others unchanged. */
  lemma InOrderFirst(keys: set<string>, m: string)
    requires IsFirst(m, keys)
    ensures InOrder(keys) == [m] + InOrder(keys - {m})
  {
    var m' :| IsFirst(m', keys) && InOrder(keys) == [m'] + InOrder(keys - {m'});
    FirstUnique(m, m', keys);
  }

  /**
   * Where an iteration stands: when the keys left are `rest` and the order from position
   * `n` on is theirs, the first of them is at `n`, and the order of the others starts at `n + 1`.
   */
  lemma InOrderStep(order: seq<string>, n: nat, rest: set<string>, m: string)
    requires n <= |order| && InOrder(rest) == order[n..] && IsFirst(m, rest)
    ensures n < |order| && order[n] == m && InOrder(rest - {m}) == order[n + 1..]
  {
    InOrderFirst(rest, m);
    assert order[n..][0] == m;
    assert order[n..][1..] == order[n + 1..];
  }

  /** Any ascending listing of the keys, each once, is the iteration order. */
  lemma {:induction false} AscendingIsInOrder(s: seq<string>, keys: set<string>)
    requires Ascending(s) && forall k :: k in s <==> k in keys
    ensures s == InOrder(keys)
    decreases |s|
  {
    if s == [] {
      assert keys == {};
    } else {
      AscendingHeadIsFirst(s, keys);
      InOrderFirst(keys, s[0]);
      AscendingTail(s, keys);
      AscendingIsInOrder(s[1..], keys - {s[0]});
      assert s == [s[0]] + s[1..];
    }
  }

  /** The head of an ascending listing of the keys is the first key. */
  lemma AscendingHeadIsFirst(s: seq<string>, keys: set<string>)
    requires Ascending(s) && (forall k :: k in s <==> k in keys) && s != []
    ensures IsFirst(s[0], keys)
  {
    forall k | k in keys && k != s[0]
      ensures Below(s[0], k)
    {
      var i :| 0 <= i < |s| && s[i] == k;
    }
  }

  /** The tail of an ascending listing of the keys is an ascending listing of the others. */
  lemma AscendingTail(s: seq<string>, keys: set<string>)
    requires Ascending(s) && (forall k :: k in s <==> k in keys) && s != []
    ensures Ascending(s[1..]) && forall k :: k in s[1..] <==> k in keys - {s[0]}
  {
    forall k
      ensures k in s[1..] <==> k in keys - {s[0]}
    {
      if k in s[1..] {
        var i :| 1 <= i < |s| && s[i] == k;
        BelowIrreflexive(s[0]);
      }
      if k in keys - {s[0]} {
        var i :| 0 <= i < |s| && s[i] == k;
        assert s[1..][i - 1] == k;
      }
    }
    forall i, j | 0 <= i < j < |s[1..]|
      ensures Below(s[1..][i], s[1..][j])
    {
      assert s[1..][i] == s[i + 1] && s[1..][j] == s[j + 1];
    }
  }

  /** The calls of `hook` on the components registered under `order`, in that order. */
  function Calls(hook: Hook, order: seq<string>, registry: map<string, Ref>): (r: seq<Event>)
    requires forall i :: 0 <= i < |order| ==> order[i] in registry
    ensures |r| == |order|
  {
    if order == [] then []
    else Calls(hook, order[..|order| - 1], registry) + [Event(hook, registry[order[|order| - 1]])]
  }

  /** The `i`-th call is on the component registered under the `i`-th id. */
  lemma {:induction false} CallsAt(hook: Hook, order: seq<string>, registry: map<string, Ref>)
    requires forall i :: 0 <= i < |order| ==> order[i] in registry
    ensures forall i :: 0 <= i < |order| ==> Calls(hook, order, registry)[i] == Event(hook, registry[order[i]])
  {
    if order != [] {
      CallsAt(hook, order[..|order| - 1], registry);
    }
  }

  /** One more id of the order is one more call at the end. */
  lemma CallsStep(hook: Hook, order: seq<string>, n: nat, registry: map<string, Ref>)
    requires n < |order| && forall i :: 0 <= i < |order| ==> order[i] in registry
    ensures Calls(hook, order[..n + 1], registry) == Calls(hook, order[..n], registry) + [Event(hook, registry[order[n]])]
  {
    assert order[..n + 1][..n] == order[..n];
  }

  /** One more id in the order is one more call at the end. */
  lemma CallsExtended(hook: Hook, order: seq<string>, k: string, registry: map<string, Ref>)
    requires (forall i :: 0 <= i < |order| ==> order[i] in registry) && k in registry
    ensures Calls(hook, order + [k], registry) == Calls(hook, order, registry) + [Event(hook, registry[k])]
  {
    assert (order + [k])[..|order|] == order;
  }

  /** No id occurs twice. */
  ghost predicate Distinct(s: seq<string>)
  {
    forall i, j :: 0 <= i < j < |s| ==> s[i] != s[j]
  }

  /** The ids a queue holds. */
  function Members(s: seq<string>): set<string>
  {
    set k | k in s
  }

  /** Every recorded call of `Calls(hook, ...)` is a call of `hook`. */
  lemma {:induction false} CallsHook(hook: Hook, order: seq<string>, registry: map<string, Ref>)
    requires forall i :: 0 <= i < |order| ==> order[i] in registry
    ensures forall e :: e in Calls(hook, order, registry) ==> e.hook == hook
  {
    if order != [] {
      CallsHook(hook, order[..|order| - 1], registry);
    }
  }

  /**
   * When no two ids of `order` are registered to the same component, the calls on the
   * component registered under `order[j]` are the single call at position `j`.
   */
  lemma CallsOnce(hook: Hook, order: seq<string>, registry: map<string, Ref>, j: nat)
    requires j < |order| && Distinct(order) && forall i :: 0 <= i < |order| ==> order[i] in registry
    requires forall a, b :: a in registry && b in registry && registry[a] == registry[b] ==> a == b
    ensures forall i :: 0 <= i < |order| && Calls(hook, order, registry)[i] == Event(hook, registry[order[j]]) ==> i == j
    ensures Calls(hook, order, registry)[j] == Event(hook, registry[order[j]])
  {
    CallsAt(hook, order, registry);
  }

  /** An ascending order names no id twice. */
  lemma AscendingDistinct(s: seq<string>)
    requires Ascending(s)
    ensures Distinct(s)
  {
    forall i, j | 0 <= i < j < |s|
      ensures s[i] != s[j]
    {
      assert Below(s[i], s[j]);
      BelowIrreflexive(s[i]);
    }
  }

  /** An event found at one position of a trace and at no other occurs there once. */
  lemma OccursOnce(t: seq<Event>, e: Event, p: nat)
    requires p < |t| && t[p] == e && forall i :: 0 <= i < |t| && t[i] == e ==> i == p
    ensures |set i | 0 <= i < |t| && t[i] == e| == 1
  {
    assert (set i | 0 <= i < |t| && t[i] == e) == {p};
  }

  /**
   * `DefaultRenderPipeline::RenderEvent`: the 3D pass while a camera is set, then the 2D pass
   * and the GUI pass, each over the registry in ascending id order.
   */
  ghost function RenderTrace(registry: map<string, Ref>, cameraSet: bool): seq<Event>
  {
    var order := InOrder(registry.Keys);
    (if cameraSet then Calls(Render3DEvent, order, registry) else []) +
    Calls(Render2DEvent, order, registry) + Calls(RenderGUIEvent, order, registry)
  }

  /** A render calls only render hooks, the 3D one only while a camera is set. */
  lemma RenderHooks(registry: map<string, Ref>, cameraSet: bool)
    ensures forall e :: e in RenderTrace(registry, cameraSet) ==>
      e.hook in {Render3DEvent, Render2DEvent, RenderGUIEvent} && (e.hook == Render3DEvent ==> cameraSet)
  {
    var order := InOrder(registry.Keys);
    CallsHook(Render3DEvent, order, registry);
    CallsHook(Render2DEvent, order, registry);
    CallsHook(RenderGUIEvent, order, registry);
  }

  /**
   * What a frame of `StartApplication`'s loop calls: the create pass, the destroy pass, the
   * update pass, then `RenderEvent` of the default pipeline. The fixed-update pass is not
   * part of a frame.
   */
  ghost function FrameTrace(created: seq<string>, destroyed: seq<string>, registry: map<string, Ref>, cameraSet: bool): seq<Event>
    requires forall i :: 0 <= i < |created| ==> created[i] in registry
    requires forall i :: 0 <= i < |destroyed| ==> destroyed[i] in registry
  {
    var survivors := registry - Members(destroyed);
    Calls(CreateEvent, created, registry) + Calls(DestroyEvent, destroyed, registry) +
    Calls(UpdateEvent, InOrder(survivors.Keys), survivors) + RenderTrace(survivors, cameraSet)
  }

  /** A frame never calls the fixed-update hook. */
  lemma FrameSkipsFixedUpdate(created: seq<string>, destroyed: seq<string>, registry: map<string, Ref>, cameraSet: bool)
    requires forall i :: 0 <= i < |created| ==> created[i] in registry
    requires forall i :: 0 <= i < |destroyed| ==> destroyed[i] in registry
    ensures forall e :: e in FrameTrace(created, destroyed, registry, cameraSet) ==> e.hook != FixedUpdateEvent
  {
    var survivors := registry - Members(destroyed);
    CallsHook(CreateEvent, created, registry);
    CallsHook(DestroyEvent, destroyed, registry);
    CallsHook(UpdateEvent, InOrder(survivors.Keys), survivors);
    RenderHooks(survivors, cameraSet);
  }

  /**
   * The update calls of a frame are the calls of the update pass, which lies between the
   * destroy pass and the render.
   */
  lemma FrameUpdates(created: seq<string>, destroyed: seq<string>, registry: map<string, Ref>, cameraSet: bool, i: nat)
    requires forall i :: 0 <= i < |created| ==> created[i] in registry
    requires forall i :: 0 <= i < |destroyed| ==> destroyed[i] in registry
    requires i < |FrameTrace(created, destroyed, registry, cameraSet)|
    ensures var survivors := registry - Members(destroyed);
      var updates := Calls(UpdateEvent, InOrder(survivors.Keys), survivors);
      var base := |created| + |destroyed|;
      if base <= i < base + |updates| then FrameTrace(created, destroyed, registry, cameraSet)[i] == updates[i - base]
      else FrameTrace(created, destroyed, registry, cameraSet)[i].hook != UpdateEvent
  {
    var survivors := registry - Members(destroyed);
    var before := Calls(CreateEvent, created, registry) + Calls(DestroyEvent, destroyed, registry);
    var updates := Calls(UpdateEvent, InOrder(survivors.Keys), survivors);
    var after := RenderTrace(survivors, cameraSet);
    var t := FrameTrace(created, destroyed, registry, cameraSet);
    assert t == before + updates + after;
    if i < |before| {
      CallsHook(CreateEvent, created, registry);
      CallsHook(DestroyEvent, destroyed, registry);
      assert t[i] == before[i] && before[i] in before;
    } else if i >= |before| + |updates| {
      RenderHooks(survivors, cameraSet);
      var e := after[i - |before| - |updates|];
      assert t[i] == e && e in after;
    }
  }

  /** An update call that the update pass makes only at position `j` appears only there in the frame trace. */
  lemma FrameUpdateOnlyAt(created: seq<string>, destroyed: seq<string>, registry: map<string, Ref>, cameraSet: bool, j: nat, e: Event)
    requires forall i :: 0 <= i < |created| ==> created[i] in registry
    requires forall i :: 0 <= i < |destroyed| ==> destroyed[i] in registry
    requires e.hook == UpdateEvent
    requires var survivors := registry - Members(destroyed);
      var order := InOrder(survivors.Keys);
      forall i :: 0 <= i < |order| && Calls(UpdateEvent, order, survivors)[i] == e ==> i == j
    ensures forall i :: (0 <= i < |FrameTrace(created, destroyed, registry, cameraSet)| &&
                         FrameTrace(created, destroyed, registry, cameraSet)[i] == e) ==> i == |created| + |destroyed| + j
  {
    forall i | 0 <= i < |FrameTrace(created, destroyed, registry, cameraSet)| && FrameTrace(created, destroyed, registry, cameraSet)[i] == e
      ensures i == |created| + |destroyed| + j
    {
      FrameUpdates(created, destroyed, registry, cameraSet, i);
    }
  }

  /**
   * In a frame, every component that survives the destroy pass gets exactly one update call
   * when no two registered ids hold the same component.
   */
  lemma FrameUpdatesSurvivor(created: seq<string>, destroyed: seq<string>, registry: map<string, Ref>, cameraSet: bool, k: string)
    requires forall i :: 0 <= i < |created| ==> created[i] in registry
    requires forall i :: 0 <= i < |destroyed| ==> destroyed[i] in registry
    requires forall a, b :: a in registry && b in registry && registry[a] == registry[b] ==> a == b
    requires k in registry && k !in destroyed
    ensures |set i | 0 <= i < |FrameTrace(created, destroyed, registry, cameraSet)| &&
                     FrameTrace(created, destroyed, registry, cameraSet)[i] == Event(UpdateEvent, registry[k])| == 1
  {
    var survivors := registry - Members(destroyed);
    var order := InOrder(survivors.Keys);
    var t := FrameTrace(created, destroyed, registry, cameraSet);
    var base := |created| + |destroyed|;
    InOrderCovers(survivors.Keys);
    InOrderAscending(survivors.Keys);
    AscendingDistinct(order);
    assert k in survivors;
    var j :| 0 <= j < |order| && order[j] == k;
    CallsOnce(UpdateEvent, order, survivors, j);
    FrameUpdates(created, destroyed, registry, cameraSet, base + j);
    FrameUpdateOnlyAt(created, destroyed, registry, cameraSet, j, Event(UpdateEvent, registry[k]));
    OccursOnce(t, Event(UpdateEvent, registry[k]), base + j);
  }

  /** A component whose id is destroyed in a frame gets no update call in it. */
  lemma FrameSkipsDestroyed(created: seq<string>, destroyed: seq<string>, registry: map<string, Ref>, cameraSet: bool, k: string)
    requires forall i :: 0 <= i < |created| ==> created[i] in registry
    requires forall i :: 0 <= i < |destroyed| ==> destroyed[i] in registry
    requires forall a, b :: a in registry && b in registry && registry[a] == registry[b] ==> a == b
    requires k in destroyed
    ensures k in registry && Event(UpdateEvent, registry[k]) !in FrameTrace(created, destroyed, registry, cameraSet)
  {
    var survivors := registry - Members(destroyed);
    var order := InOrder(survivors.Keys);
    var t := FrameTrace(created, destroyed, registry, cameraSet);
    var base := |created| + |destroyed|;
    forall i | 0 <= i < |t|
      ensures t[i] != Event(UpdateEvent, registry[k])
    {
      FrameUpdates(created, destroyed, registry, cameraSet, i);
      if base <= i < base + |order| {
        CallsAt(UpdateEvent, order, survivors);
        var m := order[i - base];
        assert m in survivors && k !in survivors;
      }
    }
  }

  // ----- Components and the registry -----

  /** Each registry entry holds the component whose id is its key. */
  ghost predicate Registered(registry: map<string, Ref>, uuid: map<Ref, string>)
  {
    forall k :: k in registry ==> registry[k] in uuid && uuid[registry[k]] == k
  }

  /** Erasing an entry keeps every other entry holding the component with its id. */
  lemma RegisteredErased(registry: map<string, Ref>, uuid: map<Ref, string>, k: string)
    requires Registered(registry, uuid)
    ensures Registered(registry - {k}, uuid)
  {
  }

  /**
   * Erasing the ids of a queue of distinct registered ids one at a time: the next id is still
   * registered, and erasing it leaves the registry without one more id of the queue.
   */
  lemma MembersStep(registry: map<string, Ref>, queue: seq<string>, i: nat)
    requires i < |queue| && Distinct(queue) && forall j :: 0 <= j < |queue| ==> queue[j] in registry
    ensures queue[i] in registry - Members(queue[..i])
    ensures (registry - Members(queue[..i])) - {queue[i]} == registry - Members(queue[..i + 1])
  {
    assert queue[..i + 1] == queue[..i] + [queue[i]];
    assert Members(queue[..i + 1]) == Members(queue[..i]) + {queue[i]};
  }

  /** A component that is not in the id map yet holds no registry entry. */
  lemma RegisteredAdded(registry: map<string, Ref>, uuid: map<Ref, string>, c: Ref, id: string)
    requires Registered(registry, uuid) && c !in uuid
    ensures Registered(registry, uuid[c := id])
  {
    forall k | k in registry
      ensures registry[k] != c
    {
    }
  }

  /** Recording calls after calls already recorded. */
  lemma Recorded(trace: seq<Event>, done: seq<Event>, calls: seq<Event>)
    ensures (trace + done) + calls == trace + (done + calls)
  {
  }

  class World {
    /** `mId` of every component. */
    var uuid: map<Ref, string>
    /** `mName` of every component. */
    var name: map<Ref, string>
    /** `mParent` of every component. */
    var parent: map<Ref, Option<Ref>>
    /** `mChildren` of every component. */
    var children: map<Ref, seq<Ref>>
    /** The registry `components`, from id to the component holding it. */
    var components: map<string, Ref>
    /** `createList` */
    var createList: seq<string>
    /** `destroyList` */
    var destroyList: seq<string>
    /** The hook calls made so far. */
    var trace: seq<Event>
    /** The embedded `Spatial` of every component. */
    const scene: Spatial.Scene

    /**
     * Every component has an id, a name, a parent pointer and a child list, and the component
     * tree and the tree of their embedded `Spatial`s are the same tree.
     */
    ghost predicate Mirrored()
      reads this`uuid, this`name, this`parent, this`children, scene
    {
      scene.Linked() && (forall r :: (r in parent <==> r in uuid) && (r in parent <==> r in name)) &&
      scene.parent == parent && scene.children == children
    }

    /** The trees mirror each other, and each registry entry holds the component with its id. */
    ghost predicate Valid()
      reads this`uuid, this`name, this`parent, this`children, this`components, scene
    {
      Mirrored() && Registered(components, uuid)
    }

    /** The state before any component exists. */
    constructor ()
      ensures Valid() && parent == map[] && components == map[]
      ensures createList == [] && destroyList == [] && trace == []
    {
      uuid, name, parent, children := map[], map[], map[], map[];
      components, createList, destroyList, trace := map[], [], [], [];
      scene := new Spatial.Scene();
    }

    // ----- Creation -----

    /**
     * `Component()`: a new component with an id drawn by `GenerateUUID`, an empty name, no
     * parent, no children and a default `Spatial`. It is not registered yet.
     */
    method Construct(digits: seq<Uuid.Nibble>, variant: Uuid.Variant) returns (c: Ref)
      requires Mirrored() && Registered(components, uuid) && |digits| == 30
      modifies this`uuid, this`name, this`parent, this`children, scene
      ensures Mirrored() && Registered(components, uuid) && c !in old(parent)
      ensures uuid == old(uuid)[c := Uuid.Layout(digits, variant)] && name == old(name)[c := ""]
      ensures parent == old(parent)[c := None] && children == old(children)[c := []]
      ensures scene.State() == Added(old(scene.State()), c, Vec3.Zero, Quat.Identity, Vec3.One)
    {
      c := scene.NewNode();
      var id := Uuid.GenerateUUID(digits, variant);
      RegisteredAdded(components, uuid, c, id);
      uuid, name, parent, children := uuid[c := id], name[c := ""], parent[c := None], children[c := []];
    }

    /**
     * `CreateComponent<T>`: a new component (an id drawn by `GenerateUUID`, no parent, no
     * children, a default `Spatial`), named after its type and registered. When its id is
     * already registered, the registry keeps the earlier component.
     */
    method CreateComponent(typeName: string, digits: seq<Uuid.Nibble>, variant: Uuid.Variant) returns (c: Ref)
      requires Valid() && |digits| == 30
      modifies this`uuid, this`name, this`parent, this`children, this`components, this`createList, scene
      ensures Valid() && c !in old(parent)
      ensures uuid == old(uuid)[c := Uuid.Layout(digits, variant)] && name == old(name)[c := typeName]
      ensures parent == old(parent)[c := None] && children == old(children)[c := []]
      ensures scene.State() == Added(old(scene.State()), c, Vec3.Zero, Quat.Identity, Vec3.One)
      ensures createList == old(createList) + [uuid[c]]
      ensures uuid[c] in old(components) ==> components == old(components)
      ensures uuid[c] !in old(components) ==> components == old(components)[uuid[c] := c]
    {
      c := Construct(digits, variant);
      SetName(c, typeName);
      Register(c);
    }

    /** `CreateChild<T>`: `CreateComponent<T>`, then `AddChild` of the new component on `c`. */
    method CreateChild(c: Ref, typeName: string, digits: seq<Uuid.Nibble>, variant: Uuid.Variant) returns (child: Ref)
      requires Valid() && c in parent && |digits| == 30
      modifies this`uuid, this`name, this`parent, this`children, this`components, this`createList, scene
      ensures Valid() && child !in old(parent) && uuid == old(uuid)[child := Uuid.Layout(digits, variant)]
      ensures parent == old(parent)[child := Some(c)]
      ensures children == old(children)[child := []][c := old(children[c]) + [child]]
      ensures createList == old(createList) + [uuid[child]]
      ensures name == old(name)[child := typeName]
      ensures uuid[child] in old(components) ==> components == old(components)
      ensures uuid[child] !in old(components) ==> components == old(components)[uuid[child] := child]
      ensures scene.State() == ChildAdded(Added(old(scene.State()), child, Vec3.Zero, Quat.Identity, Vec3.One), c, child)
    {
      child := CreateComponent(typeName, digits, variant);
      AddChild(c, Some(child));
    }

    /** `SetName`: only the name of `c` changes. */
    method SetName(c: Ref, n: string)
      requires Mirrored() && c in name
      modifies this`name
      ensures Mirrored() && name == old(name)[c := n]
    {
      name := name[c := n];
    }

    /**
     * `RegisterComponent`: the id joins the create queue, and the registry gains the component
     * unless the id is already registered (`try_emplace`).
     */
    method Register(c: Ref)
      requires Registered(components, uuid) && c in uuid
      modifies this`createList, this`components
      ensures Registered(components, uuid) && createList == old(createList) + [uuid[c]]
      ensures uuid[c] in old(components) ==> components == old(components)
      ensures uuid[c] !in old(components) ==> components == old(components)[uuid[c] := c]
    {
      createList := createList + [uuid[c]];
      if uuid[c] !in components {
        components := components[uuid[c] := c];
      }
    }

    /** `DestroyComponent` on a component: only its id joins the destroy queue. */
    method Destroy(c: Ref)
      requires c in uuid
      modifies this`destroyList
      ensures destroyList == old(destroyList) + [uuid[c]]
    {
      destroyList := destroyList + [uuid[c]];
    }

    /** `DestroyComponent` on an id, registered or not: only the id joins the destroy queue. */
    method DestroyId(id: string)
      modifies this`destroyList
      ensures destroyList == old(destroyList) + [id]
    {
      destroyList := destroyList + [id];
    }

    /** `GetComponent`: the registered component, or the error thrown for an unknown id. */
    function GetComponent(id: string): (r: Result<Ref>)
      reads this, scene
      ensures r.Failure? <==> id !in components
      ensures r.Success? ==> r.value == components[id] && (Valid() ==> r.value in parent && uuid[r.value] == id)
    {
      if id !in components then Failure("Component not found") else Success(components[id])
    }

    // ----- The per-frame passes -----

    /**
     * `ComponentCreateEventCallback`: `CreateEvent` on the component of each queued id, in
     * queue order, then the queue is emptied. An id that is not registered would be a null
     * dereference, so every queued id must be registered.
     */
    method CreateEvents()
      requires forall i :: 0 <= i < |createList| ==> createList[i] in components
      modifies this`trace, this`createList
      ensures createList == []
      ensures trace == old(trace) + Calls(CreateEvent, old(createList), components)
    {
      var queue := createList;
      var calls := [];
      for i := 0 to |queue|
        invariant calls == Calls(CreateEvent, queue[..i], components) && trace == old(trace)
      {
        CallsStep(CreateEvent, queue, i, components);
        calls := calls + [Event(CreateEvent, components[queue[i]])];
      }
      assert queue[..|queue|] == queue;
      trace := trace + calls;
      createList := [];
    }

    /**
     * `ComponentDestroyEventCallback`: for each queued id in queue order, `DestroyEvent` on
     * its component and then its erasure from the registry; then the queue is emptied. The
     * tree is left as it is: nothing detaches the erased component from its parent or children.
     * A queued id must still be registered when its turn comes (otherwise `operator[]` yields
     * a null pointer that is dereferenced), so the queue holds registered ids, each once.
     */
    method DestroyEvents()
      requires Registered(components, uuid) && Distinct(destroyList)
      requires forall i :: 0 <= i < |destroyList| ==> destroyList[i] in components
      modifies this`trace, this`components, this`destroyList
      ensures Registered(components, uuid) && destroyList == []
      ensures components == old(components) - Members(old(destroyList))
      ensures trace == old(trace) + Calls(DestroyEvent, old(destroyList), old(components))
    {
      var queue := destroyList;
      var registry := components;
      var calls := [];
      for i := 0 to |queue|
        invariant components == old(components) && trace == old(trace)
        invariant registry == components - Members(queue[..i]) && Registered(registry, uuid)
        invariant calls == Calls(DestroyEvent, queue[..i], components)
      {
        CallsStep(DestroyEvent, queue, i, components);
        MembersStep(components, queue, i);
        calls := calls + [Event(DestroyEvent, registry[queue[i]])];
        RegisteredErased(registry, uuid, queue[i]);
        registry := registry - {queue[i]};
      }
      assert queue[..|queue|] == queue;
      trace, components := trace + calls, registry;
      destroyList := [];
    }

    /**
     * `ComponentUpdateEventCallback`, `ComponentFixedUpdateEventCallback` and the three render
     * passes: `hook` on every registered component, once each, in ascending id order.
     */
    method Broadcast(hook: Hook)
      modifies this`trace
      ensures trace == old(trace) + Calls(hook, InOrder(components.Keys), components)
    {
      var rest := components.Keys;
      var calls := [];
      ghost var order := InOrder(components.Keys);
      ghost var n := 0;
      while rest != {}
        invariant rest <= components.Keys
        invariant n <= |order| && InOrder(rest) == order[n..]
        invariant calls == Calls(hook, order[..n], components) && trace == old(trace)
        decreases |rest|
      {
        var id := First(rest);
        InOrderStep(order, n, rest, id);
        CallsStep(hook, order, n, components);
        calls := calls + [Event(hook, components[id])];
        n := n + 1;
        rest := rest - {id};
      }
      assert InOrder(rest) == [];
      assert order[..n] == order;
      trace := trace + calls;
    }

    /**
     * `DefaultRenderPipeline::RenderEvent`: the 3D pass while a camera is set, then the 2D
     * pass and the GUI pass.
     */
    method Render(cameraSet: bool)
      modifies this`trace
      ensures trace == old(trace) + RenderTrace(components, cameraSet)
    {
      ghost var t0 := trace;
      ghost var order := InOrder(components.Keys);
      ghost var done: seq<Event> := [];
      if cameraSet {
        Broadcast(Render3DEvent);
        done := Calls(Render3DEvent, order, components);
      }
      Broadcast(Render2DEvent);
      Recorded(t0, done, Calls(Render2DEvent, order, components));
      done := done + Calls(Render2DEvent, order, components);
      Broadcast(RenderGUIEvent);
      Recorded(t0, done, Calls(RenderGUIEvent, order, components));
    }

    /**
     * One iteration of `StartApplication`'s loop with the default render pipeline: the create,
     * destroy and update passes, then `RenderEvent`.
     */
    method Frame(cameraSet: bool)
      requires Registered(components, uuid) && forall i :: 0 <= i < |createList| ==> createList[i] in components
      requires Distinct(destroyList) && forall i :: 0 <= i < |destroyList| ==> destroyList[i] in components
      modifies this`trace, this`components, this`createList, this`destroyList
      ensures Registered(components, uuid) && createList == [] && destroyList == []
      ensures components == old(components) - Members(old(destroyList))
      ensures trace == old(trace) + FrameTrace(old(createList), old(destroyList), old(components), cameraSet)
    {
      ghost var t0, registry := trace, components;
      CreateEvents();
      ghost var done := Calls(CreateEvent, old(createList), registry);
      DestroyEvents();
      Recorded(t0, done, Calls(DestroyEvent, old(destroyList), registry));
      done := done + Calls(DestroyEvent, old(destroyList), registry);
      Broadcast(UpdateEvent);
      Recorded(t0, done, Calls(UpdateEvent, InOrder(components.Keys), components));
      done := done + Calls(UpdateEvent, InOrder(components.Keys), components);
      Render(cameraSet);
      Recorded(t0, done, RenderTrace(components, cameraSet));
    }

    // ----- The component tree -----

    /**
     * `SetParent`: nothing happens when `p` is already the parent; otherwise the component
     * leaves the old parent's list, names `p` and joins `p`'s list, and then its `Spatial` is
     * given `p`'s `Spatial` as parent, which relinks the `Spatial` tree the same way.
     */
    method SetParent(c: Ref, p: Option<Ref>)
      requires Valid() && c in parent && (p.Some? ==> p.value in parent)
      modifies this`parent, this`children, scene
      ensures Valid()
      ensures p == old(parent[c]) ==> parent == old(parent) && children == old(children) && scene.State() == old(scene.State())
      ensures p != old(parent[c]) ==>
        (ParentPresent(old(scene.State()), c) &&
         parent == old(parent)[c := p] && children == Reparented(old(scene.State()), c, p).children &&
         scene.State() == MarkAll(Reparented(old(scene.State()), c, p), [c]))
    {
      if parent[c] == p {
        return;
      }
      ReparentedInSteps(scene.State(), c, p);
      if parent[c].Some? {
        RemoveChildInternal(parent[c].value, c);
      }
      SetParentInternal(c, p);
      if p.Some? {
        AddChildInternal(p.value, c);
      }
      assert children == Reparented(old(scene.State()), c, p).children;
      scene.SetParent(c, p);
    }

    /**
     * `AddChild`: nothing happens on a null child; otherwise this component's list gains the
     * child unless present, the child names this component, and the same happens to the
     * `Spatial`s.
     */
    method AddChild(c: Ref, child: Option<Ref>)
      requires Valid() && c in parent && (child.Some? ==> child.value in parent)
      modifies this`parent, this`children, scene
      ensures Valid()
      ensures child.None? ==> parent == old(parent) && children == old(children) && scene.State() == old(scene.State())
      ensures child.Some? ==>
        (parent == old(parent)[child.value := Some(c)] &&
         children == old(children)[c := Appended(old(children[c]), child.value)] &&
         scene.State() == ChildAdded(old(scene.State()), c, child.value))
    {
      if child.None? {
        return;
      }
      AddChildInternal(c, child.value);
      SetParentInternal(child.value, Some(c));
      scene.AddChild(c, child);
    }

    /**
     * `RemoveChild`: nothing happens on a null child; otherwise this component's list loses
     * the child, the child's parent becomes null, and the same happens to the `Spatial`s.
     */
    method RemoveChild(c: Ref, child: Option<Ref>)
      requires Valid() && c in parent && (child.Some? ==> child.value in parent)
      modifies this`parent, this`children, scene
      ensures Valid()
      ensures child.None? ==> parent == old(parent) && children == old(children) && scene.State() == old(scene.State())
      ensures child.Some? ==>
        (parent == old(parent)[child.value := None] &&
         children == old(children)[c := Erased(old(children[c]), child.value)] &&
         scene.State() == ChildRemoved(old(scene.State()), c, child.value))
    {
      if child.None? {
        return;
      }
      RemoveChildInternal(c, child.value);
      SetParentInternal(child.value, None);
      scene.RemoveChild(c, child);
    }

    /** `SetParentInternal`: only the parent pointer of `c` changes. */
    method SetParentInternal(c: Ref, p: Option<Ref>)
      requires c in parent
      modifies this`parent
      ensures parent == old(parent)[c := p]
    {
      parent := parent[c := p];
    }

    /** `AddChildInternal`: `q`'s list gains `c` at the end, unless it already holds it. */
    method AddChildInternal(q: Ref, c: Ref)
      requires q in children
      modifies this`children
      ensures children == old(children)[q := Appended(old(children[q]), c)]
    {
      if c !in children[q] {
        children := children[q := children[q] + [c]];
      }
    }

    /** `RemoveChildInternal`: every occurrence of `c` leaves `q`'s list. */
    method RemoveChildInternal(q: Ref, c: Ref)
      requires q in children
      modifies this`children
      ensures children == old(children)[q := Erased(old(children[q]), c)]
    {
      children := children[q := Erased(children[q], c)];
    }

    /** Every listed child is a component. */
    lemma ChildrenAreComponents()
      requires Valid()
      ensures forall n, i :: n in children && 0 <= i < |children[n]| ==> children[n][i] in uuid
    {
      forall n, i | n in children && 0 <= i < |children[n]|
        ensures children[n][i] in uuid
      {
        var x := children[n][i];
        assert x in scene.children[n];
        assert x in parent;
      }
    }

    /** `GetChild`: the first direct child, in list order, whose id is `id`; null if none. */
    method GetChild(c: Ref, id: string) returns (r: Option<Ref>)
      requires Valid() && c in children
      ensures forall i :: 0 <= i < |children[c]| ==> children[c][i] in uuid
      ensures r.None? <==> forall i :: 0 <= i < |children[c]| ==> uuid[children[c][i]] != id
      ensures r.Some? ==>
        exists i :: (0 <= i < |children[c]| && children[c][i] == r.value &&
                     uuid[r.value] == id && forall j :: 0 <= j < i ==> uuid[children[c][j]] != id)
    {
      ChildrenAreComponents();
      var list := children[c];
      for i := 0 to |list|
        invariant forall j :: 0 <= j < i ==> uuid[list[j]] != id
      {
        if uuid[list[i]] == id {
          return Some(list[i]);
        }
      }
      return None;
    }
  }
}
