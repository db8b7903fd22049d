# Mistral-Core in Dafny

Mistral-Core is a small C++ game-engine core built on raylib. This project models the parts
of it that hold engine logic rather than rendering or windowing:

- the math value types `Vec2`/`Vec3`/`Vec4`, `Quat` and `Matrix4x4` (modules `Vector`,
  `Quaternion` and `Matrix`), and the colour types `Color3`/`Color4` (module `Color`), all
  over exact reals (module `Scalar`);
- the `Spatial` scene graph: transforms, parent and child links, the dirty flag and the
  cached local and world matrices. Class `Spatial.Scene` holds every node's members in
  maps keyed by node, and module `SpatialArena` gives the pure specification of each
  operation and the graph invariant;
- the component registry, ids and tree: class `Components.World` holds the global id-keyed
  registry, the create and destroy queues, and each component's id, name, parent, children
  and `Spatial`. The per-frame passes and the main loop's frame are recorded as a trace of
  hook calls;
- the `GenerateUUID` text layout (module `Uuid`);
- the resource cache (class `Resources.Cache`): extension classification, load, unload, get,
  and the typed getters.

Pointers are modelled as values in the code's own terms. A `Spatial*` or `Component*` is a
node reference, `nullptr` is `Option.None`, and an exception is `Result.Failure` (module
`Wrappers`). The random generator, the file system and raylib's native loaders are
parameters or traces.

## Model

| member | source | states |
|---|---|---|
| `Scalar.Quot` | src/Vector.cpp:268-275 | float division is exact when the divisor is nonzero (`r * b == a`); division by zero gives an unspecified non-finite value |
| `Scalar.Clamp` | src/Vector.cpp:554-557 | `std::clamp`: the result lies in `[lo, hi]` when `lo <= hi`, is `v` when `v` is already inside, and is always one of `v`, `lo`, `hi` |
| `Scalar.Floor` | src/Color.cpp:309-371 | `std::floor`: the largest integer not above `x` |
| `Vector.Vec2.Set` | src/Vector.cpp:79-92 | writing through `operator[]` changes the indexed component and no other |
| `Vector.Vec3.Set` | src/Vector.cpp:338-353 | writing through `operator[]` changes the indexed component and no other |
| `Vector.Vec4.Set` | src/Vector.cpp:662-679 | writing through `operator[]` changes the indexed component and no other |
| `Vector.Vec2.Normalized` | src/Vector.cpp:268-275 | above `1e-6` the result times the length gives back the vector; otherwise the zero vector |
| `Vector.Vec3.Normalized` | src/Vector.cpp:540-547 | above `1e-6` the result times the length gives back the vector; otherwise the zero vector |
| `Vector.Vec4.Normalized` | src/Vector.cpp:876-883 | above `1e-6` the result times the length gives back the vector; otherwise the zero vector |
| `Vector.Vec2.Clamp` | src/Vector.cpp:277-280 | with `min <= max` every component lies in `[min, max]`; a vector already inside is unchanged |
| `Vector.Vec3.Clamp` | src/Vector.cpp:554-557 | with `min <= max` every component lies in `[min, max]`; a vector already inside is unchanged |
| `Vector.Vec4.Clamp` | src/Vector.cpp:885-888 | with `min <= max` every component lies in `[min, max]`; a vector already inside is unchanged |
| `Vector.Vec2.Lerp` | src/Vector.cpp:282-285 | amount 0 gives the vector and amount 1 the target |
| `Vector.Vec3.Lerp` | src/Vector.cpp:549-552 | amount 0 gives the vector and amount 1 the target |
| `Vector.Vec3.Cross` | src/Vector.cpp:564-567 | the cross product is orthogonal to both operands |
| `Vector.Vec3.AngleCosine` | src/Vector.cpp:569-583 | the cosine handed to `acos` is `Dot / (len1 * len2)` when that lies in `[-1, 1]`, and -1 or 1 beyond it; it is 0 for orthogonal vectors of non-zero length |
| `Vector.Vec3.Angle` | src/Vector.cpp:569-583 | zero when either vector is shorter than `1e-6`; otherwise `acos` of that clamped cosine, `acos(0)` for orthogonal vectors |
| `Vector.AngleSymmetric` | src/Vector.cpp:569-583 | the angle and its cosine do not depend on the order of the two vectors |
| `Vector.Vec3.DistanceSqr` | src/Vector.cpp:590-593 | the squared distance is never negative |
| `Vector.Vec3ScalarOperandsAreSplats` | src/Vector.cpp:479-528 | each scalar operator acts as the vector operator with the splatted scalar, component by component |
| `Vector.Vec4CombineByIndex` | src/Vector.cpp:792-816 | each binary operator acts index by index, as read through `operator[]` |
| `Vector.WidenThenNarrow` | src/Vector.cpp:43-53 | widening with `Vec3(Vec2, z)` or `Vec4(..., w)` and narrowing back gives back the original |
| `Vector.DotSymmetric` | src/Vector.cpp:559-562 | `Dot` is symmetric, `v·v` is `LengthSqr` and is non-negative, and `DistanceSqr` is symmetric |
| `Vector.CrossAntiCommutative` | src/Vector.cpp:564-567 | swapping the operands negates the cross product, and `v × v` is zero |
| `Vector.ReflectAcrossUnitNormal` | src/Vector.cpp:595-598 | against a unit normal, reflection negates the normal component, and reflecting twice gives back the vector |
| `Quaternion.Quat.Set` | src/Quaternion.cpp:51-68 | writing through `operator[]` changes the indexed component and no other |
| `Quaternion.Quat.ScalarCombine` | src/Quaternion.cpp:331-355 | every operator applies with the scalar first, component by component; for `+` and `*` the delegation to `q + s` and `q * s` computes exactly that |
| `Quaternion.Quat.Normalized` | src/Quaternion.cpp:172-179 | above `1e-6` the result times the length gives back the quaternion; otherwise the identity |
| `Quaternion.Quat.Inverse` | src/Quaternion.cpp:186-193 | above `1e-6` the result times the squared length is the conjugate; otherwise the identity |
| `Quaternion.Quat.SlerpOperand` | src/Quaternion.cpp:229-237 | the target is negated when the dot product is negative, so the cosine used is `\|dot\|`, never negative |
| `Quaternion.Quat.Slerp` | src/Quaternion.cpp:239-243 | on the linear branch (cosine above `0.9995`), amount 0 gives this quaternion normalised and amount 1 the chosen operand normalised |
| `Quaternion.IdentityIsUnit` | src/Quaternion.cpp:108-119 | the identity is a left and right unit of the Hamilton product |
| `Quaternion.TimesConjugate` | src/Quaternion.cpp:181-184 | `q * conj(q)` and `conj(q) * q` are the squared length on `w`; conjugation is an involution |
| `Quaternion.ConjugateOfProduct` | src/Quaternion.cpp:108-119 | the conjugate of a product is the product of the conjugates in reverse order |
| `Quaternion.InverseIsInverse` | src/Quaternion.cpp:186-193 | above the threshold, `Inverse` is a two-sided inverse for the product |
| `Quaternion.NormMultiplicative` | src/Quaternion.cpp:108-119 | the squared length of a product is the product of the squared lengths |
| `Quaternion.QuatDotSymmetric` | src/Quaternion.cpp:195-198 | `Dot` is symmetric, and a quaternion's dot with itself is its squared length, never negative |
| `Quaternion.QuatPlusMinus` | src/Quaternion.cpp:283-291 | `+` is commutative, `-` undoes `+` in either order, and `q - q` is zero |
| `Quaternion.RotateByIdentity` | src/Quaternion.cpp:298-303 | `Identity * v` is `v` |
| `Quaternion.RotatePreservesLength` | src/Quaternion.cpp:298-303 | a unit quaternion's `q * v` keeps the length of `v` |
| `Matrix.Matrix4x4.Set` | src/Matrix.cpp:82-123 | writing through `operator[]` changes the indexed entry and no other |
| `Matrix.IdentityIsUnit` | src/Matrix.cpp:238-284 | the identity is a left and right unit of `*`, and `Identity * v` is `v` |
| `Matrix.TransposedByIndex` | src/Matrix.cpp:287-290 | entry (r, c) of the transpose is entry (c, r), and transposing twice gives back the matrix |
| `Matrix.PlusMinusByIndex` | src/Matrix.cpp:218-236 | entry `i` of `m + n` and `m - n` is the sum and difference of the entries `i`, and `-` undoes `+` |
| `Matrix.DeterminantOfIdentity` | src/Matrix.cpp:292-349 | the identity has determinant 1 and inverts to itself |
| `Matrix.AdjugateTimes` | src/Matrix.cpp:292-349 | the adjugate `Inverted` builds, times the matrix, is the determinant times the identity |
| `Matrix.TimesAdjugate` | src/Matrix.cpp:292-349 | the matrix times that adjugate is the determinant times the identity |
| `Matrix.Matrix4x4.Inverted` | src/Matrix.cpp:292-339 | a matrix whose determinant is below `1e-6` in magnitude inverts to the identity |
| `Matrix.InvertedIsInverse` | src/Matrix.cpp:292-339 | otherwise `Inverted` is a two-sided inverse |
| `Matrix.Matrix4x4.FromPosition` | src/Matrix.cpp:407-410 | `GetPosition` of a translation is its position |
| `Matrix.PositionRoundTrip` | src/Matrix.cpp:351-354 | `FromPosition` and `GetPosition` are inverse on positions |
| `Matrix.TranslationsCompose` | src/Matrix.cpp:407-410 | the product of two translations is the translation by the sum |
| `Matrix.Matrix4x4.FromRotation` | src/Matrix.cpp:412-440 | a rotation matrix has no translation and no projective part |
| `Matrix.RotationOfIdentity` | src/Matrix.cpp:412-440 | the identity quaternion gives the identity matrix |
| `Matrix.Matrix4x4.FromScale` | src/Matrix.cpp:442-445 | the scale matrix maps every vector (x, y, z, w) to (sx x, sy y, sz z, w) |
| `Matrix.ScaleOfOne` | src/Matrix.cpp:442-445 | scale (1, 1, 1) gives the identity |
| `Matrix.PRSPosition` | src/Matrix.cpp:447-454 | `FromPRS` places the translation last: its position is the given position, and its corner entry is 1 |
| `Matrix.PRSWithoutRotationOrScale` | src/Matrix.cpp:447-454 | with the identity rotation and unit scale, `FromPRS` is `FromPosition` |
| `Color.Channel` | src/Color.cpp:689-696 | clamp to [0, 1], scale by 255 and truncate: a byte, 0 at or below 0 and 255 at or above 1, and a value `x` in [0, 1] lies in `[n / 255, (n + 1) / 255)` for the byte `n` |
| `Color.ChannelOfUnit` | src/Color.cpp:40-45 | a channel made from a byte `k` by dividing by 255 converts back to `k` |
| `Color.Color3.ToRaylib` | src/Color.cpp:77-82 | the conversion to `Color` has alpha 255; each of r, g and b in [0, 1] lies in its byte's interval `[n / 255, (n + 1) / 255)`, and a channel at or below 0 gives byte 0, at or above 1 byte 255 |
| `Color.Color3.Set` | src/Color.cpp:85-100 | writing through `operator[]` changes the indexed channel and no other |
| `Color.Color4.Set` | src/Color.cpp:446-465 | writing through `operator[]` changes the indexed channel and no other |
| `Color.Color3.CombineScalar` | src/Color.cpp:160-198 | a compound scalar operator on `Color3` agrees with the binary operator, which combines with `Color3(s)` |
| `Color.Color3.ScalarCombine` | src/Color.cpp:232-280 | `s op c` is `Color3(s) op c` |
| `Color.Color3.Normalized` | src/Color.cpp:288-295 | above `1e-6` the result times the length gives back the colour; otherwise black |
| `Color.Color4.Normalized` | src/Color.cpp:663-675 | the length includes alpha; above `1e-6` r, g and b are divided by it and alpha is kept; otherwise opaque black `Color4(0.f)` |
| `Color.Color3.Clamp` | src/Color.cpp:297-300 | with `min <= max` every channel lies in `[min, max]`; a colour already inside is unchanged |
| `Color.Color4.Clamp` | src/Color.cpp:677-681 | with `min <= max` every channel, alpha included, lies in `[min, max]`; a colour already inside is unchanged |
| `Color.Color3.Lerp` | src/Color.cpp:302-306 | amount 0 gives the colour and amount 1 the target |
| `Color.Color4.Lerp` | src/Color.cpp:683-687 | amount 0 gives the colour and amount 1 the target, alpha included |
| `Color.Color3.Section` | src/Color.cpp:332-368 | each hue section puts the value on one channel and `p` on another; sections outside 0-4 take the `default` branch |
| `Color.Color3.HSV` | src/Color.cpp:309-371 | `s == 0` gives the grey `(v, v, v)`; for `s` in [0, 1] and `v >= 0` the largest channel is `v` and the smallest is `v * (1 - s)` |
| `Color.SectionLevels` | src/Color.cpp:323-329 | the two mixed levels `q` and `t` lie between `p` and `v` |
| `Color.HSVFullTurnIsMagenta` | src/Color.cpp:309-371 | at `h == 1` the code returns `(v, p, v)`, whereas `h == 0` gives `(v, p, p)`; they differ whenever `v != 0` |
| `Color.HSVFullTurnExample` | src/Color.cpp:373-376 | the uint overload with h = 255 gives magenta (1, 0, 1), and with h = 0 it gives red (1, 0, 0); `Color4::HSVA(1, 1, 1)` and the uint `HSVA(255, 255, 255)` give opaque magenta too |
| `Color.Color3.HSVWrapped` | src/Color.cpp:309-371 | the corrected conversion: the same grey and extreme channels as `HSV`, and the result `HSV` computes for every `h` in [0, 1) |
| `Color.HSVWrappedPeriodic` | src/Color.cpp:309-371 | the corrected conversion is periodic in hue, so `h == 1` gives the same red as `h == 0` |
| `Color.Color3.HSVFromUInt` | src/Color.cpp:373-376 | the uint overload is `HSV` of `h / 255`, `s / 255` and `v / 255` for every input (including `h == 255`); `s == 0` is the grey `v / 255`, and for `s <= 255` the extreme channels are `v / 255` and `v / 255 * (1 - s / 255)` |
| `Color.Color4.HSVA` | src/Color.cpp:704-707 | the result has alpha `a` and its colour is exactly `Color3::HSV(h, s, v)`, with that conversion's extreme channels |
| `Color.Color4.HSVAFromUInt` | src/Color.cpp:709-713 | alpha is `a / 255` and the colour is that of the uint `HSV` overload, so `HSV` of the arguments divided by 255 |
| `Color.Color4.WithAlpha` | src/Color.cpp:715-718 | only alpha changes |
| `Color.Color4.ToRaylib` | src/Color.cpp:437-443 | each of the four channels in [0, 1] lies in its byte's interval `[n / 255, (n + 1) / 255)`; alpha at or below 0 gives 0 and at or above 1 gives 255; r, g and b are those of the `Color3` conversion |
| `Color.Color4.ToUInt32` | src/Color.cpp:689-696 | red is bits 0-7, green 8-15, blue 16-23 and alpha 24-31, each the channel clamped, scaled and truncated |
| `Color.Pack` | src/Color.cpp:695 | `R \| G << 8 \| B << 16 \| A << 24` gives back each byte in its own bit range |
| `Color.ScalarKeepsAlpha` | src/Color.cpp:530-568 | every `Color4` scalar operator, compound or binary, with the scalar on either side, keeps alpha and acts on r, g, b as the `Color3` operator does |
| `Color.AlphaDefaults` | include/Color.h:123-165 | a default `Color4` is transparent, while the float, uint32, `Color3`, grey and HSVA constructors default alpha to opaque |
| `Color.RaylibRoundTrip` | src/Color.cpp:69-82 | `Color` → `Color4` → `Color` gives back the bytes; through `Color3` the alpha becomes 255 |
| `Color.UInt32RoundTrip` | src/Color.cpp:387-393 | `Color4(uint32 r, g, b, a)` from bytes packs back into exactly those bytes |
| `Color.AlphaRoundTrip` | src/Color.cpp:412-418 | `Color4(Color3(c), c.a)` is `c`, and `WithAlpha` undoes itself |
| `Uuid.DigitValue` | src/Random.cpp:11-52 | a character has a value in 0-15 exactly when it is a lower-case hex digit |
| `Uuid.HexDigit` | src/Random.cpp:11-52 | `std::hex` writes a draw below 16 as the lower-case digit of that value |
| `Uuid.HexAt` | src/Random.cpp:16-20 | a run's text holds each draw's digit in the draw's place |
| `Uuid.DigitPosition` | src/Random.cpp:11-52 | every draw lands in the 35 characters, away from the hyphens, the version digit and the variant digit |
| `Uuid.LayoutPositions` | src/Random.cpp:11-52 | 35 characters: hyphens at 8, 17 and 22, `4` at 13, the variant at 18 and each draw at its position |
| `Uuid.LayoutWellFormed` | src/Random.cpp:11-52 | every generated id has this shape |
| `Uuid.LayoutDigitsRoundTrip` | src/Random.cpp:11-52 | the draws and the variant can be read back from the id |
| `Uuid.LayoutInjective` | src/Random.cpp:11-52 | different draws give different ids |
| `Uuid.NotTheRfc4122Form` | src/Random.cpp:11-52 | the id is not the 36-character 8-4-4-4-12 form of section 3 of RFC 4122 |
| `Uuid.GenerateUUID` | src/Random.cpp:11-52 | the five counted loops and fixed characters write exactly the layout |
| `SpatialArena.Appended` | src/Spatial.cpp:244-251 | `AddChildInternal` appends only an absent child: the old list is a prefix, membership gains exactly the child, no duplicate appears |
| `SpatialArena.Erased` | src/Spatial.cpp:253-256 | `RemoveChildInternal` erases every occurrence and nothing else |
| `SpatialArena.ErasedAppended` | src/Spatial.cpp:244-256 | appending a child and then erasing it restores the list |
| `SpatialArena.MarkAll` | src/Spatial.cpp:216-225 | `MarkDirty` changes only dirty flags, never clears one, and leaves every marked node dirty |
| `SpatialArena.MarkAllAppend` | src/Spatial.cpp:216-225 | marking a list of nodes is marking its prefix, then its suffix |
| `SpatialArena.MarkDirtyReachesDescendants` | src/Spatial.cpp:216-225 | in a graph where dirty nodes have dirty children, `MarkDirty` reaches every descendant and keeps that property |
| `SpatialArena.MarkAllOnlyDescendants` | src/Spatial.cpp:216-225 | conversely, a node `MarkDirty` dirties is a descendant of a marked node |
| `SpatialArena.DirtyBelowDirty` | src/Spatial.cpp:216-219 | the early return is sound: below a dirty node everything is dirty |
| `SpatialArena.MarkAllKeepsValid` | src/Spatial.cpp:216-225 | marking repairs stale caches and clean children under dirty parents at the marked nodes |
| `SpatialArena.Retransformed` | src/Spatial.cpp:27-43 | a setter changes only the node's own transform, so only its local matrix changes |
| `SpatialArena.EditKeepsValid` | src/Spatial.cpp:27-43 | setting a transform and marking dirty keeps the graph invariant and leaves the node dirty |
| `SpatialArena.Listed` | src/Spatial.cpp:244-251 | only child lists change, and they stay duplicate-free |
| `SpatialArena.Unlisted` | src/Spatial.cpp:253-256 | only child lists change, and they stay duplicate-free |
| `SpatialArena.WithParent` | src/Spatial.cpp:239-242 | only the node's parent pointer changes |
| `SpatialArena.Reparented` | src/Spatial.cpp:52-63 | relinking changes only the links: the node's parent becomes `p`, and lists stay duplicate-free |
| `SpatialArena.ReparentedInSteps` | src/Spatial.cpp:52-63 | the relinking is `RemoveChildInternal` on the old parent, then `SetParentInternal`, then `AddChildInternal` on the new parent |
| `SpatialArena.ReparentedMembership` | src/Spatial.cpp:52-63 | after `SetParent`, the old parent no longer lists the node, the new parent lists it, and every other list is unchanged |
| `SpatialArena.ReparentedLinksAgree` | src/Spatial.cpp:45-65 | relinking keeps each node listed by exactly the node it names as parent |
| `SpatialArena.ReparentedDirtyClosed` | src/Spatial.cpp:45-65 | after relinking, only the moved node can be a clean child of a dirty parent |
| `SpatialArena.ReparentedFresh` | src/Spatial.cpp:45-65 | relinking leaves every other clean node's caches fresh |
| `SpatialArena.SetParentKeepsValid` | src/Spatial.cpp:45-65 | `SetParent` keeps the graph invariant, and the moved node ends dirty |
| `SpatialArena.MarkOneKeepsValid` | src/Spatial.cpp:64 | marking the one node that may be stale restores the invariant |
| `SpatialArena.SelfParentNeverRooted` | src/Spatial.cpp:227-237 | a node that is its own parent never reaches a root, and when it is dirty `UpdateMatrices` on it never reaches a clean node either, so it would not terminate |
| `SpatialArena.SelfParentingIsAccepted` | src/Spatial.cpp:45-65 | `SetParent` does not check for cycles: making a node its own parent is accepted and leaves a dirty node that `UpdateMatrices` cannot finish |
| `SpatialArena.Resolve` | src/Spatial.cpp:227-237 | `UpdateMatrices` changes only caches and flags: it cleans the node, never dirties a node, and leaves clean caches alone (`ResolveCleansOnlyClimbed` states which nodes it cleans); it is defined whenever climbing through dirty nodes reaches a clean node or a root (`Climbs`), which is all the early return on a clean node needs |
| `SpatialArena.ResolveCleansOnlyClimbed` | src/Spatial.cpp:227-237 | `UpdateMatrices` clears the flag of exactly the dirty nodes it climbs through, from the node up to the first clean node or root, and of no other node |
| `SpatialArena.ResolveKeepsValid` | src/Spatial.cpp:227-237 | `UpdateMatrices` keeps the graph invariant on every node it can reach, rooted or not |
| `SpatialArena.RootedClimbs` | src/Spatial.cpp:227-237 | a node reached from a root within `k` links is brought up to date within `k` steps |
| `SpatialArena.DirtyBelowCleanCycleResolves` | src/Spatial.cpp:227-237 | a dirty node whose parent is clean but sits on a cycle is recomputed after one step, leaving a valid graph, though no root is ever reached |
| `SpatialArena.ResolvedWorld` | src/Spatial.cpp:227-237 | afterwards the world matrix is the transforms composed from the root down, and the local matrix is the node's own `FromPRS` |
| `SpatialArena.ResolveCleansAncestors` | src/Spatial.cpp:227-237 | afterwards the node and all its ancestors are clean |
| `SpatialArena.CleanWorldIsComposed` | src/Spatial.cpp:227-237 | in a valid graph, a clean node's cached world matrix is its composed transform |
| `SpatialArena.ChildAdded` | src/Spatial.cpp:67-76 | `AddChild` points the child at this node and lists it here once; the child's old parent still lists it |
| `SpatialArena.ChildRemoved` | src/Spatial.cpp:78-87 | `RemoveChild` clears the child's parent, whoever it was, and erases it from this list only |
| `SpatialArena.AddOrphanKeepsLinks` | src/Spatial.cpp:67-76 | adding a child that has no parent keeps the links consistent |
| `SpatialArena.RemoveOwnChildKeepsLinks` | src/Spatial.cpp:78-87 | removing one's own child keeps the links consistent and dirty parents with dirty children |
| `SpatialArena.AddChildBreaksLinks` | src/Spatial.cpp:67-76 | `AddChild` of another node's child leaves it listed by both parents |
| `SpatialArena.RemoveChildLeavesStaleCache` | src/Spatial.cpp:78-87 | `RemoveChild` leaves the caches and dirty flags unchanged, so a clean child whose cached world is not its local matrix is stale as a root, and the arena is no longer valid |
| `SpatialArena.AddChildLeavesStaleCache` | src/Spatial.cpp:67-76 | `AddChild` leaves the caches and dirty flags unchanged, so a clean root added under a node whose world changes it is stale, and the arena is no longer valid |
| `SpatialArena.RemoveChildThenMarkKeepsValid` | src/Spatial.cpp:78-87 | removing one's own child and then marking it dirty keeps the arena valid; the child is a dirty root |
| `SpatialArena.AddChildThenMarkKeepsValid` | src/Spatial.cpp:67-76 | adding a root as a child and then marking it dirty keeps the arena valid; the child is dirty and names the new parent |
| `SpatialArena.RemoveChildBreaksLinks` | src/Spatial.cpp:78-87 | `RemoveChild` of another node's child leaves it parentless while still listed |
| `SpatialArena.AddChildBreaksDirtyClosure` | src/Spatial.cpp:67-76 | `AddChild` of a clean node under a dirty one leaves a clean child under a dirty parent that `MarkDirty` never reaches |
| `SpatialArena.AddedKeepsValid` | src/Spatial.cpp:7-12 | a node a constructor creates is a valid dirty root with identity caches |
| `Spatial.Scene.constructor` | include/Spatial.h:94-103 | the empty graph satisfies the invariant |
| `Spatial.Scene.NewNode` | src/Spatial.cpp:7-12 | `Spatial()`: a fresh node at the origin with identity rotation and unit scale; the invariant is kept |
| `Spatial.Scene.NewNodeAt` | src/Spatial.cpp:14-20 | `Spatial(p, r, s)`: a fresh node that ends clean with both caches `FromPRS(p, r, s)` |
| `Spatial.Scene.SetPosition` | src/Spatial.cpp:27-31 | only the position changes, then `MarkDirty`; the invariant is kept |
| `Spatial.Scene.SetRotation` | src/Spatial.cpp:33-37 | only the rotation changes, then `MarkDirty`; the invariant is kept |
| `Spatial.Scene.SetScale` | src/Spatial.cpp:39-43 | only the scale changes, then `MarkDirty`; the invariant is kept |
| `Spatial.Scene.Move` | src/Spatial.cpp:154-158 | the position gains the offset, then `MarkDirty` |
| `Spatial.Scene.Rotate` | src/Spatial.cpp:160-164 | the rotation is right-multiplied by the offset, then `MarkDirty` |
| `Spatial.Scene.Scale` | src/Spatial.cpp:166-170 | the scale is multiplied component-wise, then `MarkDirty` |
| `Spatial.Scene.SetParent` | src/Spatial.cpp:45-65 | nothing changes when `p` is already the parent; otherwise the node is relinked and marked dirty, and the invariant is kept |
| `Spatial.Scene.AddChild` | src/Spatial.cpp:67-76 | null is a no-op; otherwise the state becomes `ChildAdded` |
| `Spatial.Scene.RemoveChild` | src/Spatial.cpp:78-87 | null is a no-op; otherwise the state becomes `ChildRemoved` |
| `Spatial.Scene.SetParentInternal` | src/Spatial.cpp:239-242 | only the parent pointer changes |
| `Spatial.Scene.AddChildInternal` | src/Spatial.cpp:244-251 | only this list changes, gaining the child unless present |
| `Spatial.Scene.RemoveChildInternal` | src/Spatial.cpp:253-256 | only this list changes, losing every occurrence of the child |
| `Spatial.Scene.GetChild` | src/Spatial.cpp:138-146 | null exactly when the index is past the end; otherwise the listed child |
| `Spatial.Scene.GetChildrenCount` | src/Spatial.cpp:148-151 | the length of the child list |
| `Spatial.Scene.GetParent` | src/Spatial.cpp:126-130 | recomputes the matrices first, then returns the unchanged parent pointer |
| `Spatial.Scene.GetLocalPosition` | src/Spatial.cpp:90-94 | recomputes the matrices first, then returns the unchanged position |
| `Spatial.Scene.GetLocalRotation` | src/Spatial.cpp:96-100 | recomputes the matrices first, then returns the unchanged rotation |
| `Spatial.Scene.GetLocalScale` | src/Spatial.cpp:102-106 | recomputes the matrices first, then returns the unchanged scale |
| `Spatial.Scene.GetPosition` | src/Spatial.cpp:108-112 | the translation of the recomputed world matrix, which is that of the transforms composed from the root |
| `Spatial.Scene.GetMatrix` | src/Spatial.cpp:173-177 | the recomputed world matrix, which is the composed transform, and the invariant is kept |
| `Spatial.Scene.GetLocalMatrix` | src/Spatial.cpp:179-183 | the recomputed local matrix, which is the node's own `FromPRS` |
| `Spatial.Scene.MarkDirty` | src/Spatial.cpp:216-225 | the recursive marking of the node's subtree, following child lists in order |
| `Spatial.Scene.UpdateMatrices` | src/Spatial.cpp:227-237 | the recursive recomputation up the parent chain through dirty nodes, stopping at a clean node or a root; the invariant is kept |
| `Components.BelowTotal` | src/Component.cpp:8 | `std::less<std::string>` orders ids strictly and totally |
| `Components.BelowIrreflexive` | src/Component.cpp:8 | no id is ordered before itself |
| `Components.BelowTransitive` | src/Component.cpp:8 | the id order is transitive |
| `Components.FirstExists` | src/Component.cpp:190-196 | a nonempty registry has a first id |
| `Components.FirstUnique` | src/Component.cpp:190-196 | and only one |
| `Components.First` | src/Component.cpp:190-196 | the loop finds the key a map iteration visits first |
| `Components.InOrderAscending` | src/Component.cpp:190-196 | the registry is iterated in strictly ascending id order |
| `Components.InOrderCovers` | src/Component.cpp:190-196 | the iteration visits exactly the registered ids |
| `Components.AscendingIsInOrder` | src/Component.cpp:190-196 | the iteration order is the only ascending listing of the ids |
| `Components.Calls` | src/Component.cpp:171-228 | a pass makes one hook call per id it visits |
| `Components.CallsAt` | src/Component.cpp:171-228 | the i-th call is on the component registered under the i-th id |
| `Components.CallsOnce` | src/Component.cpp:190-196 | with distinct ids and distinct components, each component is called at its own position only |
| `Components.RenderHooks` | src/DefaultRenderPipeline.cpp:10-36 | a render calls only render hooks, and the 3D hook only while a camera is set |
| `Components.FrameSkipsFixedUpdate` | src/Mistral.cpp:26-35 | the main loop never calls the fixed-update hook |
| `Components.FrameUpdates` | src/Mistral.cpp:26-35 | the update calls of a frame are exactly those of the update pass, after the create and destroy passes |
| `Components.FrameUpdatesSurvivor` | src/Mistral.cpp:26-35 | every component that survives the destroy pass is updated exactly once per frame |
| `Components.FrameSkipsDestroyed` | src/Component.cpp:180-196 | a component destroyed in a frame gets no update call in it |
| `Components.RegisteredErased` | src/Component.cpp:180-188 | erasing an entry keeps every other entry holding the component with that id |
| `Components.World.constructor` | src/Component.cpp:8-10 | no component, an empty registry, empty queues |
| `Components.World.Construct` | src/Component.cpp:12-16 | `Component()`: a fresh component with a generated id, an empty name, no parent, no children, and a new root `Spatial` |
| `Components.World.CreateComponent` | include/Component.h:17-25 | a fresh component named after its type and registered: the create queue gains its id, and the registry gains it unless the id is taken |
| `Components.World.CreateChild` | include/Component.h:88-94 | `CreateComponent`, then `AddChild` on the parent: the child is named after its type, registered under its id unless `try_emplace` finds the id taken, names the parent and ends its list, and its `Spatial` node is a new default node added under the parent's |
| `Components.World.SetName` | src/Component.cpp:65-68 | only the name changes |
| `Components.World.Register` | src/Component.cpp:136-140 | the id joins the create queue, and `try_emplace` keeps an earlier component under the same id |
| `Components.World.Destroy` | src/Component.cpp:142-145 | only the component's id joins the destroy queue |
| `Components.World.DestroyId` | src/Component.cpp:147-150 | only the id joins the destroy queue, registered or not |
| `Components.World.GetComponent` | src/Component.cpp:152-159 | fails exactly on an unregistered id; otherwise the component, whose id is the key |
| `Components.World.CreateEvents` | src/Component.cpp:171-178 | `CreateEvent` on each queued id in queue order, then the queue is emptied |
| `Components.World.DestroyEvents` | src/Component.cpp:180-188 | `DestroyEvent` then erasure for each queued id in order; the registry loses exactly the queued ids |
| `Components.World.Broadcast` | src/Component.cpp:190-228 | one call of the hook per registered component, in ascending id order |
| `Components.World.Render` | src/DefaultRenderPipeline.cpp:10-36 | the 3D pass while a camera is set, then the 2D and GUI passes |
| `Components.World.Frame` | src/Mistral.cpp:26-35 | create, destroy and update passes, then the render: the trace gains the frame's calls, and the registry loses the destroyed ids |
| `Components.World.SetParent` | src/Component.cpp:70-90 | nothing changes when `p` is already the parent; otherwise both the component tree and the `Spatial` tree are relinked the same way |
| `Components.World.AddChild` | src/Component.cpp:92-103 | null is a no-op; otherwise the component and `Spatial` trees both gain the link |
| `Components.World.RemoveChild` | src/Component.cpp:105-116 | null is a no-op; otherwise the component and `Spatial` trees both lose the link |
| `Components.World.SetParentInternal` | src/Component.cpp:118-121 | only the parent pointer changes |
| `Components.World.AddChildInternal` | src/Component.cpp:123-129 | only this list changes, gaining the child unless present |
| `Components.World.RemoveChildInternal` | src/Component.cpp:131-134 | only this list changes, losing every occurrence |
| `Components.World.ChildrenAreComponents` | include/Component.h:137-141 | every listed child is a component |
| `Components.World.GetChild` | src/Component.cpp:38-48 | the first child in list order with the id, or null exactly when no child has it |
| `Resources.Filename` | src/Resources.cpp:24-30 | the file name is the text after the last `/` |
| `Resources.LastDot` | src/Resources.cpp:24-30 | the position of a dot with no dot after it |
| `Resources.Extension` | src/Resources.cpp:24-30 | `path::extension()` is empty or starts at the last `.` |
| `Resources.ExtensionEndsFilename` | src/Resources.cpp:24-30 | a nonempty extension is a proper suffix of the file name |
| `Resources.ExtensionOfFile` | src/Resources.cpp:24-30 | `d/a.png` has extension `.png` |
| `Resources.ExtensionAfterLastDot` | src/Resources.cpp:24-30 | `a.b.c` has extension `.c`: only the last dot counts |
| `Resources.ExtensionOfHiddenFile` | src/Resources.cpp:24-30 | the leading dot of a hidden file does not start an extension |
| `Resources.ExtensionOfDirectory` | src/Resources.cpp:24-30 | a dot in a directory name, or before a trailing `/`, is not an extension |
| `Resources.TexturesDisjoint` | src/Resources.cpp:32-66 | no texture extension is on another list |
| `Resources.OthersDisjoint` | src/Resources.cpp:32-66 | the sound, model and font lists share no extension either |
| `Resources.ClassifyByExtension` | src/Resources.cpp:32-66 | a path gets a type exactly when its extension is on that type's list, and `None` when it is on none |
| `Resources.Loaded` | src/Resources.cpp:32-66 | the loaded entry's type is the type its extension selects |
| `Resources.LoadedIsTagged` | include/Resources.h:18-28 | the union holds the member of its tag, and unloading releases what loading opened |
| `Resources.GetIdempotent` | src/Resources.cpp:98-111 | a second `ResourceGet` of a path returns the same entry and changes nothing more |
| `Resources.UnloadUndoesLoad` | src/Resources.cpp:68-111 | unloading a path that a get just loaded gives back the earlier cache |
| `Resources.Cache.constructor` | src/Resources.cpp:19-22 | the cache starts empty |
| `Resources.Cache.ResourceLoad` | src/Resources.cpp:32-66 | succeeds exactly when the path exists; loads by extension, and `emplace` keeps an older entry |
| `Resources.Cache.ResourceUnload` | src/Resources.cpp:68-96 | succeeds exactly when the path is cached: it releases the asset of the tag and erases the entry |
| `Resources.Cache.ResourceGet` | src/Resources.cpp:98-111 | the cached entry, loading on a miss, or the dummy of type `None` |
| `Resources.Cache.GetTexture` | src/Resources.cpp:113-116 | the union of the entry read as a texture, with no check of the tag |
| `Resources.Cache.GetSound` | src/Resources.cpp:118-121 | the union of the entry read as a sound, with no check of the tag |
| `Resources.Cache.GetModel` | src/Resources.cpp:123-126 | the union of the entry read as a model, with no check of the tag |
| `Resources.Cache.GetFont` | src/Resources.cpp:128-131 | the union of the entry read as a font, with no check of the tag |

## Left out

- Floating point: every float is an exact real. Rounding, NaN and infinity are not modelled. `sqrtf`, `powf`, `acosf` and `sinf`, and the result of a division by zero, are uninterpreted functions. Round trips such as `UInt32RoundTrip` hold over reals, and single-precision rounding of `k / 255.0f` is not modelled.
- Matrix decomposition and the projection builders (`GetRotation`, `GetScale` beyond its definition, `Perspective`, `Orthographic`, `LookAt`) are left out because they rest on trigonometry and square roots.
- Quaternion trigonometry (`ToEuler`, `FromEuler`, `FromAxisAngle`) and the sine-ratio branches of `Slerp` are left out for the same reason.
- `Quaternion.Quat.Slerp`: only the linear branch is specified, because the spherical branch's weights come from `sinf` and `acosf`.
- `Spatial::GetRotation`, `GetScale` and the direction helpers (`Forward` … `Down`) are left out; each is a matrix decomposition after `UpdateMatrices`.
- `DrawSpatial`, raylib drawing, the window and the main loop's set-up and tear-down are I/O. The frame is modelled as its four calls; the loop's exit condition is not modelled.
- The camera slot (`GetActiveCamera`/`SetActiveCamera`) is reduced to the `cameraSet` parameter of `Render` and `Frame`.
- The conversions to and from raylib's and ImGui's vector, matrix and quaternion types are left out. They only copy fields; the colour conversions are modelled.
- Hook bodies are left out. Each hook call becomes an event in the trace. A hook that creates or destroys components during a pass would invalidate the iterators, and the model assumes none does.
- `Components.World.Frame`: it requires that every queued id is still registered and that the destroy queue holds each id once. The code dereferences a null pointer otherwise, so those runs are not modelled.
- Lifetimes are left out: `shared_ptr` ownership, the empty `~Spatial` and the memory reclaimed when a component is erased. Erased components stay in the id, name and tree maps, so dangling pointers are visible but not freed.
- The random generator is left out; `GenerateUUID` takes its 30 uniform draws and the variant draw as parameters.
- The id is 35 characters, as the code writes it, rather than the 36-character RFC 4122 text form; `NotTheRfc4122Form` states the difference.
- The file system and native loading are modelled as parameters. `std::filesystem::exists` becomes the `disk` parameter, `LoadTexture`/`LoadSound`/`LoadModel`/`LoadFont` and the `Unload*` calls are recorded in `natives`, and a loaded asset is identified by its path.
- `ResourceGet`'s static dummy is a fresh value. That the code hands out the same mutable object every time is not modelled.
- `GetExecutablePath`, `GetResourcesPath` and `GetEditorResourcesPath` are platform code and are left out.
- `Extension` follows `std::filesystem::path::extension()` for `/`-separated paths only. Root names and `\` separators are not modelled.
- Path equivalence: `Resources.Cache` keys its entries and the `disk` set by the raw path string. The code's `std::map<std::filesystem::path, Resource, std::less<>>` and `std::filesystem::exists` compare paths element by element, so `d//x.png` and `d/x.png` are one entry and one file there but two different keys in the model; redundant separators are not normalised.
- `operator<<` stream output of every type is left out because it is I/O.
- `Components.World.Construct`: the `Component()` constructor's default `Spatial` is always a new root. Copying or moving components is left out because `Spatial`'s copy operations are deleted.

## Findings

| source | as written | input that shows it | evidently intended | confidence | as-written member | corrected member |
|---|---|---|---|---|---|---|
| src/Color.cpp:318-368 | `Color3::HSV` takes the section `floor(h * 6)` and sends every section outside 0-4 to the `default` branch `(v, p, q)`. At `h == 1`, a full turn of hue, the section is 6 and `f` is 0, so the result is `(v, p, v)`, magenta. | `Color3::HSV(255u, 255u, 255u)` gives (1, 0, 1); `HSV(0u, 255u, 255u)` gives (1, 0, 0) | a full turn of hue is red again: section 6 wraps to section 0, giving `(v, p, p)` | high; not executed | `Color.HSVFullTurnIsMagenta` | `Color.HSVWrappedPeriodic` |
| src/Spatial.cpp:78-87 | `RemoveChild` (and `AddChild`, src/Spatial.cpp:67-76) relinks the child without calling `MarkDirty`, so a clean child keeps the world matrix it cached under its old parent, and `GetMatrix` (src/Spatial.cpp:173-177) returns it because `UpdateMatrices` (src/Spatial.cpp:227-237) returns at once on a clean node. | a clean node 0 translated by (1, 0, 0) with a clean child 1 at the origin: after `0->RemoveChild(1)`, node 1 is a root whose cached world still holds the translation | the child is marked dirty after relinking, as `SetParent` does, so its next `UpdateMatrices` recomputes the world | medium; not executed | `SpatialArena.RemoveChildLeavesStaleCache` | `SpatialArena.RemoveChildThenMarkKeepsValid` |

`Color.Color3.HSV` is the conversion as written. `Color.Color3.HSVWrapped` takes the section modulo 6; for every hue in [0, 1) it gives the same result as the code. The overloads `HSVFromUInt`, `HSVA` and `HSVAFromUInt` follow the code as written and are built on `HSV`, so they keep the magenta at a full turn (`Color.HSVFullTurnExample`).
