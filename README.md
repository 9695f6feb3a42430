# PhysicsRealm — a verified model of the physics core

PhysicsRealm is a small rigid-body engine for Unity. A `PhysicsManager`
holds a list of bodies: spheres, cubes and cones. Every fixed step it does
two things:

- It lets every unordered pair of bodies handle its collision once,
  `objects[i].HandleCollision(objects[j])` for `i < j`.
- Each body's own `FixedUpdate` keeps the body inside an axis-aligned
  container and then integrates its motion. The integration uses gravity,
  accumulated forces and torques, and velocity damping.

Collisions are found by shape:

- sphere/sphere: the distance between the centres;
- sphere/box: the closest box point in the box's frame;
- box/box: a separating-axis test on fifteen axes;
- anything else involving a cone: a triangle-mesh test.

Every collision is resolved by one impulse rule. It separates the bodies
by their inverse masses, then applies equal and opposite impulses, with a
restitution of 0.9.

This project restates that engine in Dafny and proves what it promises.
The modules follow the source's structure, in layering order:

| module | what it holds |
|---|---|
| `Wrappers` | `Option` |
| `Vectors` | `Vec3`, 3×3 matrices, poses. Unity's `Normalize` (the 1e-5 cut-off), `==` on vectors (squared magnitude below 1e-10), `Mathf.Sign` (0 counts as positive), `float.MaxValue` |
| `Geometry` | `ComputeLocalBounds`, the sphere/sphere and sphere/box tests, the sphere ray query |
| `Triangles` | `TestPlanes`, `CheckLineSegment` and `TriangleIntersection` |
| `Dynamics` | the `Contact` record, `ResolveCollision`, `ResolveCollisionContainer`, the linear part of the integration step |
| `Separation` | `CheckNonOverlap` and the fifteen-axis sweep of cube/cube |
| `Containment` | the two `InsideContainer` scans and the sphere's wall reflection |
| `Bodies` | `PhysicsObject` and its three subclasses as one class `Body`. Its `kind` stands for the subclass |
| `Collisions` | the pair routines, the `HandleCollision` overloads and their double dispatch |
| `World` | `PhysicsManager.FixedUpdate` over the body list |

Floats are modelled as `real`. Three operations work on values the model
treats as opaque: the square root, the matrix inverse and the
quaternion/rotation functions. They are the fields of a `Numerics`
parameter. Every property proved below holds for any choice of them,
unless its `requires` says otherwise.

Each method that changes body fields is proved against a pure function on
value snapshots. Properties such as conservation of momentum and the
order in which pairs are visited are proved as lemmas about those
functions.

## Model

| member | source | states |
|---|---|---|
| Geometry.ComputeLocalBounds | Assets/Scripts/PhysicsManager.cs:171-180 | The result is `None` exactly for an empty vertex array. Otherwise every vertex lies within the bounds componentwise, and each bound component is attained by some vertex. The loop's result is the fold `LocalBounds` of `Vector3.Min`/`Max` over the vertices. |
| Geometry.SphereSphereSymmetric | Assets/Scripts/PhysicsManager.cs:192-196 | The sphere/sphere test does not depend on the order of the two spheres. |
| Geometry.SphereSphereByDistance | Assets/Scripts/PhysicsManager.cs:192-196 | With non-negative radii, the squared test means `distance < r1 + r2`, so spheres that only touch do not intersect. |
| Geometry.ClosestPoint | Assets/Scripts/PhysicsManager.cs:204-208 | The clamping loop sets each coordinate into `[-e_i, e_i]`, which gives the box clamp of the local centre. |
| Geometry.BoxClampIsClosest | Assets/Scripts/PhysicsManager.cs:204-212 | The clamped point lies in the box, and no point of the box is nearer to the sphere's centre. |
| Geometry.CentreInsideHits | Assets/Scripts/PhysicsManager.cs:198-212 | A sphere of positive radius whose centre is inside the box always intersects it. |
| Geometry.FarOnOneAxisMisses | Assets/Scripts/PhysicsManager.cs:198-212 | A sphere whose centre lies beyond either face of any one axis of the box by more than the radius does not intersect it. |
| Geometry.RaycastExits | Assets/Scripts/PhysicsSphere.cs:58-75 | A centre behind the ray origin gives no hit. Otherwise the ray misses exactly when the centre is farther than the radius from its foot point `GetPoint(t)` on the ray. |
| Geometry.RaycastThroughCentre | Assets/Scripts/PhysicsSphere.cs:58-75 | A unit ray that passes through the centre at `t` hits the sphere at distance `t - sqrt(r * r)`, at the point the ray reaches there. |
| Triangles.PlaneThrough | Assets/Scripts/PhysicsManager.cs:262-263 | The plane's normal is the normalised cross product of the edges, and the plane passes through the first corner. |
| Triangles.ClassifyMeaning | Assets/Scripts/PhysicsManager.cs:268-289 | `COPLANAR` exactly when all three distances are within epsilon. `FALSE` exactly when the signs agree and the triangle is not coplanar. `TRUE` in every other case. |
| Triangles.TestPlanes | Assets/Scripts/PhysicsManager.cs:262-290 | The classification of the second triangle against the first one's plane. A coplanar answer leaves both `ref`s alone. A one-sided answer stores only the distances. A crossing answer stores the distances and the normal. |
| Triangles.CheckLineSegment | Assets/Scripts/PhysicsManager.cs:292-311 | The interval endpoints are the two points' coordinates on the dominant axis. |
| Triangles.CheckLineSegmentCrossings | Assets/Scripts/PhysicsManager.cs:292-311 | The two points lie on the edges `a-b` and `c-b`, at the parameters where the linearly interpolated signed distance is zero. |
| Triangles.Straddle | Assets/Scripts/PhysicsManager.cs:350-358 | The result is one of the three rotations of the corners, with the distances rotated alike. For a crossing triangle, the middle corner is alone on its side of the plane. |
| Triangles.OrderInterval | Assets/Scripts/PhysicsManager.cs:360-368 | The interval comes out ordered, with its points swapped alongside. An interval that is already ordered is left alone. |
| Triangles.OrderKeepsCoordinates | Assets/Scripts/PhysicsManager.cs:360-368 | After the swap, each endpoint is still its point's coordinate on the axis. |
| Triangles.ArgMaxAbs | Assets/Scripts/PhysicsManager.cs:334-345 | The index of a largest `abs(D[i])`, the lowest such index on ties. |
| Triangles.ArgMaxAbsUnique | Assets/Scripts/PhysicsManager.cs:334-345 | Those two properties determine the index uniquely. |
| Triangles.DominantAxis | Assets/Scripts/PhysicsManager.cs:334-345 | The loop picks exactly `ArgMaxAbs` of the direction of the planes' line of intersection. |
| Triangles.Chord | Assets/Scripts/PhysicsManager.cs:347-368 | For a crossing triangle, an ordered interval whose endpoints are its chord points' coordinates on the axis. |
| Triangles.Project | Assets/Scripts/PhysicsManager.cs:319-368 | A projection is produced exactly when both plane tests answer `TRUE`. Both of its intervals are then ordered and tied to their points. |
| Triangles.IntersectMeaning | Assets/Scripts/PhysicsManager.cs:313-407 | Two triangles intersect exactly when both plane tests cross and the closed intervals overlap. The segment then runs, on the axis, from the larger start to the smaller end. |
| Triangles.OneSidedMisses | Assets/Scripts/PhysicsManager.cs:319-332 | There is no intersection when either triangle lies wholly on one side of the other's plane, or when the second lies in the first one's plane. |
| Triangles.TriangleIntersection | Assets/Scripts/PhysicsManager.cs:313-407 | Returns true exactly when `Intersect` finds a segment, and then stores that segment. `L` is untouched otherwise. |
| Dynamics.PositionShares | Assets/Scripts/PhysicsObject.cs:137-141 | The two positional corrections add up to `norm * overlapDist`. Corrections weighted by the masses are equal. |
| Dynamics.ResolveSeparates | Assets/Scripts/PhysicsObject.cs:137-141 | The correction opens the gap between the centres by exactly `norm * overlapDist`. |
| Dynamics.ResolveKeepsCentreOfMass | Assets/Scripts/PhysicsObject.cs:137-141 | The correction leaves the mass-weighted sum of the positions unchanged. |
| Dynamics.ImpulseMagnitude | Assets/Scripts/PhysicsObject.cs:160-163 | `j * denominator == -(1 + e) * vrel` for a non-zero denominator. A zero denominator gives `j == 0`. |
| Dynamics.ApplyImpulse | Assets/Scripts/PhysicsObject.cs:114-122 | The change in velocity, times the mass, is the linear impulse. Mass, tensor and position are kept. |
| Dynamics.Separate | Assets/Scripts/PhysicsObject.cs:137-141 | Only the two positions change. |
| Dynamics.Resolve | Assets/Scripts/PhysicsObject.cs:130-171 | Masses and tensors are kept, and the positions are the separated ones. |
| Dynamics.ResolveConservesMomentum | Assets/Scripts/PhysicsObject.cs:130-171 | Equal and opposite impulses keep the pair's total linear momentum. |
| Dynamics.ResolveRestitution | Assets/Scripts/PhysicsObject.cs:143-167 | For non-spinning bodies, a unit normal and no rotational term, the relative normal velocity afterwards is `-0.9` times the one before. |
| Dynamics.ResolveContainer | Assets/Scripts/PhysicsObject.cs:173-201 | The body moves back by exactly `norm * overlapDist`. Mass and tensor are kept. |
| Dynamics.ContainerImpulseAlongNormal | Assets/Scripts/PhysicsObject.cs:173-201 | The body's momentum changes only along the contact normal. |
| Dynamics.LinearStep | Assets/Scripts/PhysicsObject.cs:78-81 | Newton's law over `dt`: `m * dv == (F + m g) dt` before damping. The position advances with the new velocity. The velocity is then damped by the factor `1 - 0.1 dt`. |
| Separation.CheckNonOverlap | Assets/Scripts/PhysicsCube.cs:114-131 | Returns true exactly when `R > R01`. A separating axis, or an axis equal to zero, leaves the contact alone. A smaller overlap on a non-degenerate axis replaces the depth and the normal. The contact points never change, and the depth never grows. |
| Separation.SweepNoneIff | Assets/Scripts/PhysicsCube.cs:154-245 | The chain of tests returns early exactly when some axis separates. |
| Separation.SweepIsMinimum | Assets/Scripts/PhysicsCube.cs:154-245 | With no separating axis, the final depth is at most the initial one. It is also at most the overlap of every non-degenerate axis. The contact points are untouched. |
| Separation.SweepAttained | Assets/Scripts/PhysicsCube.cs:154-245 | The final normal and depth are either the initial ones or those of one non-degenerate axis. |
| Separation.SatTests | Assets/Scripts/PhysicsCube.cs:142-245 | The fifteen tests in source order: the three face axes of this box, the three of the other box, and the nine edge axes `A[i] x B[j]`. |
| Separation.OrientContact | Assets/Scripts/PhysicsCube.cs:247-256 | The depth is kept. The normal is the found one or its negation, and it faces from this box towards the other. Both contact points coincide. |
| Separation.ContactPointsMeet | Assets/Scripts/PhysicsCube.cs:250-254 | The two contact points put on the centre line in proportion to the extents are the same point. |
| Separation.BoxBoxMeaning | Assets/Scripts/PhysicsCube.cs:135-257 | The boxes collide exactly when none of the fifteen axes separates them. The contact then has the least overlap over the non-degenerate axes, faces the other box and has coinciding points. |
| Containment.AxisPenetration | Assets/Scripts/PhysicsCube.cs:78-94 | An entry is recorded exactly when the coordinate is outside the min wall or the max wall. It then has positive depth at the vertex itself. |
| Containment.PenetrationsEmptyIff | Assets/Scripts/PhysicsCube.cs:69-111 | Nothing is recorded exactly when every scanned vertex is within the container's bounds. |
| Containment.PenetrationsWellFormed | Assets/Scripts/PhysicsCube.cs:78-94 | Every entry has positive depth, a point among the scanned vertices, and a wall normal `±e_i`. |
| Containment.MinDepthIsMinimum | Assets/Scripts/PhysicsCube.cs:85-92 | `minOverlap` is at most every recorded depth, and it is one of them unless it is still `float.MaxValue`. |
| Containment.WallContact | Assets/Scripts/PhysicsCube.cs:97-111 | The result is `None` exactly when nothing was recorded. Otherwise it carries the least depth and a zero `contactB`. |
| Containment.ScanVertex | Assets/Scripts/PhysicsCube.cs:78-95 | The axis loop over one vertex appends exactly that vertex's entries. The lists and the running minimum stay in step with them. |
| Containment.ScanAxis | Assets/Scripts/PhysicsCube.cs:80-94 | One pass appends the entry of that axis, if there is one. |
| Containment.SumAll | Assets/Scripts/PhysicsCube.cs:100-103 | The `foreach` sum is the front-to-back sum of the vectors. |
| Containment.Summarise | Assets/Scripts/PhysicsCube.cs:97-111 | Returns true exactly when no entry was recorded. Otherwise the contact is the wall contact of the entries. |
| Containment.CubeScan | Assets/Scripts/PhysicsCube.cs:69-96 | The scan reads at most the first eight world vertices and records exactly their penetrations. |
| Containment.ScanMeshVertex | Assets/Scripts/PhysicsCube.cs:71-95 | One pass of the `foreach` extends the entries by those of the next world vertex. |
| Containment.CubeInsideContainer | Assets/Scripts/PhysicsCube.cs:61-112 | Returns true exactly when the first eight world vertices are inside the bounds. Otherwise the contact is the wall contact of their penetrations. |
| Containment.ConeInsideContainer | Assets/Scripts/PhysicsCone.cs:71-118 | Returns true exactly when every world vertex is inside the bounds. Otherwise the contact is the wall contact of all penetrations. |
| Containment.ReflectFarFromWalls | Assets/Scripts/PhysicsSphere.cs:39-53 | A centre farther than the radius from both walls, and its velocity, are left alone. |
| Containment.ReflectMinWall | Assets/Scripts/PhysicsSphere.cs:41-46 | Touching only the min wall puts the centre one radius from it and sets the velocity to `-0.9 v`. |
| Containment.ReflectBothWalls | Assets/Scripts/PhysicsSphere.cs:39-53 | In a container narrower than the sphere, both walls fire in turn. The centre ends beside the max wall and the velocity ends at `0.81 v`. |
| Containment.ContainAxis | Assets/Scripts/PhysicsSphere.cs:41-52 | The two wall tests of one axis give exactly `ReflectAxis`. |
| Containment.ContainSphere | Assets/Scripts/PhysicsSphere.cs:39-53 | Each axis of the centre and of the velocity is reflected independently, which is `ReflectSphere`. |
| Bodies.ShapeOf | Assets/Scripts/PhysicsCube.cs:33-36 | Cube: the extents are half the local box times the scale. Sphere: the radius is half the x size of the world bounds. Cone: the bounding radius is half the diagonal of the world bounds. Sphere and cone move their bounds to world space. |
| Bodies.CubeExtentPositive | Assets/Scripts/PhysicsCube.cs:33-36 | A cube mesh that is not flat along x, at a positive scale, has a positive x extent. |
| Bodies.InertiaDiagonalMeaning | Assets/Scripts/PhysicsCone.cs:23-30 | The diagonal is positive for a positive mass and a non-zero size. Cube and sphere are isotropic, and the cone's axis has the smallest moment. |
| Bodies.WorldTriangles | Assets/Scripts/PhysicsObject.cs:71-76 | Every triangle corner is the base corner moved to the pose. |
| Bodies.MeshTriangles | Assets/Scripts/PhysicsObject.cs:55-61 | Every three indices name the corners of one triangle. |
| Bodies.Body.constructor | Assets/Scripts/PhysicsObject.cs:46-65 | `Init` leaves a valid body. It has zero velocity, force and torque and the mesh's triangles. Its shape is `ShapeOf` the mesh's local bounds at the spawn pose. Its inertia is the identity with the diagonal `UpdateInertiaTensor` sets, so the off-diagonal entries are zero. |
| Bodies.Body.UpdateInertiaTensor | Assets/Scripts/PhysicsCube.cs:38-43 | The diagonal is set by shape, and the base tensor is made equal to it. |
| Bodies.Body.SetMass | Assets/Scripts/PhysicsObject.cs:21-25 | The new mass is stored. The inertia diagonal is recomputed from it, and the off-diagonal entries of the previous tensor are kept. |
| Bodies.Body.AddForce | Assets/Scripts/PhysicsObject.cs:103-106 | The force accumulator grows by `f`. |
| Bodies.Body.AddForceAtPosition | Assets/Scripts/PhysicsObject.cs:108-112 | The force grows by `f`, and the torque grows by `Cross(point - position, f)`. |
| Bodies.Body.AddLinearImpulse | Assets/Scripts/PhysicsObject.cs:114-117 | The velocity grows by `impulse / mass`, so its change times the mass is the impulse. |
| Bodies.Body.AddAngularImpulse | Assets/Scripts/PhysicsObject.cs:119-122 | The angular velocity grows by `inverse(I) * impulse`. |
| Bodies.Body.ClearForces | Assets/Scripts/PhysicsObject.cs:124-128 | Force and torque are zeroed. |
| Bodies.Body.ResolveCollision | Assets/Scripts/PhysicsObject.cs:130-171 | Both bodies end in the states `Resolve` gives. |
| Bodies.Body.SeparateFrom | Assets/Scripts/PhysicsObject.cs:137-141 | The positional correction: both bodies end in the states `Separate` gives. |
| Bodies.Body.ExchangeImpulse | Assets/Scripts/PhysicsObject.cs:143-170 | The impulse of `PairResponse` is applied as `+j * norm` to this body and `-j * norm` to the other, each at its contact arm. |
| Bodies.Body.ResolveCollisionContainer | Assets/Scripts/PhysicsObject.cs:173-201 | The body ends in the state `ResolveContainer` gives. |
| Bodies.Body.UpdateTriangles | Assets/Scripts/PhysicsObject.cs:71-76 | The triangle array becomes the base triangles at the current pose. |
| Bodies.Body.Integrate | Assets/Scripts/PhysicsObject.cs:69-101 | The step updates the triangles at the old pose. Velocity and position follow `LinearStep`. The inertia becomes `R I0 R^T`. The angular velocity is advanced by `inverse(I) * torque * dt` and damped. The rotation comes from the supplied integrator. The accumulators are cleared. |
| Bodies.Body.ContainerStep | Assets/Scripts/PhysicsSphere.cs:30-54 | Sphere: the per-axis reflection of the centre and the velocity. Cube and cone (`PhysicsCube.cs:23-31`, `PhysicsCone.cs:31-39`): a wall resolution exactly when some scanned vertex lies outside, and no change otherwise. |
| Bodies.ContainerOutcome | Assets/Scripts/PhysicsCube.cs:23-31 | The container step keeps the mass and the inertia. Sphere: `ReflectSphere` of the centre and the velocity. Cube and cone: `ResolveContainer` against the wall contact when the scan finds one, and no change otherwise. |
| Bodies.Body.FixedUpdate | Assets/Scripts/PhysicsCone.cs:31-39 | The container step first, then the base step from the state it leaves. The triangles are placed at the contained position. Velocity and position follow `LinearStep`. The inertia becomes `R I0 R^T`. The angular velocity and rotation advance from the contained angular velocity. The accumulators are cleared. |
| Collisions.SphereSphereContact | Assets/Scripts/PhysicsSphere.cs:89-96 | The normal points from A to B, and the overlap is `rA + rB - distance`. |
| Collisions.SphereSphereContactMeaning | Assets/Scripts/PhysicsSphere.cs:82-100 | With an exact square root, a positive overlap means exactly that the spheres intersect. For centres more than `kEpsilon` apart, the normal times the distance is the centre offset, and `contactB` lies `overlapDist` behind `contactA` along the normal. |
| Collisions.SphereSphereCollision | Assets/Scripts/PhysicsSphere.cs:82-100 | Both spheres end in the sphere/sphere outcome: resolved only when they intersect. |
| Collisions.SphereBoxContact | Assets/Scripts/PhysicsManager.cs:215-246 | A contact exists exactly when `SphereOBBIntersect` holds. |
| Collisions.SphereBoxContactMeaning | Assets/Scripts/PhysicsManager.cs:215-246 | `contactB` is the box point nearest the sphere's centre, in the box frame. A centre inside the box always gives a contact. |
| Collisions.SphereOBBIntersect | Assets/Scripts/PhysicsManager.cs:198-213 | Returns the box-local test on the transformed centre and radius. |
| Collisions.SphereOBBCollision | Assets/Scripts/PhysicsManager.cs:215-246 | Both bodies end in the sphere/box outcome. |
| Collisions.BoxBoxCollision | Assets/Scripts/PhysicsCube.cs:135-257 | Both cubes end in the outcome of the separating-axis contact. |
| Collisions.FirstHitNoneIff | Assets/Scripts/PhysicsManager.cs:431-442 | The inner loop finds nothing exactly when the triangle meets none of the other body's triangles. |
| Collisions.FirstHitAt | Assets/Scripts/PhysicsManager.cs:431-442 | When it does find something, it is the segment of the lowest-index triangle met. |
| Collisions.MeshContact | Assets/Scripts/PhysicsManager.cs:433-438 | Both contact points are at the segment's midpoint. The overlap is 0.005, and the normal runs from obj1 to obj2. |
| Collisions.MeshResolutionsBound | Assets/Scripts/PhysicsManager.cs:426-446 | There is at most one resolution per triangle of the first body. The bound follows directly from how the model counts resolutions. The `break` itself is modelled by `CollideTriangle` and `TriangleOutcome`, where the first hit ends the triangle's scan. |
| Collisions.MeshFoldNoHit | Assets/Scripts/PhysicsManager.cs:426-446 | If no triangles meet, both bodies are unchanged and there are no resolutions. |
| Collisions.MeshFoldConservesMomentum | Assets/Scripts/PhysicsManager.cs:426-446 | The mesh test keeps the pair's linear momentum, however many resolutions it performs. |
| Collisions.CollideTriangle | Assets/Scripts/PhysicsManager.cs:429-443 | Reports a hit exactly when the triangle meets one of the other's. Both bodies end in that triangle's outcome. |
| Collisions.MeshCollision | Assets/Scripts/PhysicsManager.cs:426-446 | Both bodies end in the fold over obj1's triangles. The ghost count is the number of resolutions. |
| Collisions.SphereConeCollision | Assets/Scripts/PhysicsManager.cs:409-416 | A bounding-sphere prefilter, then the mesh test. Both bodies end in that outcome. |
| Collisions.CubeConeCollision | Assets/Scripts/PhysicsManager.cs:418-424 | A prefilter of the cone's bounding sphere against the cube with `SphereOBBIntersect`, then the mesh test. Both bodies end in that outcome. |
| Collisions.ConeConeCollision | Assets/Scripts/PhysicsCone.cs:62-69 | A prefilter on the two bounding spheres, then the mesh test. Both bodies end in that outcome. |
| Collisions.Route | Assets/Scripts/PhysicsSphere.cs:77-109 | The double dispatch gives every routine participants of the kinds it expects, and sends a same-kind pair to the callee's overload. The other overloads are in `PhysicsCube.cs:51-59,259-262` and `PhysicsCone.cs:47-60`. |
| Collisions.RouteBothSides | Assets/Scripts/PhysicsCone.cs:47-60 | Two bodies of different kinds run the same routine with the same argument order, whichever one starts the dispatch. |
| Collisions.Outcome | Assets/Scripts/PhysicsObject.cs:130-171 | No routine changes either body's mass or inertia. |
| Collisions.OutcomeConservesMomentum | Assets/Scripts/PhysicsObject.cs:164-170 | Every one of the six routines keeps the pair's linear momentum. |
| Collisions.DispatchConservesMomentum | Assets/Scripts/PhysicsObject.cs:164-170 | `caller.HandleCollision(callee)` keeps the pair's linear momentum. |
| Collisions.HandleCollision | Assets/Scripts/PhysicsSphere.cs:77-80 | `caller.HandleCollision(callee)` leaves both bodies in `Dispatch`'s outcome. |
| Collisions.HandleBySphere | Assets/Scripts/PhysicsSphere.cs:82-109 | The sphere's overloads, chosen by the caller's kind, give `Dispatch`'s outcome. |
| Collisions.HandleByCube | Assets/Scripts/PhysicsCube.cs:56-59 | The cube's overloads give `Dispatch`'s outcome (the cube/cube overload is `PhysicsCube.cs:135`, the cube/cone one `PhysicsCube.cs:259-262`). |
| Collisions.HandleByCone | Assets/Scripts/PhysicsCone.cs:52-69 | The cone's overloads give `Dispatch`'s outcome. |
| World.Row | Assets/Scripts/PhysicsManager.cs:148-151 | The inner loop's pairs for one `i`: `(i, k)` for every later `k`. |
| World.PairsMembers | Assets/Scripts/PhysicsManager.cs:146-152 | The first `m` outer passes visit exactly the pairs `i < j < n` with `i < m`. |
| World.PairsOrdered | Assets/Scripts/PhysicsManager.cs:146-152 | The pairs are visited in strictly increasing lexicographic order. |
| World.AllPairsMeaning | Assets/Scripts/PhysicsManager.cs:146-152 | Every unordered pair is visited exactly once, in lexicographic order. |
| World.PairStep | Assets/Scripts/PhysicsManager.cs:150 | One pair changes only the states of bodies `i` and `j`, and it keeps every body valid. |
| World.PairsFoldAppend | Assets/Scripts/PhysicsManager.cs:146-152 | Folding two runs of pairs one after the other equals folding their concatenation. |
| World.PairStepConservesMomentum | Assets/Scripts/PhysicsManager.cs:150 | One pair keeps the scene's total linear momentum. |
| World.PairsFoldConservesMomentum | Assets/Scripts/PhysicsManager.cs:144-152 | The whole collision pass keeps the scene's total linear momentum. |
| World.Manager.CollidePair | Assets/Scripts/PhysicsManager.cs:150 | The snapshots of the bodies after `objects[i].HandleCollision(objects[j])` are `PairStep` of those before. Only positions, velocities and angular velocities of the bodies may change. |
| World.Manager.CollideNext | Assets/Scripts/PhysicsManager.cs:150 | One turn of the inner loop extends the fold by the pair `(i, j)` and keeps the untouched fields. |
| World.Manager.CollideRow | Assets/Scripts/PhysicsManager.cs:148-151 | One inner loop is the fold over `Row(i, n)`. Force, torque and base tensor of every body are unchanged. |
| World.Manager.FixedUpdate | Assets/Scripts/PhysicsManager.cs:144-152 | Both loops together are the fold over every pair in lexicographic order. Force, torque and base tensor of every body are unchanged. |

## Left out

- Floating point: the model computes in exact reals. Rounding, NaN and infinity are not modelled, and `Mathf.Pow(x, 2)` is `x * x`.
- The square root, the matrix inverse, `Matrix4x4.Rotate` and the quaternion step of `FixedUpdate` are fields of the `Numerics` parameter. Their Unity implementations are not modelled.
- `InverseTransformPoint` is modelled with the transpose of the rotation matrix. That transpose is the inverse only for orthonormal matrices, which is what Unity produces. The box/box lemmas speak about the fifteen tests as the source computes them. They do not claim that unseparated boxes overlap geometrically.
- Dynamics.ImpulseMagnitude: a zero denominator, which the source turns into an infinite or undefined impulse, gives no impulse.
- Triangles.Project: on a `COPLANAR` answer from the second plane test, the source does not stop. It goes on with a zero distance vector and a zero normal. `CheckLineSegment` then divides zero by zero, and the NaN comparisons make the interval test return false. The model returns no intersection there directly. A `COPLANAR` answer from the first test calls `TriangleIntersection2D` (`PhysicsManager.cs:248-253`). That function only logs a message and returns false, and the model returns no intersection.
- Geometry.ComputeLocalBounds: an empty vertex array returns `None`, where the source throws on `vertices[0]`.
- The two `CheckRaycast` overrides of the cube and the cone always return false with an empty hit; they are not modelled. Only the sphere's query is.
- The `RaycastHit` record is reduced to its `distance` and `point`.
- `Start` and the spawning code are not modelled: container bounds, random poses, masses and velocities, and `GenerateGameObjects`. The manager is given its list of bodies. The container bounds are parameters of the bodies' step. `Start` passes the cone count to the cubes and the cube count to the cones (`PhysicsManager.cs:88-89`); only the spawned counts are affected.
- `Update`'s mouse-ray loop, `LateUpdate`, `Debug` calls and all rendering are not modelled. They are I/O.
- The compute-shader variant under `Assets/Scripts/Compute/` is not part of this model.
- Body.Init requires a positive mass, a positive scale, a non-empty mesh with a whole index list and, for a cube, a mesh that is not flat along x. The source does not check these but divides by the mass and by the projected radii. They are the class invariant `Valid` that every routine relies on.
- The order in which Unity calls each body's `FixedUpdate` relative to the manager's is not modelled. `Body.FixedUpdate` and `Manager.FixedUpdate` are separate steps.
- The triangles a body tests are those set at its last `FixedUpdate`, before that step moved it.
- The box/box sweep is modelled as a function on values. `CheckNonOverlap`'s `ref Contact` is threaded through `Sweep` as a value, and `BoxBoxCollision` calls it once.
