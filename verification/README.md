# A verified model of the SdS-TP5 granular silo

SdS-TP5 simulates grains falling out of a vibrating silo. The silo is a box
of `width x height`. Its floor sits at height `ys`, which oscillates as
`amplitude * sin(t * f)`. An opening of width `opening` in the middle of
the floor is bounded by two lip pseudo-particles. Grains are disks that
interact through a linear spring-dashpot contact law with Coulomb-capped
friction. Close pairs are found with a cell-index grid. A grain that falls
a tenth of the height below the floor is put back near the top and counted
in the flow. A Beeman-style predictor-corrector advances the state. Two
packers create the initial disks by rejection sampling. Two animation
scripts read the snapshot file back into frames and map world coordinates
to canvas pixels.

This project models those parts in Dafny and proves their properties:

- vectors.dfy, module `Vectors`: the two-element `double[]` vectors as a value type, with their sums.
- wall_versor.dfy, module `WallVersor`: the table of wall normals and tangents.
- particle.dfy, module `Particles`: `Particle`, the static id counter, and `FixedBaseParticle` as a particle kind.
- contact.dfy, module `Contact`: `getFnet`, `getParticleInteractionForce`, the wall forces, and sums over particle pairs.
- cell_grid.dfy, module `CellGrid`: grid sizing, the cell of a position, and the half stencil of neighbouring cells.
- silo.dfy, module `SiloEngine`: the class `Silo`: `addParticle`, `resetGrid`, `updateBase`, `performCellIndexMethod`, `getForceMatrix`.
- beeman.dfy, module `BeemanIntegrator`: the later integrator, src/main/java/engine/Beeman.java.
- beeman_early.dfy, module `BeemanEarly`: the earlier integrator, engine/Beeman.java.
- packing.dfy, module `Packing`: the random stream and the cell geometry that both packers share.
- generator.dfy, module `Generator`: the later packer, src/main/java/tools/ParticleGenerator.java.
- generator_early.dfy, module `GeneratorEarly`: the earlier packer, tools/ParticleGenerator.java.
- js_text.dfy, module `JsText`: JavaScript `trim`, `split`, `parseFloat` and `parseInt`.
- snapshot.dfy, module `Snapshot`: the snapshot file format and the reference reading of a file.
- anim.dfy, module `Anim`: `parseInputFile` and `worldToCanvas` of anim/main.js.
- anim_supersample.dfy, module `AnimSupersample`: `parseInputFile` and `worldToCanvas` of src/main/java/anim/main.js.

## How the model is built

- **Vectors.** Vectors are the datatype `Vec`. Particles are objects of a
  Dafny `class` with the source's mutable fields. The `Silo` class keeps
  `grains` and `grid` as sequence fields that its methods reassign.
- **Force matrices.** A force matrix is a `seq<Vec>` indexed by particle id.
- **Lip particles.** `FixedBaseParticle` overrides `updateSpeed`. It is
  modelled as a particle whose constant `kind` is `FixedBaseKind`;
  `UpdateSpeed` dispatches on that kind as the override does.
- **The static id counter.** `globalId` is an `IdCounter` object, passed to
  the constructor that increments it.
- **The force pass.** `performCellIndexMethod` is proved against a ghost
  snapshot of all grain positions, which the pass does not change. The
  invariant `PassInv` states two things for every grain:
  - each contact it records is with a grain in the same cell or in a
    stencil cell;
  - its contact force is the pair law summed over those contacts.

  The pass is also counted. The visits of the pass are a ghost list of
  `Visit` records, and `Hits` counts how often a visit makes one grain
  record another. `PairFoundOnce` shows that the half stencil and the
  own-cell loop make grain `g` record grain `q` exactly once when they are
  distinct and in the same or adjacent cells, and never otherwise.
  From this:
  - after the pass, the neighbour list of every grain holds, as a
    multiset, exactly `Found`: every other grain of the same or an
    adjacent cell within `neighborRadius`;
  - its contact force is the pair law summed over those grains
    (`ContactSum`);
  - `getForceMatrix` returns `ForceMatrixOf` the grains where they are.
    This is a pure function of their positions: gravity, `ContactSum`, the
    side walls and the floor, in the row of each grain's id.

  `NearbyIsInReach` compares the grid search with a brute-force search
  over all pairs (`InReach`). The two agree when `sqrt` is a square root
  and the cells are wider than `neighborRadius` plus two radii.
- **Integrators and packers.** Each loop is a `while` with invariants. Its
  `ensures` ties the new state to a specification function: `StepAll`,
  `EarlyStepAll`, `UpdatedAll`, `Packed`.
- **Animation readers.** Both `parseInputFile` loops are imperative
  methods, proved equal to the reference reading `Snapshot.FramesOf`. For
  anim/main.js, they are also proved equal to the reference list of
  warnings, `Anim.WarningsOf`.
- **Inputs passed as parameters.**
  - `Math.sqrt` and `Math.sin` are function-valued parameters, and nothing
    is assumed about them.
  - The clock-seeded draws of `updateBase` are a sequence of `Draw` pairs,
    one per grain. The source builds a new `Random` for the height and
    another for the horizontal position, each from its own reading of the
    clock, so the height uses `uy` and the position `ux`, and the two may
    differ.
  - The packers' `java.util.Random` is a stream `nat -> real` with a draw
    counter. Bounds on the draws are assumed only where a contract says
    `Uniform(random.stream) ==> ...`.

## Model

| member | source | states |
|---|---|---|
| Vectors.SumVecAppend | engine/Silo.java:168-172 | the sum of a concatenation is the sum of the sums, so contact forces can be accumulated in any grouping |
| Vectors.SumVecUpdate | engine/Silo.java:168-172 | replacing one contact force changes the total by exactly the difference |
| Vectors.SumVecZeros | engine/Silo.java:195-197 | contact forces that are all reset sum to zero |
| Vectors.AddNegCancels | engine/Silo.java:168-172 | adding `fnet` to one particle and subtracting it from another leaves the total unchanged |
| WallVersor.TableIsUnit | src/main/java/engine/WallVersor.java:4-6 | every normal `en` and tangent `et` of LEFT, RIGHT and DOWN is a unit vector |
| WallVersor.TableIsOrthonormalFrame | src/main/java/engine/WallVersor.java:4-6 | for every wall `en . et = 0` and `et = (-en.y, en.x)`, the tangent convention of the particle pairs |
| WallVersor.NormalsPointInward | src/main/java/engine/WallVersor.java:4-6 | LEFT points to +x, RIGHT to -x, DOWN to +y |
| Particles.IdCounter.constructor | engine/Particle.java:8 | the global id counter starts at 0 |
| Particles.Particle.constructor | engine/Particle.java:17-19 | the three-argument constructor takes the counter's value as id and advances it by exactly one; the particle is at rest with zero contact force and no neighbours |
| Particles.Particle.WithId | engine/Particle.java:21-26 | the explicit-id constructor uses the given id and leaves the counter alone |
| Particles.Particle.FixedBase | src/main/java/engine/FixedBaseParticle.java:5-7 | a lip particle has radius 0 and id 10000 at the given point, and no counter is involved |
| Particles.Particle.GetPos | engine/Particle.java:38-40 | returns the current `(x, y)` and reads nothing else |
| Particles.Particle.GetSpeed | engine/Particle.java:42-44 | returns the current `(speedx, speedy)` |
| Particles.Particle.UpdatePos | engine/Particle.java:28-31 | sets `x` and `y` to the new position; only those fields change |
| Particles.Particle.UpdateSpeed | engine/Particle.java:33-36 | a grain copies both components; a lip particle copies only `speedy` and keeps `speedx` (src/main/java/engine/FixedBaseParticle.java:13-16) |
| Particles.Particle.UpdateBaseY | src/main/java/engine/FixedBaseParticle.java:9-11 | `updatePos(double y)` of a lip particle sets `y` and nothing else |
| Particles.Particle.ResetContactForce | engine/Particle.java:54-58 | the contact force becomes zero and the neighbour list empty |
| Particles.Particle.AddNeighbor | engine/Particle.java:50-52 | appends exactly one entry to `neighbors` |
| Particles.GapSymmetric | engine/Particle.java:46-48 | the surface gap, centre distance minus both radii, is symmetric in the two bodies |
| Particles.GetDistanceSymmetric | engine/Particle.java:46-48 | `p.getDistance(q) == q.getDistance(p)` |
| Particles.EqualsIsIdEquivalence | engine/Particle.java:73-81 | `equals` is reflexive, symmetric and transitive, holds exactly when the ids agree, and equal particles have equal hashes |
| Contact.Signum | engine/Silo.java:136 | `Math.signum` is -1, 0 or 1, with the sign of its argument |
| Contact.FnetFlip | engine/Silo.java:132-139 | flipping the relative speed, the normal and the tangent together flips `getFnet` |
| Contact.FrictionCoeffFlip | engine/Silo.java:135-136 | the Coulomb-capped friction coefficient is unchanged when the normal force, the relative speed and the tangent all flip |
| Contact.FnetAtRest | engine/Silo.java:132-139 | with zero relative speed there is no friction, only `-kn * xi` along the normal |
| Contact.NoOverlapNoForce | engine/Silo.java:141-147 | `getParticleInteractionForce` is (0, 0) when `xi = r1 + r2 - dr <= 0` |
| Contact.UnitFlip | engine/Silo.java:148-151 | the unit normal from `q` to `p` is minus the one from `p` to `q` |
| Contact.InteractionAntisymmetric | engine/Silo.java:141-158 | Newton's third law: the force on `q` from `p` is minus the force on `p` from `q` |
| Contact.GatedAntisymmetric | engine/Silo.java:166-167 | the `neighborRadius` test is symmetric, so the gated law is antisymmetric too |
| Contact.SelfForceIsZero | engine/Silo.java:141-158 | an antisymmetric law exerts nothing of a body on itself |
| Contact.RowSumWithoutSelf | engine/Silo.java:276-280 | leaving the particle itself out of its own cell row does not change the row's sum |
| Contact.ColSumIsNegatedRow | engine/Silo.java:168-172 | what a particle receives from a list is minus what it exerts on that list |
| Contact.PairSumSelfIsZero | engine/Silo.java:178-186 | over all ordered pairs of one set of bodies an antisymmetric law sums to zero |
| Contact.RowsWithoutSelfIsPairSum | engine/Silo.java:178-186 | the own-cell rows of the first `j` particles are the pair sum over them |
| Contact.SameCellRowsCancel | engine/Silo.java:178-186 | visiting every particle of a cell against all the others of that cell adds zero net force |
| Contact.LawIsAntisymmetric | engine/Silo.java:141-158 | the pair law of the silo, as a function, is antisymmetric |
| Contact.WallPushesInward | engine/Silo.java:206-235 | a body at rest overlapping a wall gets `-kn * xi > 0` times the wall's inward normal |
| Contact.LeftWallAtRest | engine/Silo.java:206-214 | the left wall pushes a body at rest towards +x only |
| Contact.RightWallAtRest | engine/Silo.java:216-224 | the right wall pushes a body at rest towards -x only |
| Contact.FloorAtRest | engine/Silo.java:226-235 | the floor pushes a body at rest towards +y only |
| CellGrid.Ceil | engine/Silo.java:51-52 | `Math.ceil` is the least integer not below its argument |
| CellGrid.CellCountBounds | engine/Silo.java:51-55 | with room for one cell there is at least one cell, and each cell side `extent / count` exceeds `neighborRadius + 2 * maxParRadius` |
| CellGrid.CloseCoordinatesAdjacentSlots | engine/Silo.java:82 | coordinates less than one cell apart fall into the same or the next column (row) |
| CellGrid.SlotInRange | engine/Silo.java:82 | a coordinate in `[0, extent)` gets a slot in `[0, count)` |
| CellGrid.CellIndexInRange | engine/Silo.java:77-82 | a position gets a cell exactly when it lies in `[0, width) x [0, height)`, and that cell is `col + N * row` in `[0, M * N)` |
| CellGrid.RowColOf | engine/Silo.java:254-255 | `cellIndex / N` and `cellIndex % N` give back the row and column of `col + N * row` |
| CellGrid.DivModUnique | engine/Silo.java:254-255 | division with remainder is unique |
| CellGrid.StepValue | engine/Silo.java:263-270 | one direction adds the cell `newRow * N + newCol` exactly when it lies in the grid |
| CellGrid.StencilSound | engine/Silo.java:251-274 | every stencil cell lies in the grid, is adjacent to and different from the cell, and is above it or one column to the right |
| CellGrid.StencilComplete | engine/Silo.java:251-274 | every such cell is in the stencil |
| CellGrid.StencilCoversEachPairOnce | engine/Silo.java:251-274 | of two distinct adjacent cells exactly one lists the other in its stencil |
| CellGrid.StepSound | engine/Silo.java:263-270 | a cell one direction away lies in the grid, is adjacent to and different from the cell, at the row and column of that direction |
| CellGrid.StepComplete | engine/Silo.java:263-270 | every grid cell at a direction's row and column is the cell that direction adds |
| CellGrid.StencilUnrolled | engine/Silo.java:256-273 | the stencil is the cells of the four directions, in the order of the source's loop |
| SiloEngine.RecycledY | engine/Silo.java:102 | `u * 0.3 + 0.4` lies in [0.4, 0.7) for a draw in [0, 1) |
| SiloEngine.ClampX | engine/Silo.java:103-108 | the new `x` lies in `[0.011, width - 0.011]` and is the drawn value when that already lies there |
| SiloEngine.CountFallen | engine/Silo.java:101 | the number of fallen grains lies between 0 and the number of grains |
| SiloEngine.CountFallenPrefix | engine/Silo.java:100-112 | counting one more grain adds one exactly when it has fallen |
| SiloEngine.UniquePairs | engine/Silo.java:100 | two positions of the grain list hold different particles |
| SiloEngine.DistinctIdPairs | engine/Silo.java:246 | two positions of the grain list hold different ids |
| SiloEngine.RemoveFirstIdAt | engine/Silo.java:276-280 | `remove(p)`, which compares by id, removes exactly the first entry with `p`'s id |
| SiloEngine.RemoveFirstIdAbsent | engine/Silo.java:276-280 | without such an entry the list is unchanged |
| SiloEngine.FreeGrainForce | engine/Silo.java:201-246 | a grain clear of both walls and not straddling the floor level gets gravity plus its contact force only |
| SiloEngine.LeftWallPushesRight | engine/Silo.java:206-214 | a grain at rest crossing the left wall is pushed towards +x only |
| SiloEngine.RightWallPushesLeft | engine/Silo.java:216-224 | a grain at rest clear of the left wall and crossing the right wall is pushed towards -x only |
| SiloEngine.FloorPushesUp | engine/Silo.java:226-235 | a grain at rest beside the opening and straddling the floor is pushed towards +y only |
| SiloEngine.OpeningHasNoFloor | engine/Silo.java:236-243 | over the opening the lips act instead of the floor, and with neither lip touching nothing acts from below |
| SiloEngine.Silo.constructor | engine/Silo.java:37-62 | the constants are stored and `ky = 2 kn`; `M` and `N` come from `ceil(extent / side - 1)`; both cell sides exceed `side`; the lips sit at both edges of the opening; the grid has `M * N` empty cells; the grain list is empty; `ys`, time and flow start at zero |
| SiloEngine.Silo.InsertedKeepsInCell | engine/Silo.java:90-92 | inserting the next grain into a grid of the grains so far gives the grid of one grain more |
| SiloEngine.Silo.AddParticleToGrid | engine/Silo.java:73-84 | a particle inside the box joins the end of its cell and one outside changes nothing |
| SiloEngine.Silo.AddParticle | engine/Silo.java:68-71 | the grain always joins the end of the list, and is gridded as `addParticleToGrid` does |
| SiloEngine.Silo.ClearGrid | engine/Silo.java:87-89 | every cell becomes empty |
| SiloEngine.Silo.FillGrid | engine/Silo.java:90-92 | every cell then holds exactly the grains whose position lies in it, in list order |
| SiloEngine.Silo.ResetGrid | engine/Silo.java:86-93 | after `resetGrid` each cell holds exactly the in-box grains of that cell; the grid is therefore a function of the positions, and a second rebuild gives the same cells |
| SiloEngine.Silo.RecycleIfFallen | engine/Silo.java:101-112 | a fallen grain is put back at rest at `(ClampX(ux * width), uy * 0.3 + 0.4)`, with `uy` and `ux` the values of the two `Random` objects, and any other grain is left as it was |
| SiloEngine.Silo.MoveFloor | engine/Silo.java:96-99 | time advances by `dt`, `ys = amplitude * sin(t * f)`, both lips move to `ys`, and no grain changes |
| SiloEngine.Silo.RecycleFallen | engine/Silo.java:100-113 | every grain is updated as `RecycleIfFallen` says with its own pair of draws, and `totalFlow` grows by exactly the number of fallen grains |
| SiloEngine.Silo.RecycleStep | engine/Silo.java:100-113 | one turn of the loop: the grains before `k` are done, grain `k` is recycled or kept, those after it are untouched, and the flow counts grain `k` exactly when it has fallen |
| SiloEngine.Silo.UpdateBase | engine/Silo.java:95-114 | the whole of `updateBase`: the clock, the floor and the lips, each grain recycled or kept, and the flow counted; the grain list is unchanged |
| SiloEngine.Silo.DistinctGrainsDistinctIds | engine/Silo.java:246 | two different grains have different ids, so no row of the force matrix is written twice |
| SiloEngine.Silo.BodyMap | engine/Silo.java:160-189 | the snapshot of positions the pass reads maps every grain to its body and holds nothing else |
| SiloEngine.Silo.AdjacentCellsAreNear | engine/Silo.java:263-270 | points in adjacent cells are in neighbouring rows and columns |
| SiloEngine.Silo.SameCellIsNear | engine/Silo.java:276-280 | points of one cell are in the same row and column |
| SiloEngine.Silo.GetAboveAndRightAdjacentParticles | engine/Silo.java:251-274 | returns the particles of the stencil cells above, upper right, right and lower right, cell after cell |
| SiloEngine.Silo.GatherAppend | engine/Silo.java:263-271 | the particles of two runs of cells are those of the first, then those of the second |
| SiloEngine.Silo.GatherStep | engine/Silo.java:263-271 | one more direction appends the particles of its cell, when that cell lies in the grid |
| SiloEngine.Silo.GatheredCell | engine/Silo.java:269 | every particle gathered comes from one of the visited cells |
| SiloEngine.Silo.InCellMembers | engine/Silo.java:86-93 | a particle is listed in cell `c` exactly when it is a grain whose position lies in `c` |
| SiloEngine.GatherCount | engine/Silo.java:263-271 | the grains gathered from a list of distinct cells are each grain whose cell is in the list, once |
| SiloEngine.OwnCount | engine/Silo.java:276-280 | `getCurrentCellParticles` is each other grain of the cell, once |
| SiloEngine.ScatterAt | engine/Silo.java:245 | writing rows by distinct ids puts each row at its id and leaves the other entries |
| SiloEngine.Silo.CellMembers | engine/Silo.java:163 | after `resetGrid` the particles of a cell are grains of that cell, with distinct ids |
| SiloEngine.Silo.StencilNeighbor | engine/Silo.java:163-165 | a grain of a cell and a particle of its stencil are two different grains in neighbouring cells |
| SiloEngine.Silo.StencilMates | engine/Silo.java:164-166 | every particle of the stencil is a grain the pass may pair with the cell's grain |
| SiloEngine.Silo.CellMates | engine/Silo.java:276-280 | `getCurrentCellParticles` gives the cell without the grain, and each of them may be paired with it |
| SiloEngine.Silo.SameCellMate | engine/Silo.java:178 | two grains of one cell may be paired |
| SiloEngine.Silo.LayoutHolds | engine/Silo.java:160-189 | after `resetGrid` every grain of every cell has the neighbours the pass needs |
| SiloEngine.Silo.Meet | engine/Silo.java:168-174 | one contact adds `fnet` to the grain and one entry to its neighbours, and keeps the pass invariant |
| SiloEngine.Silo.PushContact | engine/Silo.java:168-169 | the two `contactForce` additions change only that grain, and add `fnet` to the total |
| SiloEngine.Silo.ExertPair | engine/Silo.java:165-177 | a stencil contact adds `fnet` to one grain and subtracts it from the other, so the total is unchanged |
| SiloEngine.Silo.ExertOwn | engine/Silo.java:178-186 | a same-cell contact adds the gated pair force to the grain only |
| SiloEngine.Silo.VisitStencil | engine/Silo.java:164-177 | the stencil loop of a grain keeps the pass invariant and leaves the total force unchanged |
| SiloEngine.Silo.StencilStep | engine/Silo.java:165-177 | one stencil visit keeps the pass invariant and the total force, and the records count that visit too |
| SiloEngine.Silo.VisitMate | engine/Silo.java:178-186 | one own-cell visit adds its pair force to the running row sum, keeps the pass invariant, and the records count that visit too |
| SiloEngine.Silo.VisitOwnCell | engine/Silo.java:178-186 | the own-cell loop adds to the total the grain's row over its cell-mates |
| SiloEngine.Silo.VisitGrain | engine/Silo.java:163-187 | one grain of a cell adds its own-cell row to the running sum of the cell's rows |
| SiloEngine.Silo.VisitCell | engine/Silo.java:162-188 | one cell, both loops for each of its grains, leaves the total contact force unchanged |
| SiloEngine.Silo.StepCell | engine/Silo.java:162-188 | one turn of the cell loop keeps the pass invariant at the next cell |
| SiloEngine.Silo.VisitCells | engine/Silo.java:162-188 | the cell loop ends with every cell visited, and each neighbour list has gained, as a multiset, exactly the grains `Found` for it |
| SiloEngine.Silo.GrainHitsCount | engine/Silo.java:163-187 | how often one grain's two loops make `g` record `q`: its own-cell and stencil hits when it is `g`, and one hit per stencil visit of `g` when it is `q` |
| SiloEngine.Silo.CellHitsCount | engine/Silo.java:162-188 | the same count over the first `n` grains of a cell: the own-cell and stencil hits of `g` when `g` is among them, plus one hit per stencil reach of `g` when `q` is among them |
| SiloEngine.Silo.CellShareStep | engine/Silo.java:162-188 | taking one more grain of the cell adds exactly that grain's hits to the count |
| SiloEngine.Silo.PassHitsCount | engine/Silo.java:160-189 | the same count over the first `n` cells of the pass, by the cells `g` and `q` sit in |
| SiloEngine.Silo.PairFoundOnce | engine/Silo.java:160-189 | the whole pass makes `g` record `q` exactly once when they are distinct and in the same or adjacent cells, and never otherwise |
| SiloEngine.Silo.RecsCount | engine/Silo.java:174-185 | `q` appears in `g`'s records as often as the pass visits the pair, when they are within `neighborRadius`, and never otherwise |
| SiloEngine.Silo.GriddedIsBinned | engine/Silo.java:86-93 | a rebuilt grid holds every grain of the box once, in the cell of its position |
| SiloEngine.Silo.CountsAgree | engine/Silo.java:160-189 | for each `q`, the pass records `q` for `g` as often as `Found` lists it |
| SiloEngine.Silo.PassFindsAll | engine/Silo.java:160-189 | the records of each grain are, as a multiset, exactly its `Found` grains |
| SiloEngine.Silo.PassRecordsFound | engine/Silo.java:174-185 | a pass that records what it visits leaves each neighbour list equal, as a multiset, to the old list plus `Found` |
| SiloEngine.Silo.PerformCellIndexMethod | engine/Silo.java:160-189 | each recorded contact is a gated pair law with a grain of the same or a stencil cell, and the sum of all contact forces is unchanged; the neighbour list of each grain gains, as a multiset, exactly `Found`: every other grain of its own or an adjacent cell within `neighborRadius`, each once |
| SiloEngine.Silo.ForceRows | engine/Silo.java:201-247 | one row per grain, in list order |
| SiloEngine.Silo.ForceOn | engine/Silo.java:202-245 | gravity `(0, -9.8 / 1000)` plus the contact force, the wall term and the floor term |
| SiloEngine.Silo.SideTerm | engine/Silo.java:206-225 | the left wall when the grain crosses `x = 0`, else the right wall when it crosses `x = width`, else nothing |
| SiloEngine.Silo.FloorTerm | engine/Silo.java:226-245 | for a grain straddling `ys`: the floor beside the opening, the two lip forces over it, and nothing otherwise |
| SiloEngine.Silo.ClearedPass | engine/Silo.java:195-197 | with every contact cleared the pass invariant holds and the total force is zero |
| SiloEngine.Silo.ClearContacts | engine/Silo.java:195-197 | `resetContactForce` on every grain |
| SiloEngine.Silo.ContactsFound | engine/Silo.java:166-183 | when each neighbour list is `Found`, each contact force is the pair law summed over the `Found` grains |
| SiloEngine.Silo.ContactsAreSums | engine/Silo.java:166-183 | that sum is `ContactSum` of the grain's index in `grains` |
| SiloEngine.Silo.FoundIsNearby | engine/Silo.java:163-187 | the positions of the `Found` grains, in list order, are those `Nearby` keeps: the other grains in the same or an adjacent cell within `neighborRadius` |
| SiloEngine.Silo.FoundStep | engine/Silo.java:163-187 | the next grain of the list is found exactly when it is another grain `Near` this one, and then its position is appended |
| SiloEngine.Silo.ReachIsNear | engine/Silo.java:51-55 | when cells are wider than `neighborRadius` plus two radii and `sqrt` is a square root, two grains are `Near` (same or adjacent cell, within `neighborRadius`) exactly when both are in the box and within `neighborRadius` |
| SiloEngine.Silo.NearbyIsInReach | engine/Silo.java:160-189 | under those hypotheses the grid search finds, in list order, the same grains as the brute-force search over all pairs |
| SiloEngine.Silo.ForceMatrixRows | engine/Silo.java:201-247 | with distinct ids in range, row `ids[k]` of `ForceMatrixOf` is gravity, `ContactSum`, the wall term and the floor term of grain `k` |
| SiloEngine.Silo.WriteRow | engine/Silo.java:201-246 | one turn of the last loop writes the row of grain `k` at its id |
| SiloEngine.Silo.SumContacts | engine/Silo.java:195-199 | the silo stays valid and each contact force is `ContactSum` of its grain |
| SiloEngine.Silo.RowsMatch | engine/Silo.java:201-247 | once each contact force is its `ContactSum`, the rows written are those of `ForceMatrixOf` |
| SiloEngine.Silo.ForceMatrix | engine/Silo.java:191-249 | `getForceMatrix` leaves the grains in place and returns `MatrixOf` their bodies |
| SiloEngine.Silo.WriteRows | engine/Silo.java:201-247 | `forceMatrix[p.getId()]` is the row of each grain `p`, and the matrix is those rows scattered by id over a zero matrix |
| SiloEngine.Silo.ComputeContacts | engine/Silo.java:195-199 | after the reset, the rebuild and the pass: the grid is rebuilt; the contact forces sum to (0, 0); each neighbour list is, as a multiset, exactly `Found`; each contact force is the pair law summed over the `Found` grains, which is `ContactSum` of the grain's index |
| SiloEngine.Silo.GetForceMatrix | engine/Silo.java:191-249 | the result is `ForceMatrixOf` the grains where they are, and also the rows built from their contact fields; `ys`, the clock and the flow are untouched |
| SiloEngine.Silo.MatrixRows | engine/Silo.java:201-247 | once every contact force is its `ContactSum`, the matrix written is a force matrix of the silo and equals `ForceMatrixOf` the grains where they are |
| BeemanIntegrator.ConstantForceIsUniformAcceleration | src/main/java/engine/Beeman.java:56-70 | under a force that stays `f`, the predicted position is `pos + v dt + dts f / (2m)`, and both the predicted and the corrected velocity are `v + dt f / m` |
| BeemanIntegrator.ForceFreeStep | src/main/java/engine/Beeman.java:53-73 | with all three force samples zero, a grain moves to `pos + v dt` and ends with velocity `0.9625 v` |
| BeemanIntegrator.ConstantForcePredictedPos | src/main/java/engine/Beeman.java:56 | under a constant force the predicted position is `pos + v dt + dts f / (2m)` |
| BeemanIntegrator.ConstantForcePredictedSpeed | src/main/java/engine/Beeman.java:57 | under a constant force the predicted velocity is `v + dt f / m` |
| BeemanIntegrator.ConstantForceCorrectedSpeed | src/main/java/engine/Beeman.java:70 | under a constant force the corrector adds `dt f / m` to its start velocity |
| BeemanIntegrator.PredictThenCorrect | src/main/java/engine/Beeman.java:44-74 | the predictor loop, then the corrector loop from the damped speeds, is one `Step` per grain |
| BeemanIntegrator.Beeman.constructor | src/main/java/engine/Beeman.java:12-18 | stores the constants, with `dts = dt * dt` |
| BeemanIntegrator.Beeman.BeemanEstimation | src/main/java/engine/Beeman.java:20-22 | a fresh iterator over this silo at time 0 |
| BeemanIntegrator.BeemanIterator.constructor | src/main/java/engine/Beeman.java:29-33 | time 0, the recorded speeds zero, and `prevForceMatrix` the silo's force matrix (`MatrixOf` the grains as they are), with no back-step |
| BeemanIntegrator.BeemanIterator.Next | src/main/java/engine/Beeman.java:41-78 | `updateBase`, then each grain moved by `StepAll` with the three matrices; the new `prevForceMatrix` is `MatrixOf` the updated state and the third matrix is `MatrixOf` the predicted state; time grows by `dt`; the flow grows by the fallen grains; the snapshot holds the time, the grains and the flow |
| BeemanIntegrator.BeemanIterator.Step | src/main/java/engine/Beeman.java:42-74 | what `next` does to the silo, with the first matrix `MatrixOf` the updated state and the second `MatrixOf` the predicted state |
| BeemanIntegrator.BeemanIterator.UpdatedForces | src/main/java/engine/Beeman.java:42-43 | `updateBase`, then the force matrix of the updated state, `MatrixOf` its bodies |
| BeemanIntegrator.BeemanIterator.Advance | src/main/java/engine/Beeman.java:44-74 | the predictor, the second force matrix, which is `MatrixOf` the predicted state, and the corrector: every grain ends as `StepAll` says |
| BeemanIntegrator.BeemanIterator.PredictedForces | src/main/java/engine/Beeman.java:44-62 | the predictor, then the force matrix of the predicted state, `MatrixOf` its bodies |
| BeemanIntegrator.Start | src/main/java/engine/Beeman.java:29-33 | the first force matrix, `MatrixOf` the grains as they are, and a zero speed per grain |
| BeemanIntegrator.BeemanIterator.Predict | src/main/java/engine/Beeman.java:44-61 | each grain moves to the predicted position and velocity, and `currentSpeed[id]` records `0.9625` times its pre-step velocity |
| BeemanIntegrator.BeemanIterator.Correct | src/main/java/engine/Beeman.java:63-74 | each velocity becomes `S + dt N / (3m) + 5 dt F / (6m) - dt P / (6m)` from the recorded speed `S` |
| BeemanEarly.BackStep | engine/Beeman.java:41 | the back-stepped velocity plus `dt F / m` is the initial velocity |
| BeemanEarly.BackSteps | engine/Beeman.java:34-43 | `prevSpeed[id] = v - dt F / m` for every grain |
| BeemanEarly.StepFromSpeed | engine/Beeman.java:79-83 | after a step a grain's velocity is the corrector applied from the start velocity given |
| BeemanEarly.ConstantForceCorrectSpeed | engine/Beeman.java:80 | under a constant force the corrector adds `dt f / m` to its start velocity |
| BeemanEarly.PredictThenCorrectFrom | engine/Beeman.java:55-84 | the predictor, then the corrector from `prevSpeed`, is one `EarlyStepAll` |
| BeemanEarly.EarlyConstantForceKeepsInitialSpeed | engine/Beeman.java:41-80 | as written: under a force constant since the start, every step gives back the initial velocity |
| BeemanEarly.EarlyStepPinsSpeeds | engine/Beeman.java:34-83 | as written, over the whole silo: with constant rows every grain's velocity after any step is its initial velocity |
| BeemanEarly.EarlyRestingGrainStaysAtRest | engine/Beeman.java:41-80 | as written, a grain at rest under gravity (`m = 1`) keeps `vy = 0`, where a step from its current velocity gives `-9.8 dt` |
| BeemanEarly.StepFromStartIsUniformAcceleration | engine/Beeman.java:79-80 | corrected: starting the corrector from the step's own velocity gives `v + dt f / m` under a constant force |
| BeemanEarly.Beeman.constructor | engine/Beeman.java:12-18 | stores the constants, with `dts = dt * dt` |
| BeemanEarly.Beeman.BeemanEstimation | engine/Beeman.java:20-22 | a fresh iterator over this silo at time 0 |
| BeemanEarly.BeemanIterator.constructor | engine/Beeman.java:29-44 | time 0, `prevForceMatrix` a force matrix of the silo as it is and `MatrixOf` the grains' positions, and `prevSpeed` one Euler step back from each grain's velocity |
| BeemanEarly.BeemanIterator.Next | engine/Beeman.java:52-88 | `updateBase`, then each grain moved by `EarlyStepAll` from `prevSpeed`, which stays as the constructor left it; the new `prevForceMatrix` is `MatrixOf` the updated state and the third matrix `MatrixOf` the predicted state; time grows by `dt`; the flow grows by the fallen grains; the snapshot holds the time and the grains |
| BeemanEarly.BeemanIterator.Step | engine/Beeman.java:53-84 | what `next` does to the silo, with the first matrix `MatrixOf` the updated state, the second `MatrixOf` the predicted state, and the flow grown by the fallen grains |
| BeemanEarly.BeemanIterator.UpdatedForces | engine/Beeman.java:53-54 | `updateBase`, with the flow grown by the fallen grains, then the force matrix of the updated state, `MatrixOf` its bodies |
| BeemanEarly.BeemanIterator.Advance | engine/Beeman.java:55-84 | the predictor, the second force matrix, which is `MatrixOf` the predicted state, and the corrector from `prevSpeed` |
| BeemanEarly.BeemanIterator.PredictedForces | engine/Beeman.java:55-72 | the predictor, then the force matrix of the predicted state, `MatrixOf` its bodies |
| BeemanEarly.Start | engine/Beeman.java:29-44 | the first force matrix, a force matrix of the silo as it is and `MatrixOf` the grains' positions, and the back-stepped speeds under it |
| BeemanEarly.BeemanIterator.Predict | engine/Beeman.java:55-71 | the same predicted positions and velocities as the later revision |
| BeemanEarly.BeemanIterator.Correct | engine/Beeman.java:73-84 | each velocity is corrected from `prevSpeed[id]` |
| Packing.Random.constructor | src/main/java/tools/ParticleGenerator.java:14 | a fresh stream, nothing drawn yet |
| Packing.Random.NextDouble | src/main/java/tools/ParticleGenerator.java:27-29 | each call returns the next value of the stream and counts one draw |
| Packing.CellIndex | src/main/java/tools/ParticleGenerator.java:97-98 | `(int) Math.floor(x / cellSize)` is the integer part of the quotient |
| Packing.ScaledInRange | src/main/java/tools/ParticleGenerator.java:28-29 | `u * len + r` with `u` in [0, 1) lies in `[r, r + len)` |
| Packing.CloserSymmetric | src/main/java/tools/ParticleGenerator.java:76-80 | the squared-distance test is symmetric |
| Packing.CloserWithin | src/main/java/tools/ParticleGenerator.java:79-80 | a pair closer than `s` is closer than any larger `t` |
| Packing.IndexStep | src/main/java/tools/ParticleGenerator.java:97-98 | coordinates less than a cell apart have cell indices at most one apart |
| Packing.CloseMeansAdjacentCells | src/main/java/tools/ParticleGenerator.java:96-100 | two centres closer than one cell side lie in cells at most one apart in each direction |
| Generator.FromPos | src/main/java/tools/ParticleGenerator.java:96-100 | `Cell.fromPos` is the cell whose square of side `cellSize` holds the point |
| Generator.DirectionsCoverBlock | src/main/java/tools/ParticleGenerator.java:56-71 | the nine offsets reach exactly the 3x3 block around the cell |
| Generator.DrawsInRange | src/main/java/tools/ParticleGenerator.java:27-29 | three draws in [0, 1) give a radius in [rMin, rMax] and a centre that keeps the disk inside the box |
| Generator.StoresAfterAdd | src/main/java/tools/ParticleGenerator.java:64-66 | storing a disk under the cell of its centre keeps the grid holding exactly the accepted disks, each under its own cell |
| Generator.ClearOfCollision | src/main/java/tools/ParticleGenerator.java:69-84 | with `cellSize = 2 rMax`, no collision in the 3x3 block means no overlap with any accepted disk |
| Generator.DisjointSnoc | src/main/java/tools/ParticleGenerator.java:31-38 | a disk that overlaps none of the earlier ones keeps the accepted disks pairwise disjoint |
| Generator.GeneratedGrid.constructor | src/main/java/tools/ParticleGenerator.java:60-62 | an empty map |
| Generator.GeneratedGrid.AddParticle | src/main/java/tools/ParticleGenerator.java:64-66 | `p` is appended to the list of its cell, which is created when missing; nothing else changes |
| Generator.GeneratedGrid.CheckCollision | src/main/java/tools/ParticleGenerator.java:69-84 | true exactly when a disk stored in the 3x3 block has `dist2 < (r_other + rNew)^2` |
| Generator.Attempt | src/main/java/tools/ParticleGenerator.java:27-39 | three draws; an accepted disk is fresh, takes the next id, is stored under its cell and collides with nothing; a rejected attempt changes neither grid nor counter |
| Generator.PlaceOne | src/main/java/tools/ParticleGenerator.java:24-40 | at most 2000 attempts for one request: a failed request draws 6000 values and stores nothing |
| Generator.Request | src/main/java/tools/ParticleGenerator.java:22-45 | one request keeps the packing invariant, with one disk more when it is placed |
| Generator.PackedAfterAdd | src/main/java/tools/ParticleGenerator.java:31-38 | an accepted disk keeps the grid exact, the disks pairwise disjoint and every disk in range |
| Generator.Generate | src/main/java/tools/ParticleGenerator.java:10-50 | `placed + failures` is the number requested; the consumer receives `placed` fresh particles with consecutive ids; at least 3 draws per placed disk and `3 * MaxAttempts` per failed request, at most `3 * MaxAttempts` per request; with draws in [0, 1) the accepted disks are pairwise disjoint and inside the box |
| GeneratorEarly.Cell.constructor | tools/ParticleGenerator.java:86-89 | a cell with the given coordinates |
| GeneratorEarly.Cell.SetI | tools/ParticleGenerator.java:91-93 | sets `i` only |
| GeneratorEarly.Cell.SetJ | tools/ParticleGenerator.java:95-97 | sets `j` only |
| GeneratorEarly.DirectionsCoverBlock | tools/ParticleGenerator.java:38-62 | the nine offsets of this revision reach exactly the 3x3 block |
| GeneratorEarly.RadiusInRange | tools/ParticleGenerator.java:17 | `u * 0.2 + 0.9` lies in [0.9, 1.1) |
| GeneratorEarly.CentreInRange | tools/ParticleGenerator.java:18-19 | a centre drawn as `v * (len - 2r) + r` keeps the disk inside the side |
| GeneratorEarly.ClearOfCrowding | tools/ParticleGenerator.java:60-77 | with cell side 2.2 as the test distance, a centre not crowded in its block is 2.2 or more from every accepted centre |
| GeneratorEarly.SpacedIsDisjoint | tools/ParticleGenerator.java:13-17 | centres 2.2 apart with radii in [0.9, 1.1] give disks that do not overlap |
| GeneratorEarly.PlacedIsDisjoint | tools/ParticleGenerator.java:16-31 | under the packing invariant with draws in [0, 1) the disks do not overlap |
| GeneratorEarly.SpacedSnoc | tools/ParticleGenerator.java:23-30 | a centre no closer than 2.2 to the earlier ones keeps all centres spaced |
| GeneratorEarly.PackedAfterAdd | tools/ParticleGenerator.java:23-31 | an accepted disk keeps the grid exact and the centres spaced |
| GeneratorEarly.GeneratedGrid.constructor | tools/ParticleGenerator.java:51-54 | the cell side is twice the radius given, and the map is empty |
| GeneratorEarly.GeneratedGrid.AddParticle | tools/ParticleGenerator.java:56-58 | the particle is appended to the list of the cell's current key |
| GeneratorEarly.GeneratedGrid.CheckCollision | tools/ParticleGenerator.java:60-78 | true exactly when a stored centre in the 3x3 block lies closer than the cell side |
| GeneratorEarly.DrawCentre | tools/ParticleGenerator.java:18-19 | two draws give a centre that keeps the disk inside the box |
| GeneratorEarly.Redraw | tools/ParticleGenerator.java:23-28 | a new centre, the mutable cell moved to it with `setI` and `setJ`, and the crowding test of that centre |
| GeneratorEarly.PlaceOne | tools/ParticleGenerator.java:17-31 | a radius and a centre, then new centres while crowded; a placed disk is fresh, takes the next id, is stored under the cell of its final centre and is not crowded |
| GeneratorEarly.Request | tools/ParticleGenerator.java:16-32 | one request keeps the packing invariant |
| GeneratorEarly.Generate | tools/ParticleGenerator.java:9-33 | when the redraws terminate, all `particleNumber` particles are delivered with consecutive ids; the centres are pairwise 2.2 or more apart, and with draws in [0, 1) the disks are disjoint and inside the box |
| JsText.TrimStartCut | anim/main.js:65 | `trimStart` cuts a run of space off the front and nothing else |
| JsText.TrimEndCut | anim/main.js:65 | `trimEnd` cuts a run of space off the back and nothing else |
| JsText.TrimIsCore | anim/main.js:65 | `trim` leaves a slice with only space cut on either side, and it neither starts nor ends with space |
| JsText.TrimOfTrimmed | anim/main.js:65 | a string with no space at either end is its own trim |
| JsText.TrimIdempotent | anim/main.js:86 | trimming twice is trimming once |
| JsText.Split | anim/main.js:86 | `split` gives at least one piece, and no piece holds the separator |
| JsText.IndexOf | anim/main.js:86 | the first position of a character |
| JsText.SplitJoin | anim/main.js:86 | joining the pieces of a split gives back the string |
| JsText.SplitAppend | anim/main.js:86 | a separator between two strings ends the pieces of the first one there |
| JsText.SplitLines | anim/main.js:65 | `split(/\r?\n/)` gives one piece per line feed plus one, none holding a line feed; the last piece is kept whole, and each earlier one loses exactly the carriage return before its line feed, if there is one |
| JsText.TrimDropCr | anim/main.js:65 | `trim` cuts the carriage return that the split removes anyway |
| JsText.DigitRun | anim/main.js:79 | the longest run of digits a string starts with |
| JsText.DigitChar | anim/main.js:79 | the digit character of a value below ten |
| JsText.Digits | anim/main.js:79 | the decimal digits of a natural number, at least one |
| JsText.DigitsValueOfDigits | anim/main.js:79 | the value of the digits of `n` is `n` |
| JsText.ParseFloatDigits | anim/main.js:78-93 | `parseFloat` reads back the digits of any natural number, with or without a minus sign |
| JsText.UnsignedDigits | anim/main.js:89-93 | a run of digits alone reads as its value |
| JsText.ParseIntDigits | anim/main.js:79 | `parseInt(_, 10)` reads back the digits of any natural number, with or without a minus sign |
| Snapshot.LinesTrimmed | anim/main.js:65 | every line is trimmed and not empty |
| Snapshot.LinesIgnoreCr | anim/main.js:65 | after `trim` and the filter, splitting at `/\r?\n/` gives the same lines as splitting at line feeds alone |
| Snapshot.TrimmedNonEmpty | src/main/java/anim/main.js:42 | no more lines than pieces, each trimmed and not empty |
| Snapshot.MatchHeaderIsShape | anim/main.js:68-71 | the match succeeds with groups `(a, d)` exactly when the line is a numeral `a`, space, `-`, space and the digits `d` |
| Snapshot.MatchGivesShape | anim/main.js:68-71 | the groups of a match decompose the line in the shape of the regular expression |
| Snapshot.ShapeGivesMatch | anim/main.js:68-71 | every such decomposition is found by the match |
| Snapshot.HeaderValues | anim/main.js:78-79 | the time of a header is a finite number and its flow the value of its digits |
| Snapshot.NumeralIsFinite | anim/main.js:68-78 | `parseFloat` of a numeral of the header grammar is finite |
| Snapshot.Classify | anim/main.js:71-84 | a line is a header exactly when the regular expression matches it; any other line keeps its text and the particle it reads as |
| Snapshot.ClassifiedAt | anim/main.js:70-71 | the class of line `k` is the class of that line |
| Snapshot.Fields | anim/main.js:86 | one trimmed field per comma-separated piece |
| Snapshot.RecordedLine | anim/main.js:86-101 | a non-header line is recorded exactly when it has five or more fields and none of the first five is NaN |
| Snapshot.ExtraFieldsIgnored | anim/main.js:86-88 | fields after the fifth do not change what a line reads as |
| Snapshot.SameFirstFields | anim/main.js:88-93 | lines whose first five fields agree read the same particle |
| Snapshot.BodyLen | anim/main.js:84 | the lines before the first header |
| Snapshot.BodyHasNoHeader | anim/main.js:84 | those lines hold no header |
| Snapshot.FramesAppend | anim/main.js:70-106 | lines that start at a header, or none, start their frames afresh: the frames of `a + b` are those of `a`, then those of `b` |
| Snapshot.FrameOfHeader | anim/main.js:78-105 | every line between a header and the next header, or the end, belongs to that header's frame |
| Snapshot.NoHeaderNoFrames | anim/main.js:72-77 | lines with no header give no frame |
| Snapshot.HeadersAppend | anim/main.js:70-106 | the headers of `a + b` are those of `a`, then those of `b` |
| Snapshot.FramesFollowHeaders | anim/main.js:70-106 | one frame per header line, in file order, the `k`-th with the time and flow of the `k`-th header |
| Snapshot.ParticlesAppend | anim/main.js:82-103 | the particles of a frame keep file order |
| Snapshot.LineAt | anim/main.js:71-84 | the loops' header test at line `i` decides its class |
| Snapshot.HeaderAt | anim/main.js:78-79 | the time and flow of a header are those of its match |
| Snapshot.BodyStep | anim/main.js:84-103 | a frame's particle list grows by what its next line records |
| Snapshot.CloseFrame | anim/main.js:80-105 | the header at `h` opens the frame of the lines up to the next header or the end |
| Snapshot.SkipFrames | anim/main.js:72-77 | a line other than a header opens no frame |
| Anim.ParseInputFile | anim/main.js:63-109 | the frames are the reference reading, and the warnings the reference list of warnings |
| Anim.SkipStep | anim/main.js:71-77 | a line before the first header opens no frame and draws one "not a header" warning with its position |
| Anim.ReadFrame | anim/main.js:78-105 | a header, the lines up to the next header, and the frame they make |
| Anim.ReadFrameBody | anim/main.js:82-103 | the inner loop stops at the next header or the end, having read the particles and warnings of the lines between |
| Anim.ReadBodyLine | anim/main.js:84-103 | one line of the inner loop keeps its invariant |
| Anim.ReadLine | anim/main.js:86-101 | a line inside a frame adds its particle, or exactly the warning its reading calls for |
| Anim.HeaderStep | anim/main.js:70-80 | a header draws no warning and opens a frame |
| Anim.SkipWarning | anim/main.js:74 | before the first header a non-header line draws the "not a header" warning |
| Anim.WarningStep | anim/main.js:97-100 | the warnings from a line on are that line's, then the rest |
| Anim.EveryLineAccounted | anim/main.js:70-106 | every line is a header, a recorded particle or a warning, and exactly one of them |
| Anim.BodyAccounted | anim/main.js:84-103 | inside a frame every line is recorded or warned about |
| Anim.LineAccounted | anim/main.js:94-100 | a line inside a frame is recorded or warned about, not both |
| Anim.Round | anim/main.js:115-116 | `Math.round` lies within half a unit of its argument |
| Anim.TopOnMargin | anim/main.js:119 | the top of the silo, `y = height`, is drawn on the top margin, `cy = 20` |
| Anim.FloorOnBottomMargin | anim/main.js:116-119 | the floor `y = 0` is drawn within half a pixel of the bottom margin |
| Anim.CanvasRoundTrip | anim/main.js:118-119 | with a non-zero scale the world point is recovered from its canvas point |
| Anim.WorldRoundTrip | anim/main.js:118-119 | every canvas point shows the world point it is drawn at |
| Anim.AxesOrientation | anim/main.js:118-119 | with a positive scale the x axis keeps its direction and the y axis is inverted |
| AnimSupersample.ParseInputFile | src/main/java/anim/main.js:40-68 | the frames are the reference reading; lines outside frames and bad particle lines are dropped silently |
| AnimSupersample.ReadFrame | src/main/java/anim/main.js:50-65 | a header, the lines up to the next header, and the frame they make |
| AnimSupersample.ReadFrameBody | src/main/java/anim/main.js:53-64 | the inner loop stops at the next header or the end, having read the particles of the lines between |
| AnimSupersample.ReadBodyLine | src/main/java/anim/main.js:54-63 | one line of the inner loop keeps its invariant |
| AnimSupersample.NoSupersampleIsAnim | src/main/java/anim/main.js:71-78 | with supersample 1 the map is that of anim/main.js |
| AnimSupersample.PositionsScale | src/main/java/anim/main.js:72-76 | a point is drawn at `s` times its place without supersampling |
| AnimSupersample.CanvasSize | src/main/java/anim/main.js:73-74 | the canvas holds the silo at `scale * s` pixels per unit, rounded to a pixel, inside two margins of `20 s` |
| AnimSupersample.TopOnMargin | src/main/java/anim/main.js:72-76 | the top of the silo is drawn at `cy = 20 s` |
| AnimSupersample.CanvasRoundTrip | src/main/java/anim/main.js:75-76 | with `scale * s` non-zero the world point is recovered from its canvas point |
| AnimSupersample.WorldRoundTrip | src/main/java/anim/main.js:75-76 | every supersampled canvas point shows the world point it is drawn at |

## Left out

- Floating point: every number is an exact `real`. IEEE-754 rounding is not modelled, and neither is the NaN that `getParticleInteractionForce` would produce for two coincident centres that overlap; the model returns zero force there. A numeral such as `1e400`, which a JavaScript engine would read as Infinity, reads as a finite value.
- `Math.sqrt`, `Math.sin` and `Math.pow(_, 2)`: `sqrt` and `sin` are uninterpreted function parameters. `Math.pow(d, 2)` is written as `d * d`.
- `java.util.Random` and `System.currentTimeMillis`: the draws are parameters or a stream. Each stream value is not guaranteed to lie in [0, 1); the contracts that need that say so with `Uniform(random.stream) ==>`.
- Java `int` and `long` widths: ids, the cell counts `M` and `N`, `totalFlow` and the id counter are unbounded integers. Overflow is not modelled.
- Integer casts: `(int)` of a positive quotient is its floor, and the model uses the floor. `(int) Math.round(Math.ceil(v))` is `Ceil(v)`.
- `GeneratorEarly.Generate`: the redraw loop of tools/ParticleGenerator.java is unbounded. The model shares a `fuel` budget of redraws among the requests and reports whether every request was placed before the fuel ran out. The model therefore does not capture non-termination.
- `Silo.grainCount`, `totalFlow()` and `grains()` are field reads and have no members of their own. `hasNext` is the predicate `HasNext`, `time <= maxTime`, in both iterators.
- The debug list `neighbors` is kept only as far as `resetContactForce` and `addNeighbor` define it, and as the pass invariant uses it.
- The `Time` record is not part of this model beyond the fields the two `next` methods fill: time, grains and, in the later revision, the flow.
- The loops of the source are modelled as loops, but some loop bodies are factored into methods of their own: for example `ReadBodyLine`, `ReadFrame`, `RecycleIfFallen` and `VisitGrain`.
- `console.warn` in anim/main.js is modelled as the returned list of `Warning` values. Its line numbers are `i + 1`, with `i` the index in the list of non-empty trimmed lines, as the source computes them. They are not positions in the file.
- Not modelled:
  - file reading (`fs.readFileSync`);
  - `drawFrameToCanvas`, the canvas, PNG output, the command-line options and the `ffmpeg` process in both `main.js` files;
  - `System.err` and `System.out` messages of the packers;
  - `Particle.toString` and `csvString`;
  - both `PostProcessor.java` files and both `Main.java` files.
- `SiloEngine.Silo.constructor`: requires at least one row and one column of cells (`M, N >= 1`). With `M` or `N` zero, the source divides by zero into an infinite cell length and then fails at the first `addParticle` on an empty grid (engine/Silo.java:51-55, 82-83). That path is not modelled.
- `SiloEngine.Silo.GetForceMatrix`: requires the grain ids to be distinct and to lie in `0 .. n-1` (`IdsIndex`), and so do both integrators (`Ready`). For other ids the source throws at `forceMatrix[p.getId()]` (engine/Silo.java:245), or one row overwrites another. Those paths are not modelled.
- `SiloEngine.Silo.NearbyIsInReach`: the agreement with the brute-force search holds only under two hypotheses, that `sqrt` is a square root and that the cells are wider than `neighborRadius` plus two radii. `sqrt` is a parameter, and the silo does not store `maxParRadius`.
- `Math.round` is modelled as `floor(v + 0.5)`. It is used only for the canvas size.

## Findings

| source | as written | input that shows it | evidently intended | confidence | as-written member | corrected member |
| engine/Beeman.java:34-80 | the corrector of every step starts from `prevSpeed`, which the constructor computes once, one Euler step before the initial velocity, and nothing updates afterwards | one grain at rest, `m = 1`, under a constant force `(0, -9.8)` in all three samples: after every step its velocity is `(0, 0)` again | the corrector starts from the velocity the grain has at the start of the step, so a constant force accelerates it by `dt f / m` per step (the later revision does this with `currentSpeed`) | not executed | BeemanEarly.EarlyRestingGrainStaysAtRest | BeemanEarly.StepFromStartIsUniformAcceleration |

Both Findings members are proved. `BeemanEarly.EarlyConstantForceKeepsInitialSpeed` and `BeemanEarly.EarlyStepPinsSpeeds` state the general form of the as-written behaviour. The iterator of `BeemanEarly` models engine/Beeman.java as written. The integrator in `BeemanIntegrator`, which models src/main/java/engine/Beeman.java, starts its corrector from the current velocity, as the corrected member does, with the damping factor 0.9625 added.
