# Terrain: a verified model of the Diamond-Square terrain object

The terrain is a WebGL height field made of a (div+1)×(div+1) grid of vertices
over the rectangle [minX, maxX]×[minY, maxY]. Building a `Terrain` runs four
stages, in order:

1. The grid builder pushes every vertex at its analytic (x, y) with height 0,
   zero normals and zero counters. It then pushes two triangles per cell.
2. The wireframe pass turns every triangle (a, b, c) into the edge index
   pairs a-b, b-c and c-a.
3. The Diamond-Square synthesis does three things:
   - it sets the four corners to height 0.5;
   - it fills in every other height by diamond and square steps at halving
     step sizes. Each step writes the average of its neighbours plus a
     random perturbation scaled by `roughness * size`;
   - it computes per-vertex normals: every vertex gets the normalised
     average of the face normals of its triangles.
4. The colouring pass gives every vertex the RGBA colour of its height band.

The model keeps the source's form. `Terrain` is a class. Its growable
JavaScript arrays are `seq` fields that the methods reassign, and every loop
of the source is a `while` loop with its invariants. Each method is proved
against specification functions, and the lemmas in these modules are about
those functions:

| Module | Defines |
|---|---|
| `Grid` | vertex ids and positions, the flat grid, the cell triangles |
| `DiamondSquare` | the averages, the perturbation, which points a level reads and writes, the height bounds |
| `Heights` | the heights the synthesis computes: each pass as one simultaneous update, a level, the recursion, the corner seeding |
| `Wireframe` | the edge buffer of a triangle list |
| `Normals` | the accumulated face normals and counters |
| `Palette` | the height bands and the colour buffer |

`Arith` holds the modular-arithmetic facts behind the step pattern, and
`Geometry` holds the `vec3` operations.

The synthesis draws `Math.random()` once per step. The model takes the
draws as a function `random(size, row, col)`: the draw of the step at
(row, col) of the level with step size `size`. Each method of the synthesis
is proved to compute an exact function of the buffer it starts from and of
these draws:

- `DiamondPoint`: the average of the four diagonal neighbours at distance
  h plus `Perturbation(random(2h, row, col), scale)`.
- `SquarePoint`: the average of the in-grid axis neighbours plus the same
  kind of perturbation.
- `DiamondPassOf` and `SquarePassOf`: every target of the pass gets its
  point value, computed from the buffer the pass started from. The loops
  write one target at a time, but no target reads a point written by the
  same pass, so this is what the loops compute.
- `LevelOf`: the diamond pass, then the square pass.
- `Synthesis`: the level of step size, then the finer levels.
- `Seeded`: the corner seeding.

The main results:

- **Buffer sizes and grid positions.** The vertex, normal and colour buffers
  hold one entry per lattice point. The triangle buffer holds 2·div²
  triangles in cell order. The lattice spans the rectangle evenly.
- **Wireframe.** The edge buffer is a, b, b, c, c, a for each triangle. As a
  multiset it is the triangle buffer taken twice: every occurrence of an
  index as a triangle corner contributes two entries to the edge buffer.
- **x and y never change.** In the model, whose numbers are reals, every
  vertex keeps the (x, y) the grid builder gave it. The program stores
  vertices as float32, so there a read and write-back may round them (see
  the floating-point line under "## Left out").
- **Exact heights.** The heights are `Synthesis(Seeded(flat grid), …)`. Each
  pass changes its targets only, each to its point value, and keeps every
  other height.
- **Corners stay at 0.5.** No diamond or square step writes a corner.
- **Height bound.** When every draw lies in [0, 1), every height lies within
  `Spread(roughness, div) = |roughness|·(2·div − 2)` of 0.5. With zero
  roughness the terrain is the flat plane z = 0.5, and every vertex then
  gets the fifth colour.
- **Square-step divisor.** The divisor of the square step is the number of
  in-grid neighbours, which is between 2 and 4.
- **No division by zero in the normal pass.** Every vertex is a corner of at
  least one triangle. Its counter ends equal to the number of triangle
  corners that are that vertex, so averaging never divides by zero.
- **Colours.** The colour of each vertex is the one given by the height band
  table, and a higher vertex never gets a lower band.

What the code does, where a reader might expect otherwise:

- The constructor does not validate `div` or the rectangle's bounds. The
  model requires `div >= 1` and a power of two, which the stepping pattern
  needs.
- The roughness is not a parameter. The constructor fixes it at 0.005.
- The averaging loop divides each normal by its counter without a guard, so
  a zero counter would divide by zero. `AverageNormals` therefore requires
  positive counters. The constructor meets this, because every vertex lies
  on a triangle.

## Model

| member | source | states |
|---|---|---|
| TerrainModel.Terrain.constructor | mp2_b/Terrain.js:16-54 | Stores div and the rectangle and sets roughness to 0.005. The buffers are then as follows. There is one vertex, normal and counter triple per lattice point (Meshed), numVertices = (div+1)² and numFaces = 2·div². vBuffer is exactly Synthesis(Seeded(FlatGrid), div, div, 0.005, random): the flat grid with the corners seeded at 0.5, then shaped level by level with the given draws. eBuffer = Edges(fBuffer). The normals are the averaged face normals, accumulated from zero sums and zero counts. cBuffer is the band colouring of every vertex. |
| TerrainModel.Terrain.Mesh | mp2_b/Terrain.js:39-43 | The grid builder followed by the wireframe pass gives the following. The vertex buffer is the flat grid, with vertex (i, j) at (GridX(j), GridY(i), 0). Normals and counters are zero. The cell triangles are in place, and eBuffer = Edges(fBuffer). |
| TerrainModel.Terrain.Shade | mp2_b/Terrain.js:45-47 | The synthesis followed by the colouring pass gives the following. vBuffer = Synthesis(Seeded(old vBuffer)). The normals are averaged from zero over the shaped heights. cBuffer = Colouring of the shaped heights. |
| TerrainModel.Terrain.SetVertex | mp2_b/Terrain.js:62-69 | Replaces exactly the three numbers of vertex (i, j), at offset 3·(i·(div+1)+j), with v. |
| TerrainModel.Terrain.GetVertex | mp2_b/Terrain.js:77-84 | Returns the three numbers of vertex (i, j). |
| TerrainModel.Terrain.GenerateTriangles | mp2_b/Terrain.js:191-233 | From empty buffers, it produces the following. vBuffer is the flat grid: vertex (i, j) is at (j·(maxX−minX)/div + minX, minY + i·(maxY−minY)/div, 0). Normals and counters are zero and have the same length. The triangle buffer holds each cell's two triangles at offset 6·(i·div+j), using only lattice points. numVertices = (div+1)² and numFaces = 2·div². |
| TerrainModel.Terrain.PlaceVertices | mp2_b/Terrain.js:197-211 | The first loop makes vBuffer the flat grid FlatGrid(…, (div+1)²), places every lattice point at its analytic position, and pushes zero normals and counters alongside. |
| TerrainModel.Terrain.PlaceRow | mp2_b/Terrain.js:198-210 | One row of the first loop places the div+1 vertices of row i after those of earlier rows. |
| TerrainModel.Terrain.PlaceCells | mp2_b/Terrain.js:213-229 | The second loop yields 6·div² indices. Cell (i, j) holds (vid, vid+div+2, vid+div+1, vid, vid+1, vid+div+2) at its offset, and every index is a lattice point. |
| TerrainModel.Terrain.GenerateLines | mp2_b/Terrain.js:263-279 | Appends to eBuffer the wireframe Edges(fBuffer): a, b, b, c, c, a for each triangle, in order. |
| TerrainModel.Terrain.DiamondStep | mp2_b/Terrain.js:398-421 | Only the height of (y, x) changes. It becomes DiamondAverage, the average of the four diagonal neighbours at distance size, plus the perturbation. |
| TerrainModel.Terrain.SquareStep | mp2_b/Terrain.js:426-481 | Only the height of (y, x) changes. It becomes SquareAverage, the sum SquareSum of the in-grid axis neighbours (a missing one adds 0) divided by their number, plus the perturbation. |
| TerrainModel.Terrain.DiamondRow | mp2_b/Terrain.js:380-382 | The diamond targets of row j get their DiamondPoint of the old buffer. That is the diagonal average plus Perturbation(random(size, j, i), scale). Every other height and every x and y is unchanged. |
| TerrainModel.Terrain.DiamondPass | mp2_b/Terrain.js:379-383 | The diamond loop leaves exactly DiamondPassOf(old vBuffer): every diamond target holds its DiamondPoint of the buffer the pass started from, and nothing else changes. |
| TerrainModel.Terrain.SquareRow | mp2_b/Terrain.js:387-389 | The square targets of row j, starting at column (j+h) mod size, get their SquarePoint of the old buffer. That is the in-grid axis average plus Perturbation(random(size, j, i), scale). Every other height and every x and y is unchanged. |
| TerrainModel.Terrain.SquarePass | mp2_b/Terrain.js:386-390 | The square loop leaves exactly SquarePassOf(old vBuffer): every square target holds its SquarePoint of the buffer the pass started from, and nothing else changes. |
| TerrainModel.Terrain.Level | mp2_b/Terrain.js:378-390 | One level of step size leaves LevelOf(old vBuffer): the square pass applied to the diamond pass's result. |
| TerrainModel.Terrain.RecurseDSA | mp2_b/Terrain.js:367-393 | Leaves Synthesis(old vBuffer, div, size, roughness, random). That is the level of step size with scale roughness·size, then the recursion from size/2. Nothing happens once size/2 < 1. |
| TerrainModel.Terrain.GenerateDSA | mp2_b/Terrain.js:285-362 | vBuffer = Synthesis(Seeded(old vBuffer)). Every vertex's counter grows by the number of triangle corners that are that vertex, and ends at least 1. Its normal becomes the normalised average of its old value plus its triangles' face normals. |
| TerrainModel.Terrain.ShapeHeights | mp2_b/Terrain.js:290-312 | Seeding the corners followed by the recursion from step div leaves Synthesis(Seeded(old vBuffer), div, div, roughness, random). |
| TerrainModel.Terrain.SeedCorners | mp2_b/Terrain.js:290-308 | Leaves Seeded(old vBuffer): the four corners written to 0.5, in the source's order, and nothing else changed (SeededHeights). |
| TerrainModel.Terrain.SeedCorner | mp2_b/Terrain.js:291-293 | Reading a vertex, setting its z to 0.5 and writing it back replaces its height only. |
| TerrainModel.Terrain.VertexNormals | mp2_b/Terrain.js:314-361 | The two normal loops together have two effects. Each vertex's counter grows by the number of corners that are that vertex and ends at least 1, and the other two slots of each counter triple are unchanged. Its normal becomes the normalised average of its accumulated face normals. |
| TerrainModel.Terrain.AccumulateNormals | mp2_b/Terrain.js:319-347 | After the first loop, each vertex's normal is NormalSumFrom: its old value plus the face normal of each triangle, once per corner that is the vertex. Its counter slot grew by its corner count. The other two counter slots are untouched. |
| TerrainModel.Terrain.AddFaceNormal | mp2_b/Terrain.js:322-346 | One pass adds triangle t's face normal at its three corners (AddAt) and bumps their counter slots (Bump). Both sums are extended by triangle t. |
| TerrainModel.Terrain.AverageNormals | mp2_b/Terrain.js:351-361 | Every vertex's normal becomes Averaged: normalize(sum / count). |
| TerrainModel.Terrain.AverageVertex | mp2_b/Terrain.js:352-360 | One pass writes vertex w's average and leaves the later vertices' sums unchanged. |
| TerrainModel.Terrain.GenerateColor | mp2_b/Terrain.js:487-545 | Appends Colouring(vBuffer, (div+1)²): for every vertex in order, the four RGBA numbers of its height band. |
| Grid.VertexIdInGrid | mp2_b/Terrain.js:65 | The id VertexId(i, j) = i·(div+1)+j of a lattice point is below (div+1)². |
| Grid.VertexIdInjective | mp2_b/Terrain.js:65 | Distinct lattice points have distinct ids. |
| Grid.VertexOfId | mp2_b/Terrain.js:80 | Every id below (div+1)² is the id of the point (id div (div+1), id mod (div+1)). |
| Grid.WriteVertex | mp2_b/Terrain.js:65-68 | Writing vertex (i, j) makes it read back as v and changes no other number. |
| Grid.WriteHeight | mp2_b/Terrain.js:417-420 | Writing a height makes it read back and keeps every x and y. |
| Grid.WriteKeepingXY | mp2_b/Terrain.js:406-420 | Writing back a read vertex with only z changed is the same as replacing its height. |
| Grid.SetThenGet | mp2_b/Terrain.js:62-84 | After setVertex(v, i, j), getVertex at (i, j) gives v and at any other point gives what it gave before. |
| Grid.HeightAfterWrite | mp2_b/Terrain.js:417-420 | Replacing one height changes the height of that point only. |
| Grid.GridSpans | mp2_b/Terrain.js:194-200 | GridX and GridY, the builder's x and y, put column 0 at minX, column div at maxX, row 0 at minY and row div at maxY. Neighbouring columns and rows are (max−min)/div apart. |
| Grid.CellCornersInGrid | mp2_b/Terrain.js:216-225 | Every corner index of CellTriangles(i, j), the six indices a cell pushes, is a lattice point. |
| Grid.CellCorner | mp2_b/Terrain.js:216-225 | Each of the six indices of a cell held in the triangle buffer is a value of that buffer. |
| Grid.CornerOfNearbyCell | mp2_b/Terrain.js:213-229 | Every lattice point is a corner of a triangle of a neighbouring cell. |
| Grid.EveryVertexOnATriangle | mp2_b/Terrain.js:213-229 | The triangle buffer of all cells uses every lattice point as a corner. |
| Grid.XYKeptVertex | mp2_b/Terrain.js:199-200 | Buffers that agree on x and y agree on them at every lattice point. |
| Grid.XYKeptGrid | mp2_b/Terrain.js:199-200 | The same for all lattice points at once. |
| Grid.PushVertex | mp2_b/Terrain.js:199-201 | Pushing (j·x_amount + minX, minY + i·y_amount, 0) as vertex i·(div+1)+j places that lattice point. |
| Grid.PlacedAll | mp2_b/Terrain.js:197-211 | Once all (div+1)² vertices are placed, vertex (i, j) is (GridX(j), GridY(i), 0). |
| Grid.FlatGrid | mp2_b/Terrain.js:197-211 | The flat grid's first n vertices are the first n lattice points, in row-major order, each at (GridX(col), GridY(row), 0). |
| Grid.PlacedIsFlat | mp2_b/Terrain.js:197-211 | Any buffer whose first n vertices are placed is the flat grid's first n: the builder's result is unique. |
| Grid.PushCell | mp2_b/Terrain.js:216-225 | Pushing a cell's six indices at its offset keeps earlier cells and adds this one. |
| DiamondSquare.Perturbation | mp2_b/Terrain.js:381 | The perturbation (u·scale·2 − scale)/2 of a draw u in [0, 1) lies within \|scale\|/2 of 0, and is 0 when scale is 0. |
| DiamondSquare.PerturbationBounds | mp2_b/Terrain.js:379-390 | The bounds of the perturbation expression that both steps add: within \|scale\|/2 of 0 for a draw in [0, 1), and 0 when scale is 0. |
| DiamondSquare.DiamondAverageWithin | mp2_b/Terrain.js:409-415 | DiamondAverage, the mean of the four diagonal neighbours, lies within any bounds that hold for those four. |
| DiamondSquare.NeighbourCount | mp2_b/Terrain.js:428-474 | The divisor is at most 4. It equals 4 exactly when all four neighbours are inside the grid (HasLeft, HasRight, HasTop, HasBottom). It is at least 2 for every step size up to div/2. |
| DiamondSquare.SquareAverageWithin | mp2_b/Terrain.js:441-476 | SquareAverage, the sum SquareSum divided by the number of in-grid neighbours, lies within any bounds that hold for those neighbours. Missing neighbours add 0 but are not counted, so they do not pull it out of range. |
| DiamondSquare.MeanWithin | mp2_b/Terrain.js:476 | A sum of the present values (missing ones 0) divided by the number present lies within the bounds of the present values. |
| DiamondSquare.Classify | mp2_b/Terrain.js:379-390 | Every point of step h is exactly one of: a coarse point of step 2h, a diamond target, or a square target. |
| DiamondSquare.TargetsAreFine | mp2_b/Terrain.js:379-390 | Every point a level writes or keeps is a point of step h. |
| DiamondSquare.SquareNeighbours | mp2_b/Terrain.js:386-390 | The axis neighbours of a square target are coarse points or diamond targets, so the square pass never reads its own writes. |
| DiamondSquare.DiamondNeighbours | mp2_b/Terrain.js:409-412 | The diagonal neighbours of a diamond target lie inside the grid (h ≤ r, r + h ≤ div, and the same for the column) and are coarse points, so the diamond pass never reads its own writes. |
| DiamondSquare.LevelWithin | mp2_b/Terrain.js:378-390 | After both passes, every point of step h is bounded: coarse points by the old range, diamond and square targets by the widened one. |
| DiamondSquare.WithinEverywhere | mp2_b/Terrain.js:374-376 | Bounds at step 1, where the recursion stops, hold at every lattice point. |
| DiamondSquare.CornersWithin | mp2_b/Terrain.js:290-308 | The points of step div are the four corners. |
| DiamondSquare.GridKeptCoarser | mp2_b/Terrain.js:392 | The recursive call keeps the points of step h, so it keeps those of step 2h too. |
| DiamondSquare.SpreadHalves | mp2_b/Terrain.js:370-371 | \|roughness·size\| plus the Spread of the finer levels is the Spread at size, so Spread(r, s) = \|r\|·(2s − 2). |
| Heights.InGrid | mp2_b/Terrain.js:65 | Every position of a vertex buffer belongs to a lattice point. |
| Heights.HeightSlot | mp2_b/Terrain.js:65-68 | The z position of vertex (row, col) decodes back to (row, col). |
| Heights.SameBuffer | mp2_b/Terrain.js:417-420 | Two vertex buffers with the same x and y as a third and the same heights are equal. |
| Heights.HeightsOnly | mp2_b/Terrain.js:417-420 | Rewriting only the z positions keeps every x and y. |
| Heights.DiamondPassTailAt | mp2_b/Terrain.js:379-383 | Each number of the diamond pass's result is DiamondValue of the buffer the pass started from. That is the DiamondPoint at a diamond target's height position, and the old number elsewhere. |
| Heights.SquarePassTailAt | mp2_b/Terrain.js:386-390 | Each number of the square pass's result is SquareValue of the buffer the pass started from. That is the SquarePoint at a square target's height position, and the old number elsewhere. |
| Heights.DiamondPassOf | mp2_b/Terrain.js:379-383 | The diamond pass as one simultaneous update, defined through DiamondValue and DiamondPoint. The result is again a vertex buffer. |
| Heights.SquarePassOf | mp2_b/Terrain.js:386-390 | The square pass as one simultaneous update, defined through SquareValue and SquarePoint. The result is again a vertex buffer. |
| Heights.DiamondPassHeights | mp2_b/Terrain.js:379-383 | The diamond pass keeps every x and y. Each diamond target gets DiamondPoint: the diagonal average plus Perturbation(random(2h, row, col), scale). Every other height stays. |
| Heights.DiamondPassAt | mp2_b/Terrain.js:380-382 | The same at one lattice point. |
| Heights.SquarePassHeights | mp2_b/Terrain.js:386-390 | The square pass keeps every x and y. Each square target gets SquarePoint: the in-grid axis average plus Perturbation(random(2h, row, col), scale). Every other height stays. |
| Heights.SquarePassAt | mp2_b/Terrain.js:387-389 | The same at one lattice point. |
| Heights.LevelOf | mp2_b/Terrain.js:378-390 | One level: the square pass applied to the diamond pass's result. The result is again a vertex buffer. |
| Heights.Synthesis | mp2_b/Terrain.js:367-393 | The recursion from step size: LevelOf with half step size/2 and scale roughness·size, then Synthesis from size/2. Nothing happens once size/2 < 1. The result is again a vertex buffer. |
| Heights.Seeded | mp2_b/Terrain.js:290-308 | The four corner writes of height 0.5, in the source's order. The result is again a vertex buffer. |
| Heights.SeededHeights | mp2_b/Terrain.js:290-308 | Seeding keeps every x and y, sets exactly the four corners to 0.5 and keeps every other height. The points of step div then lie in [0.5, 0.5]. |
| Heights.DiamondPointKept | mp2_b/Terrain.js:409-415 | A diamond target's DiamondPoint depends on the coarse points only. |
| Heights.SquarePointKept | mp2_b/Terrain.js:441-476 | A square target's SquarePoint depends on the coarse points and the diamond targets only. |
| Heights.DiamondCellStep | mp2_b/Terrain.js:380-381 | One diamond step writes the DiamondPoint of the row's starting buffer, which extends the done part of the row to the next target. |
| Heights.DiamondRowStep | mp2_b/Terrain.js:379-383 | After diamond row j, the diamond targets of every row below j + size hold their DiamondPoint of the pass's starting buffer, and nothing else has changed. |
| Heights.SquareCellStep | mp2_b/Terrain.js:387-388 | One square step writes the SquarePoint of the row's starting buffer, which extends the done part of the row to the next target. |
| Heights.SquareRowKeeps | mp2_b/Terrain.js:387-389 | A partly done square row has kept the coarse points and the diamond targets. |
| Heights.SquareRowsKeep | mp2_b/Terrain.js:386-390 | Finished square rows have kept the coarse points and the diamond targets. |
| Heights.SquareRowStep | mp2_b/Terrain.js:386-390 | After square row j, the square targets of every row below j + h hold their SquarePoint of the pass's starting buffer, and nothing else has changed. |
| Heights.DiamondPassWithin | mp2_b/Terrain.js:379-383 | When the draws lie in [0, 1) and the coarse points in [lo, hi], the diamond pass keeps the coarse points. It leaves every diamond target within \|scale\|/2 of that range. |
| Heights.SquarePassWithin | mp2_b/Terrain.js:386-390 | When, in addition, the diamond targets lie within \|scale\|/2 of [lo, hi], the square pass keeps the coarse points and the diamond targets. It leaves every square target within \|scale\| of [lo, hi]. |
| Heights.LevelOfWithin | mp2_b/Terrain.js:378-390 | A level keeps every x and y and the coarse points. It leaves every point of step h within \|scale\| of the coarse range. |
| Heights.SynthesisWithin | mp2_b/Terrain.js:367-393 | The synthesis from step size keeps every x and y and the points of step size. When those start in [lo, hi], every lattice point ends in [lo − Spread(roughness, size), hi + Spread(roughness, size)]. |
| Heights.SeededSynthesis | mp2_b/Terrain.js:285-312 | Seeding then synthesising keeps x and y and leaves the corners at 0.5. Every point lies within Spread(roughness, div) of 0.5. |
| Heights.TerrainHeights | mp2_b/Terrain.js:285-312 | The same, stated at each lattice point: the four corners are exactly 0.5 and every height lies in [0.5 − Spread, 0.5 + Spread]. |
| Heights.TerrainOverGrid | mp2_b/Terrain.js:16-47 | The constructor's heights over the flat grid have three properties. Every vertex keeps (GridX(j), GridY(i)). The corners are 0.5. Every height lies within Spread(roughness, div) of 0.5. |
| Heights.DiamondPassUnscaled | mp2_b/Terrain.js:379-383 | With perturbation scale 0, the diamond pass gives the same buffer for any two draw functions. |
| Heights.SquarePassUnscaled | mp2_b/Terrain.js:386-390 | With perturbation scale 0, the square pass gives the same buffer for any two draw functions. |
| Heights.SmoothSynthesis | mp2_b/Terrain.js:367-393 | With roughness 0, the synthesis gives the same buffer for any two draw functions. |
| Heights.SmoothTerrain | mp2_b/Terrain.js:367-393 | With roughness 0 every perturbation is 0 whatever the draws, and the terrain is the flat plane z = 0.5. |
| Wireframe.EdgesLength | mp2_b/Terrain.js:263-279 | The edge buffer Edges(f) holds two indices per triangle corner: \|eBuffer\| = 2·\|fBuffer\|. |
| Wireframe.EdgesOfTriangle | mp2_b/Terrain.js:269-276 | Triangle t's six edge indices sit at offset 6t: a, b, b, c, c, a. |
| Wireframe.EdgesCountCorners | mp2_b/Terrain.js:263-279 | As a multiset, the edge buffer is the triangle buffer taken twice. Each occurrence of an index as a triangle corner contributes two entries. |
| Wireframe.EdgesCountStep | mp2_b/Terrain.js:269-276 | One more triangle keeps every corner occurrence counted twice. |
| Wireframe.SixCorners | mp2_b/Terrain.js:269-276 | The six indices pushed for a triangle name each of its corners twice. |
| Wireframe.EdgesAppend | mp2_b/Terrain.js:269-276 | Appending a triangle appends its six edge indices. |
| Wireframe.EdgesPrefixStep | mp2_b/Terrain.js:268-277 | The edges of the first t+1 triangles are those of the first t followed by triangle t's. |
| Normals.AddAtPosition | mp2_b/Terrain.js:333-335 | AddAt, adding a normal at vertex v, changes vertex v by it and leaves every other vertex. |
| Normals.PutAt | mp2_b/Terrain.js:358-360 | Writing vertex v's three numbers changes that vertex only. |
| Normals.BumpAt | mp2_b/Terrain.js:336 | Bump, incrementing v's counter, adds one at slot 3v and nowhere else. |
| Normals.CornerCountStep | mp2_b/Terrain.js:336-346 | One more triangle counts each of its corners once more. |
| Normals.AveragedStep | mp2_b/Terrain.js:352-360 | Writing vertex w's average extends the averaged prefix by one vertex. |
| Normals.AveragedAll | mp2_b/Terrain.js:351-361 | When the loop ends, every vertex holds Averaged: normalize(sum / count). |
| Normals.ZeroNormals | mp2_b/Terrain.js:203-205 | Three zeros per vertex, as the grid builder pushes them. |
| Normals.ZeroCounts | mp2_b/Terrain.js:207-209 | Three zero counters per vertex, as the grid builder pushes them. |
| Normals.NormalsFromZero | mp2_b/Terrain.js:203-209 | Starting from zero normals and counters, every vertex counts exactly the corners that are it, at least 1, and the other two slots of each counter triple stay 0. Its normal is the normalised average of NormalSum, the face normals of its triangles. |
| Normals.ThreeAdds | mp2_b/Terrain.js:333-345 | Adding a face normal at corners a, b and c adds it to a vertex once per corner that is it (AddCorners). |
| Normals.NormalAt | mp2_b/Terrain.js:322-330 | Triangle t's normal is FaceNormal of its corners' positions: normalize(Cross(Sub(tri2, tri1), Sub(tri3, tri1))). |
| Normals.NormalsStep | mp2_b/Terrain.js:322-345 | The three adds of triangle t take every vertex's sum from t triangles to t+1. |
| Normals.NormalStepAt | mp2_b/Terrain.js:333-345 | The same at one vertex. |
| Normals.NormalSumNext | mp2_b/Terrain.js:319-347 | NormalSumFrom over t+1 triangles is the sum over t plus triangle t's normal once per corner. |
| Normals.CountsStep | mp2_b/Terrain.js:336-346 | The three counter increments of triangle t take the counts from t triangles to t+1, and keep the other slots. |
| Palette.BandColour | mp2_b/Terrain.js:491-543 | Every pushed colour has four components in [0, 1] with alpha 1. |
| Palette.BandFrom | mp2_b/Terrain.js:491-543 | The band found is the first whose threshold lies strictly above the height, or the last band when none does. |
| Palette.BandColourByTable | mp2_b/Terrain.js:491-543 | The comparison chain gives the colour of the first band whose threshold is above the height. |
| Palette.BandMonotone | mp2_b/Terrain.js:491-543 | A higher vertex never gets a lower band. |
| Palette.ColouringNext | mp2_b/Terrain.js:489-544 | Colouring one more vertex appends its band colour. |
| Palette.ColouringLength | mp2_b/Terrain.js:489-544 | Colouring(vb, n) holds four numbers per vertex. |
| Palette.ColouringLayout | mp2_b/Terrain.js:489-544 | Vertex v's four numbers, at offset 4v, are the colour of its height, so its alpha is 1. |
| Palette.FlatColouring | mp2_b/Terrain.js:517-522 | When every height is 0.5, as on the roughness-0 terrain, every vertex gets the fifth colour (0.9, 0.9, 0.2, 1). |

## Left out

- WebGL buffer upload and drawing (`loadBuffers`, `drawTriangles`, `drawEdges`), `printBuffers`, the console messages and the `OES_element_index_uint` extension check in the constructor are rendering and I/O.
- `Math.random` is a parameter `random(size, row, col)`. Each step draws once, so this stands for any sequence of draws. Only the height-bound lemmas (DiamondPassWithin, SquarePassWithin, LevelOfWithin, SynthesisWithin, SeededSynthesis, TerrainHeights, TerrainOverGrid) assume that the draws lie in [0, 1).
- `vec3.normalize` needs a square root and is a parameter `normalize`. The unit length of the output normals is therefore not stated. Neither is their direction (0, 0, ±1) on a flat terrain.
- Floating-point numbers are modelled as reals, so rounding is not captured.
- A `div` that is not a power of two is excluded by precondition, because the stepping pattern is then not meaningful. The rectangle's bounds are not checked, and the source does not check them either.
- TerrainModel.Terrain.GenerateTriangles: requires empty buffers, the state in which the constructor calls it, and does not describe pushes onto non-empty buffers.
- TerrainModel.Terrain.Mesh: same precondition as GenerateTriangles. It and Shade are the two halves of the constructor's body, separated only to keep the proof small.
- TerrainModel.Terrain.AverageNormals: requires every counter slot to be positive. On its own the source would divide by zero. In the constructor the precondition holds because every vertex is on a triangle (Grid.EveryVertexOnATriangle).
- TerrainModel.Terrain.SquareStep: requires 1 <= size and 2·size <= div. Every call the recursion makes meets this, and it keeps the divisor nonzero.
- TerrainModel.Terrain.GenerateLines, TerrainModel.Terrain.AverageVertex and TerrainModel.Terrain.SetVertex: the source's three or six consecutive array writes or pushes are one sequence update each. The resulting state is the same.
- Level, PlaceRow, AverageVertex, AddFaceNormal, DiamondRow and SquareRow are loop bodies and groups of calls of the source, kept as methods of their own so that each proof stays small.
