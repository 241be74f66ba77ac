# Ornament core in Dafny

Ornament is a desktop toy that draws coloured wireframe shapes on borderless, transparent
windows, one window per monitor in use. This project models the part of `ornament.c` that
decides what is drawn and where. It covers:

- **The mesh builders.** Cube, pyramid and octahedron are fixed tables. The sphere is made of
  latitude rings, meridians and three tilted great circles. The torus is a grid of major and
  minor rings with wrap-around edges, rescaled to radius 0.5.
- **`draw_wire`.** It turns a mesh into its stream of segment end points.
- **The configuration reader.**
  - `trim`, `ieq` and `parse_color`/`parse_shape`/`parse_pos`.
  - `load_ini`'s per-line logic: `strchr`, the bracket check, the truncating copies into
    `lhs[64]` and `inside[256]`, `strtok` on commas, the optional quotes and `atoi`.
  - The fall-back to one green cube at the centre of screen 0.
- **Monitor selection in `main`.** Screens are clamped, monitors in use are marked in `need`
  and counted in `unique`, and windows are created in monitor order.
- **Placement.**
  - `anchor_to_ndc` and `anchor_margin`.
  - The `quadrantCount` fan-out that keeps shapes in the same cell apart.
  - The geometry switch.
- **The round-robin split in `app_loop`.** It produces `count`, `start` and `mapIdx` per window.
- **`update_shape`.** It is a class `ShapeRuntime` whose `Update` changes hue, orientation and
  the reorientation timer in place.

Sine, cosine, square root and the quaternion helpers `q_from_euler`, `q_from_axis_angle` and
`q_slerp` are passed in as function values (`Libm`, `QuatOps`). So every result here holds
for any trigonometry. `q_mul` is modelled exactly. Each `frand_range(a, b)` call is a unit
draw `u` that is passed in, with value `a + (b - a) * u`. A file is passed in as its
sequence of lines, or `None` when it cannot be opened.

Modules, one per file:

| module | file | what it models |
|---|---|---|
| `Arith` | `arith.dfy` | multiplication by repeated addition, for the index arithmetic |
| `VecMath` | `vecmath.dfy` | `vec3`, `quat`, `v3_scale`, `v3_len` and `q_mul` |
| `Config` | `config.dfy` | the shape, colour and anchor enums with their name tables, and `ShapeConfig` |
| `Wire` | `wire.dfy` | `WireGeom`, the three fixed meshes and `draw_wire` |
| `SphereMesh` | `sphere.dfy` | `make_sphere` |
| `TorusMesh` | `torus.dfy` | `make_torus` |
| `Geometry` | `geometry.dfy` | the geometry switch of `main` |
| `Monitors` | `monitors.dfy` | `need`, `unique` and the window loop |
| `Placement` | `placement.dfy` | anchors, margins and `quadrantCount` |
| `Dispatch` | `dispatch.dfy` | the round robin of `app_loop` |
| `Animator` | `animator.dfy` | `ShapeRuntime` and `update_shape` |
| `Ini` | `ini.dfy` | `trim`, `ieq`, `parse_*` and `load_ini` |

Where the code and the documented design disagree, the model follows the code:

- **Centre anchor.** The documented design leaves a centre-anchored shape unshifted. The code
  tests `anc.x >= 0`, so a centre shape moves down and left by 0.05 per earlier shape in its
  cell. `Placement.CentreMovesDownLeft` states this.
- **Reorientation duration.** The documented design draws a new duration after each
  reorientation. The code only draws a new timer, so `reorientDur` never changes after spawn.
- **Spin after the snap.** The spin is applied after the snap to the target, so on the frame
  a reorientation completes the orientation is the spin times the target, not the target.

## Model

| member | source | states |
|---|---|---|
| `Wire.Cube` | ornament.c:148-158 | the cube has 8 vertices and 12 segments, and every index names a vertex |
| `Wire.CubeSegmentsAreEdges` | ornament.c:149-153 | each of the 12 cube segments joins two corners that differ in exactly one coordinate, so they are the cube's edges |
| `Wire.Pyramid` | ornament.c:160-165 | the pyramid has 5 vertices and 8 segments, all in range |
| `Wire.Octahedron` | ornament.c:167-172 | the octahedron has 6 vertices and 12 segments, all in range |
| `Wire.DrawWire` | ornament.c:261-268 | for a well-formed mesh, the emitted stream has two points per segment, and point k is the vertex that line entry k names |
| `SphereMesh.MakeSphere` | ornament.c:174-222 | when the points fit the buffer, the vertices are the latitude rows, then the meridian rows, then the three tilted rings, and the lines are the matching rings and chains |
| `SphereMesh.SphereCounts` | ornament.c:174-222 | the sphere has (lat-1)·lon + lon·2lat + 3·2lon vertices and the matching number of segments |
| `SphereMesh.SphereWellFormed` | ornament.c:174-222 | every index the sphere's lines use names one of its vertices |
| `SphereMesh.LatRingSegment` | ornament.c:180-192 | segment k of latitude ring a joins point k to point k+1, and the last one closes the ring |
| `SphereMesh.MeridianSegment` | ornament.c:193-203 | segment k of meridian j joins consecutive points of that meridian, which is an open chain |
| `SphereMesh.TiltedRingSegment` | ornament.c:204-219 | segment k of tilted ring r joins consecutive points, and the ring closes |
| `SphereMesh.LatRingPoint` | ornament.c:180-192 | vertex a·lon + k is the latitude point (a+1, k) |
| `SphereMesh.MeridianPointAt` | ornament.c:193-203 | in the meridian part of the vertices, entry j·2lat + k is point k of meridian j, at angle π·k/(2lat-1) from the pole and 2π·j/lon around it |
| `SphereMesh.TiltedRingPoint` | ornament.c:204-219 | in the tilted part of the vertices, entry r·2lon + k is point k of extra ring r: the unit circle point at 2π·k/(2lon) turned about x by 0, 0.35 or -0.5 |
| `SphereMesh.DefaultSphereFits` | ornament.c:176-178 | the (10, 16) sphere used by `main` has 560 points, within its capacity of 1851 |
| `SphereMesh.LargeSphereOverflows` | ornament.c:176-178 | a (100, 100) sphere would need 30500 points against a capacity of 23001 |
| `TorusMesh.MakeTorus` | ornament.c:224-256 | after clamping both counts to 128, the vertices are the grid points rescaled by 0.5/maxr, and the lines are two segments per grid cell |
| `TorusMesh.TorusSegments` | ornament.c:243-250 | the two segments of point (i, j) go to (i+1 mod major, j) and to (i, j+1 mod minor) |
| `TorusMesh.TorusWellFormed` | ornament.c:243-251 | every index the torus cells write names one of the major·minor points |
| `TorusMesh.TorusPointAt` | ornament.c:231-242 | vertex i·minor + j is the torus point (i, j), so `idx[i][j]` is that position |
| `TorusMesh.MaxRadiusBounds` | ornament.c:253 | `maxr` is non-negative and bounds the length of every vertex |
| `TorusMesh.MaxRadiusAttained` | ornament.c:253 | `maxr` is the length of some vertex, or still 0 |
| `TorusMesh.NormaliseSize` | ornament.c:253-254 | the rescale loop scales every vertex by 0.5/maxr and keeps the count |
| `Geometry.DefaultSphere` | ornament.c:466 | `make_sphere(10, 16)` is a well-formed mesh of 560 vertices and 544 segments |
| `Geometry.DefaultTorusMesh` | ornament.c:467 | `make_torus(32, 12, 1.0, 0.35)` is a well-formed mesh of 384 vertices and 768 segments |
| `Geometry.BuildSphere` | ornament.c:466 | the sphere case runs the sphere builder on (10, 16) and returns exactly `DefaultSphere` |
| `Geometry.BuildTorus` | ornament.c:467 | the torus case runs the torus builder on (32, 12, 1.0, 0.35) and returns exactly `DefaultTorusMesh` |
| `Geometry.KindMesh` | ornament.c:461-469 | every kind's mesh is well-formed, with cube 8/12, pyramid 5/8, octahedron 6/12, sphere 560/544 and torus 384/768 vertices/segments |
| `Geometry.BuildGeometry` | ornament.c:461-469 | the switch returns `KindMesh`: the cube, pyramid and octahedron tables, `DefaultSphere` for a sphere and `DefaultTorusMesh` for a torus |
| `Placement.AnchorToNdc` | ornament.c:364-371 | the nine anchors form a 3 by 3 grid, row-major from the top left, at x in {-1, 0, 1} and y in {1, 0, -1} |
| `Placement.MarginScalesAnchor` | ornament.c:372-374 | for a margin m in [0, 1], `anchor_margin` moves every anchor point to (1-m) times itself |
| `Placement.PlacementOffsets` | ornament.c:455-458 | the n-th shape in a cell sits at 0.88 times the anchor, moved by 0.05·n against the sign of each coordinate |
| `Placement.CentreMovesDownLeft` | ornament.c:458 | a centre-anchored shape moves to (-0.05n, -0.05n) |
| `Placement.PlacementInside` | ornament.c:455-458 | with at most 17 earlier shapes in a cell, every shape stays within [-0.88, 0.88] on both axes |
| `Placement.PlacementInjective` | ornament.c:457-458 | two different counts in the same cell never give the same position |
| `Placement.SameCellApart` | ornament.c:450-458 | two shapes on the same clamped monitor with the same anchor are placed at different positions |
| `Placement.FirstInCell` | ornament.c:450-458 | the first shape in its cell sits exactly at the margin point |
| `Placement.PlaceShapesIn` | ornament.c:450-458 | the placement loop over a counter table updated in place, with a row for every clamped monitor index, yields `Positions`: each shape at its anchor's margin point, fanned out by the number of earlier shapes in its cell |
| `Placement.PlaceShapesAsWritten` | ornament.c:450-458 | with the source's fixed 16-row table, the loop yields `Positions` only under the requirement that every clamped monitor index is below 16 |
| `Placement.SixteenMonitorsFit` | ornament.c:450-453 | with at most 16 monitors that requirement holds for every configuration |
| `Placement.QuadrantRowMissing` | ornament.c:450-453 | as written, with 17 monitors, a shape on screen 16 clamps to row 16, so the 16-row table's requirement fails |
| `Placement.PlaceShapes` | ornament.c:450-458 | with one counter row per monitor (at least 16), the placement loop yields `Positions` for every configuration and monitor count |
| `Monitors.ClampScreen` | ornament.c:422 | a screen index is clamped into [0, monCount), kept when already inside, and sent to 0 or to the last monitor otherwise |
| `Monitors.UsedScreensMembers` | ornament.c:421-423 | a monitor is marked exactly when some configured shape clamps to it |
| `Monitors.MarkNeeded` | ornament.c:419-424 | `need[k]` holds exactly for the needed monitors (those in use, or monitor 0 when none is), and `unique` is their number |
| `Monitors.NeededNonEmpty` | ornament.c:424 | at least one monitor is needed, and the monitor-0 fallback is only taken for an empty list |
| `Monitors.LoadedNeedsNoFallback` | ornament.c:419-424 | what `load_ini` returns is never empty, so the monitor-0 fallback on line 424 never runs and the needed monitors are exactly the used ones |
| `Monitors.CreateWindows` | ornament.c:433-443 | windows come out in strictly increasing monitor order, one for each monitor that is needed and whose window was created, and no more than the number of needed flags |
| `Monitors.WindowsWithinUnique` | ornament.c:426-443 | the number of windows never exceeds `unique`, so `scr.arr` is not overrun |
| `Dispatch.Tally` | ornament.c:580 | window r receives n/W shapes, plus one when r < n mod W |
| `Dispatch.Starts` | ornament.c:581 | `start[r]` is the total count of the windows before r |
| `Dispatch.Scatter` | ornament.c:582-584 | shape i is written at `start[i mod W]` plus its rank among the shapes of its window |
| `Dispatch.RoundRobin` | ornament.c:577-584 | `count`, `start` and `mapIdx` are all as above |
| `Dispatch.HitsClosed` | ornament.c:580 | the count of window r in closed form: n/W + (r < n mod W ? 1 : 0) |
| `Dispatch.CountsBalanced` | ornament.c:580 | no two windows' counts differ by more than one |
| `Dispatch.CountsSum` | ornament.c:580-581 | the counts of all windows add up to the number of shapes |
| `Dispatch.SlotInjective` | ornament.c:582-584 | no two shapes are written to the same `mapIdx` slot |
| `Dispatch.SlotOnto` | ornament.c:582-584 | every slot of `mapIdx` is written by some shape |
| `Dispatch.MapIsPermutation` | ornament.c:582-584 | `mapIdx` is a permutation of 0..n-1 |
| `Dispatch.BlockListing` | ornament.c:581-584 | window r's block lists its shapes r, r+W, r+2W, ... in increasing order |
| `Animator.Fmod1Closed` | ornament.c:511 | `fmodf(x, 1)` is x minus its truncation towards zero |
| `Animator.Fmod1Range` | ornament.c:511 | `fmodf(x, 1)` lies in [0, 1) for x ≥ 0 and in (-1, 0] for x < 0 |
| `Animator.HueStaysUnit` | ornament.c:511 | with a non-negative hue, speed and dt, the new hue stays in [0, 1) |
| `Animator.TargetOnlyOnStart` | ornament.c:513-518 | a new target is drawn exactly when a reorientation starts, and it is `q_from_euler` of three draws in [-1.5, 1.5]; a frame spins only while the timer is still positive and no reorientation is under way |
| `Animator.SnapCompletes` | ornament.c:519-520 | when progress reaches 1, the progress resets, the timer is redrawn in [4, 8], and the orientation is the full-speed spin times the target |
| `Animator.PhasesObservable` | ornament.c:515-527 | a spinning frame keeps the target and only counts the timer down; an interpolating frame advances progress by dt/dur and slerps, then spins at half speed |
| `Animator.ProgressStaysUnit` | ornament.c:519-521 | progress stays in [0, 1) |
| `Animator.StepValid` | ornament.c:509-528 | for dt ≥ 0, a frame keeps the runtime invariant: reorientation progress in [0, 1) and the traits in their draw ranges |
| `Animator.SpawnValid` | ornament.c:471-477 | a freshly initialised runtime meets the invariant, with timer in [4, 8] and the identity orientation |
| `Animator.QMulIdentity` | ornament.c:68-100 | `q_ident` is a two-sided identity of `q_mul` |
| `Animator.ShapeRuntime.constructor` | ornament.c:471-477 | the runtime initialisation copies shape, colour, position and mesh, takes its traits from the draws, and is valid when the draws are unit values |
| `Animator.ShapeRuntime.Update` | ornament.c:509-528 | `update_shape` in place: the hue advances by `fmodf`, the animation state takes one `Step`, the traits and the shape's identity do not change, and validity is kept |
| `Ini.Trim` | ornament.c:323 | `trim` returns the cut of its argument between the leading blanks and the trailing blanks or newlines |
| `Ini.TrimCutUnique` | ornament.c:323 | any cut that starts at the first non-blank and ends after the last non-trailing character is what `trim` returns |
| `Ini.TrimIdempotent` | ornament.c:323 | trimming twice is trimming once |
| `Ini.Ieq` | ornament.c:324 | `ieq` holds exactly when the two strings have the same length and agree after upper-casing ASCII letters |
| `Ini.SameUpperEquivalence` | ornament.c:324 | the `ieq` relation is reflexive, symmetric and transitive |
| `Ini.ParseIndex` | ornament.c:326-328 | `parse_*` returns the first index whose name matches, ignoring case, or -1 when none does |
| `Ini.LookupIgnoresCase` | ornament.c:326-328 | two spellings that differ only in case parse to the same index |
| `Ini.NamesRoundTrip` | ornament.c:126-127 | each table entry parses back to its own index, in all three tables |
| `Ini.TokensParts` | ornament.c:345 | `strtok` on commas gives comma-free, non-empty tokens whose concatenation is the input with its commas removed |
| `Ini.TokensAreRuns` | ornament.c:345 | each token occurs in the line as a whole run: it starts the text or follows a comma, and it ends the text or is followed by a comma |
| `Ini.UnquoteRoundTrip` | ornament.c:348-350 | a quoted field loses exactly its two quotes, and a field without a leading quote is unchanged |
| `Ini.AtoiShowInt` | ornament.c:351 | `atoi` reads back any decimal integer followed by a non-digit or by nothing |
| `Ini.ParseLine` | ornament.c:336-354 | the per-line logic of `load_ini` gives `LineEntry`: nothing for blank, comment or malformed lines, else the looked-up shape, colour, anchor and screen |
| `Ini.ParseFields` | ornament.c:345-352 | the fields part of a line gives `FieldsEntry` |
| `Ini.FieldsRoundTrip` | ornament.c:345-354 | the fields "COLOR, POS, N" of a configuration are read back as that configuration |
| `Ini.BracketEntry` | ornament.c:339-343 | for a line `name=[f]` with a plain key and plain fields within the buffer sizes, the line is read exactly as its fields are |
| `Ini.RenderRoundTrip` | ornament.c:336-354 | every configuration, written as `SHAPE=[COLOR, POS, N]`, is read back as itself |
| `Ini.BlankBeforeEqualsRejected` | ornament.c:339-352 | a blank between the shape name and '=' stays in `lhs`, so the line is rejected, while the same line without it is accepted |
| `Ini.EntriesInLineOrder` | ornament.c:335-355 | the list grows in line order, `Entries(a + b) == Entries(a) + Entries(b)`, and it holds exactly the configurations that some line yields |
| `Ini.LoadedShape` | ornament.c:333-357 | the loaded list is never empty: it is the accepted lines when there are any, and otherwise the single default |
| `Ini.ReadEntries` | ornament.c:335-355 | the read loop gives `Entries` of the lines |
| `Ini.LoadIni` | ornament.c:330-359 | `load_ini` gives `Loaded`: the default for a missing file, else the accepted lines, else the default |

## Left out

- Everything OpenGL and GLFW is left out: window hints, cameras, `glBegin`/`glVertex`, and
  the glow passes. `DrawWire` returns the vertex stream it would emit.
- Windows are modelled without positioning, content scale or video modes.
  `Monitors.CreateWindows` takes whether each `glfwCreateWindow` succeeded as an input.
- The frame loop, `glfwGetTime`, the fps cap and the clamp on `dt` are left out. `Update`
  takes `dt` as an argument.
- Floats are modelled as exact reals. Rounding, `M_PI`, `sinf`/`cosf`/`sqrtf` and the
  quaternion helpers other than `q_mul` are parameters, so no float error is modelled.
- `frand`, `frand01` and `rand` are replaced by draws passed in. The order in which the C
  code consumes random numbers is not modelled.
- `neon_palette`, `hsv2rgb`, `color_for` and `draw_shape` are left out. Colour only affects
  drawing.
- `free_geom`, `free_list`, the window icon and the command line options are left out.
- `shape_belongs_to_monitor` is left out: its body is a stub that nothing in the core calls.
  `perCount` in `app_loop` is allocated but never used.
- `SphereMesh.MakeSphere` requires the sphere's points to fit the source's capacity
  `(lat+1)(lon+1)+(lat+lon)*64`. The source writes past its buffer when they do not.
  `LargeSphereOverflows` shows such an input, and `DefaultSphereFits` shows that `main`'s
  (10, 16) sphere fits.
- `TorusMesh.MakeTorus` and `TorusMesh.NormaliseSize` differ from the source for a torus whose
  points all have length 0. There `maxr` stays 0, the source's `0.5f/maxr` is infinite and the
  scaled coordinates are NaN, while the model returns the points unscaled.
- `Ini.AtoiShowInt`: `atoi` is modelled on unbounded integers, so overflow past 32 bits (which
  is undefined in C) is not modelled.
- `Ini.LoadIni` takes the file as a sequence of lines. A line longer than `fgets`'s 511 bytes,
  which C would split into two lines, is not modelled.
- `Ini.Trim` returns a slice. C writes a NUL into the buffer instead; both give the same text.
- `Ini.ParseLine`: a field that is a single quote character is turned into the empty string,
  as C does. C reads the byte after it, which is the NUL `strtok` or `trim` left there.
- `Animator.ShapeRuntime.Update` requires `reorientDur != 0`. The source divides by it, and
  every runtime built by `main` has a duration in [1.5, 2.5].
- No renormalisation is applied after the spin is composed, as in the source. The model
  does not claim that orientations stay unit quaternions.
- The source's fixed 16-row `quadrantCount` table is modelled by `PlaceShapesAsWritten`, which
  requires every clamped monitor index to be below 16. `PlaceShapes` is the corrected version,
  with a row for every monitor (at least 16); see Findings.
- `TorusMesh.MakeTorus`, `TorusMesh.TorusFits`: the source computes `vcap = majorSeg*minorSeg`
  (ornament.c:225) in 32-bit `int`, which overflows for 46341 by 46341. The model computes it
  in unbounded arithmetic, so that overflow is not modelled.
- `SphereMesh.MakeSphere`: the source computes `maxv = (lat+1)*(lon+1) + (lat+lon)*64`
  (ornament.c:176) in 32-bit `int`, which overflows for lat = 1 and lon = 40000000. The model
  computes it in unbounded arithmetic, so that overflow is not modelled.
- The exit of `main` when no window was created (ornament.c:444) is not modelled.
  `Monitors.CreateWindows` may return an empty list; `main` then stops before placing shapes.

## Findings

| source | as written | input that shows it | evidently intended | confidence | as-written member | corrected member |
|---|---|---|---|---|---|---|
| ornament.c:450-457 | `quadrantCount` has 16 rows, but `mon` is only clamped to `monCount - 1` | 17 monitors and a shape with `screen=16`: `quadrantCount[16][pos]` is one row past the table (`Placement.QuadrantRowMissing`) | one counter row for every monitor that a shape can be clamped to | not executed | `Placement.PlaceShapesAsWritten` | `Placement.PlaceShapes` |
