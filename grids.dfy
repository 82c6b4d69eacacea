/** The grid and path builders that maths/coloration.py and
    maths/saturated_color_paths.py share: both fill the display gamut triangle
    with quads over a `linspace(0, 1, resolution)` grid on each of its three
    saturated faces, both build saturation surfaces by writing into a
    three-element `triplet` in place, and both tile a rectangle with
    `resolution` bands. Each file differs only in how a colour is projected to
    plotting coordinates, which is a parameter here. */
module Grids {
  import opened Wrappers
  import opened LinearAlgebra
  import opened Numerics
  import opened Functions

  // ---------------------------------------------------------------------------
  // Channels

  /** The first channel that is not `fixed` (`first_index` in the source). */
  function FirstFree(fixed: nat): nat
  {
    if fixed == 0 then 1 else 0
  }

  /** The second channel that is not `fixed` (`second_index` in the source). */
  function SecondFree(fixed: nat): nat
  {
    if fixed == 2 then 1 else 2
  }

  /** The three channels are `fixed`, `FirstFree(fixed)` and `SecondFree(fixed)`. */
  lemma ChannelsPartition(fixed: nat)
    requires fixed < 3
    ensures FirstFree(fixed) < 3 && SecondFree(fixed) < 3
    ensures FirstFree(fixed) < SecondFree(fixed)
    ensures FirstFree(fixed) != fixed && SecondFree(fixed) != fixed
  {
  }

  /** The colour whose `fixed` channel is v, whose first free channel is p and
      whose second free channel is q. */
  function Place(fixed: nat, v: real, p: real, q: real): (c: Vec3)
    requires fixed < 3
    ensures c.At(fixed) == v && c.At(FirstFree(fixed)) == p && c.At(SecondFree(fixed)) == q
  {
    if fixed == 0 then Vec3(v, p, q) else if fixed == 1 then Vec3(p, v, q) else Vec3(p, q, v)
  }

  /** `linspace(0, 1, n)`: the grid values of every free channel. */
  function Grid(n: nat): (g: seq<real>)
    ensures |g| == n
  {
    Linspace(0.0, 1.0, n)
  }

  /** Grid values lie in [0, 1], run from 0 to 1 and ascend strictly. */
  lemma GridFacts(n: nat, i: nat, j: nat)
    requires i < j < n
    ensures 0.0 <= Grid(n)[i] < Grid(n)[j] <= 1.0
    ensures Grid(n)[0] == 0.0 && Grid(n)[n - 1] == 1.0
  {
    LinspaceWithin(0.0, 1.0, n, i);
    LinspaceWithin(0.0, 1.0, n, j);
    LinspaceIncreasing(0.0, 1.0, n, i, j);
  }

  // ---------------------------------------------------------------------------
  // Cells of the gamut triangle

  /** One quad: the face whose `fixed` channel is saturated, and the grid
      square between indices second - 1 .. second and third - 1 .. third. */
  datatype Cell = Cell(fixed: nat, second: nat, third: nat)

  /** The cells the nested loops emit: index 0 of either grid loop is skipped. */
  predicate CellValid(c: Cell, n: nat)
  {
    c.fixed < 3 && 1 <= c.second < n && 1 <= c.third < n
  }

  /** The cells (f, s, j) for 1 <= j < t, in the inner loop's order; row 0 has none. */
  function RowCells(f: nat, s: nat, t: nat): seq<Cell>
  {
    if s == 0 || t <= 1 then [] else RowCells(f, s, t - 1) + [Cell(f, s, t - 1)]
  }

  /** The cells of rows 0 .. s - 1 of face f with grid size n. */
  function BlockCells(f: nat, s: nat, n: nat): seq<Cell>
  {
    if s == 0 then [] else BlockCells(f, s - 1, n) + RowCells(f, s - 1, n)
  }

  /** The cells of faces 0 .. f - 1 in the order they are emitted. */
  function InsideCells(f: nat, n: nat): seq<Cell>
  {
    if f == 0 then [] else InsideCells(f - 1, n) + BlockCells(f - 1, n, n)
  }

  lemma {:induction false} RowCellsCount(f: nat, s: nat, t: nat)
    ensures |RowCells(f, s, t)| == (if s == 0 || t == 0 then 0 else t - 1)
  {
    if s != 0 && t > 1 {
      RowCellsCount(f, s, t - 1);
    }
  }

  lemma {:induction false} BlockCellsCount(f: nat, s: nat, n: nat)
    requires 1 <= n
    ensures |BlockCells(f, s, n)| == (if s == 0 then 0 else (s - 1) * (n - 1))
  {
    if s > 1 {
      BlockCellsCount(f, s - 1, n);
      RowCellsCount(f, s - 1, n);
      assert (s - 2) * (n - 1) + (n - 1) == (s - 1) * (n - 1);
    }
  }

  lemma {:induction false} InsideCellsCount(f: nat, n: nat)
    requires 1 <= n
    ensures |InsideCells(f, n)| == f * ((n - 1) * (n - 1))
  {
    if f != 0 {
      InsideCellsCount(f - 1, n);
      BlockCellsCount(f - 1, n, n);
      var k := (n - 1) * (n - 1);
      assert (f - 1) * k + k == f * k;
    }
  }

  predicate InRow(c: Cell, f: nat, s: nat, t: nat)
  {
    c.fixed == f && c.second == s && 1 <= s && 1 <= c.third < t
  }

  predicate InBlock(c: Cell, f: nat, s: nat, n: nat)
  {
    c.fixed == f && 1 <= c.second < s && 1 <= c.third < n
  }

  predicate InFaces(c: Cell, f: nat, n: nat)
  {
    c.fixed < f && 1 <= c.second < n && 1 <= c.third < n
  }

  lemma ConcatMembers<T>(a: seq<T>, b: seq<T>, x: T)
    ensures x in a + b <==> x in a || x in b
  {
  }

  lemma {:induction false} RowCellsMembers(f: nat, s: nat, t: nat, c: Cell)
    ensures c in RowCells(f, s, t) <==> InRow(c, f, s, t)
  {
    if s != 0 && t > 1 {
      RowCellsMembers(f, s, t - 1, c);
    }
  }

  lemma {:induction false} BlockCellsMembers(f: nat, s: nat, n: nat, c: Cell)
    ensures c in BlockCells(f, s, n) <==> InBlock(c, f, s, n)
  {
    if s != 0 {
      BlockCellsMembers(f, s - 1, n, c);
      RowCellsMembers(f, s - 1, n, c);
    }
  }

  lemma {:induction false} InsideCellsMembers(f: nat, n: nat, c: Cell)
    ensures c in InsideCells(f, n) <==> InFaces(c, f, n)
  {
    if f != 0 {
      InsideCellsMembers(f - 1, n, c);
      BlockCellsMembers(f - 1, n, n, c);
      ConcatMembers(InsideCells(f - 1, n), BlockCells(f - 1, n, n), c);
    }
  }

  /** The triangle is filled by 3 (n - 1)^2 cells, and a cell is emitted exactly
      when it is valid. */
  lemma AllCells(n: nat)
    requires 1 <= n
    ensures |InsideCells(3, n)| == 3 * (n - 1) * (n - 1)
    ensures forall c :: c in InsideCells(3, n) <==> CellValid(c, n)
  {
    InsideCellsCount(3, n);
    forall c ensures c in InsideCells(3, n) <==> CellValid(c, n) {
      InsideCellsMembers(3, n, c);
    }
  }

  /** The five RGB corners of a cell, as the source lists them: the path starts
      and ends at the (second, third) corner. */
  function CellVertices(c: Cell, n: nat): seq<Vec3>
    requires CellValid(c, n)
  {
    var g := Grid(n);
    var (f, s, t) := (c.fixed, c.second, c.third);
    [Place(f, 1.0, g[s], g[t]), Place(f, 1.0, g[s - 1], g[t]), Place(f, 1.0, g[s - 1], g[t - 1]),
     Place(f, 1.0, g[s], g[t - 1]), Place(f, 1.0, g[s], g[t])]
  }

  /** A cell's fill colour: the fixed channel 1.0, the others at the middle of
      the grid square. */
  function CellColor(c: Cell, n: nat): Vec3
    requires CellValid(c, n)
  {
    var g := Grid(n);
    Place(c.fixed, 1.0, (g[c.second] + g[c.second - 1]) / 2.0, (g[c.third] + g[c.third - 1]) / 2.0)
  }

  /** A cell's path is a closed quad of saturated colours, and its colour is the
      centre of the quad: saturated, with the free channels strictly inside (0, 1). */
  lemma CellGeometry(c: Cell, n: nat)
    requires CellValid(c, n)
    ensures var vs := CellVertices(c, n);
      |vs| == 5 && vs[0] == vs[4] &&
      forall k :: 0 <= k < 5 ==> vs[k].InUnitCube() && vs[k].At(c.fixed) == 1.0
    ensures var col := CellColor(c, n);
      col.InUnitCube() && col.At(c.fixed) == 1.0 &&
      0.0 < col.At(FirstFree(c.fixed)) < 1.0 && 0.0 < col.At(SecondFree(c.fixed)) < 1.0
    ensures var (vs, col) := (CellVertices(c, n), CellColor(c, n));
      col.At(FirstFree(c.fixed)) == (vs[0].At(FirstFree(c.fixed)) + vs[2].At(FirstFree(c.fixed))) / 2.0 &&
      col.At(SecondFree(c.fixed)) == (vs[0].At(SecondFree(c.fixed)) + vs[2].At(SecondFree(c.fixed))) / 2.0
  {
    GridFacts(n, c.second - 1, c.second);
    GridFacts(n, c.third - 1, c.third);
  }

  // ---------------------------------------------------------------------------
  // Filling the triangle

  /** The emitted paths and colours match `cells` one to one, each path the
      projected corners of its cell. */
  predicate Emitted(cells: seq<Cell>, paths: seq<seq<Point>>, colors: seq<Vec3>, n: nat,
                    project: Vec3 -> Result<Point>)
  {
    && |paths| == |cells| && |colors| == |cells|
    && forall k :: 0 <= k < |cells| ==>
         CellValid(cells[k], n) &&
         MapAll(CellVertices(cells[k], n), project) == Ok(paths[k]) && colors[k] == CellColor(cells[k], n)
  }

  /** The contract of the fill: it succeeds exactly when the corners of every
      valid cell project, fails with the error of some cell otherwise, and on
      success emits one path and one colour per cell in the order of
      `InsideCells(3, n)`. */
  ghost predicate Filled(r: Result<(seq<seq<Point>>, seq<Vec3>)>, n: nat, project: Vec3 -> Result<Point>)
  {
    && (r.Ok? <==> forall c :: CellValid(c, n) ==> MapAll(CellVertices(c, n), project).Ok?)
    && (r.Err? ==> exists c :: CellValid(c, n) && MapAll(CellVertices(c, n), project) == Err(r.error))
    && (r.Ok? ==> Emitted(InsideCells(3, n), r.value.0, r.value.1, n, project))
  }

  lemma EmitOne(cells: seq<Cell>, paths: seq<seq<Point>>, colors: seq<Vec3>, n: nat,
                project: Vec3 -> Result<Point>, c: Cell, path: seq<Point>)
    requires Emitted(cells, paths, colors, n, project)
    requires CellValid(c, n) && MapAll(CellVertices(c, n), project) == Ok(path)
    ensures Emitted(cells + [c], paths + [path], colors + [CellColor(c, n)], n, project)
  {
  }

  /** Everything emitted: the fill succeeded. */
  lemma FilledOk(paths: seq<seq<Point>>, colors: seq<Vec3>, n: nat, project: Vec3 -> Result<Point>)
    requires 1 <= n
    requires Emitted(InsideCells(3, n), paths, colors, n, project)
    ensures Filled(Ok((paths, colors)), n, project)
  {
    AllCells(n);
    var cells := InsideCells(3, n);
    forall c | CellValid(c, n) ensures MapAll(CellVertices(c, n), project).Ok? {
      var k :| 0 <= k < |cells| && cells[k] == c;
    }
  }

  /** A cell failed to project: the fill fails with its error. */
  lemma FilledErr(c: Cell, n: nat, project: Vec3 -> Result<Point>)
    requires CellValid(c, n) && MapAll(CellVertices(c, n), project).Err?
    ensures Filled(Err(MapAll(CellVertices(c, n), project).error), n, project)
  {
  }

  lemma RowStep(cells: seq<Cell>, before: seq<Cell>, f: nat, s: nat, t: nat)
    requires 1 <= s && 1 <= t
    requires cells == before + RowCells(f, s, t)
    ensures cells + [Cell(f, s, t)] == before + RowCells(f, s, t + 1)
  {
  }

  lemma BlockStep(before: seq<Cell>, f: nat, s: nat, n: nat)
    ensures before + BlockCells(f, s + 1, n) == (before + BlockCells(f, s, n)) + RowCells(f, s, n)
  {
  }

  /** The inner loop over the third grid index, for one row s of face f. */
  method FillRow(n: nat, f: nat, s: nat, project: Vec3 -> Result<Point>, ghost before: seq<Cell>,
                 paths0: seq<seq<Point>>, colors0: seq<Vec3>)
    returns (r: Result<(seq<seq<Point>>, seq<Vec3>)>)
    requires f < 3 && s < n
    requires Emitted(before, paths0, colors0, n, project)
    ensures r.Ok? ==> Emitted(before + RowCells(f, s, n), r.value.0, r.value.1, n, project)
    ensures r.Err? ==> Filled(r, n, project)
  {
    var paths, colors := paths0, colors0;
    ghost var cells := before;
    for t := 0 to n
      invariant cells == before + RowCells(f, s, t)
      invariant Emitted(cells, paths, colors, n, project)
    {
      if s != 0 && t != 0 {
        var c := Cell(f, s, t);
        var projected := MapAll(CellVertices(c, n), project);
        if projected.Err? {
          FilledErr(c, n, project);
          return Err(projected.error);
        }
        EmitOne(cells, paths, colors, n, project, c, projected.value);
        paths := paths + [projected.value];
        colors := colors + [CellColor(c, n)];
        RowStep(cells, before, f, s, t);
        cells := cells + [c];
      }
    }
    r := Ok((paths, colors));
  }

  /** The middle loop over the second grid index, for one face f. */
  method FillFace(n: nat, f: nat, project: Vec3 -> Result<Point>, ghost before: seq<Cell>,
                  paths0: seq<seq<Point>>, colors0: seq<Vec3>)
    returns (r: Result<(seq<seq<Point>>, seq<Vec3>)>)
    requires f < 3
    requires Emitted(before, paths0, colors0, n, project)
    ensures r.Ok? ==> Emitted(before + BlockCells(f, n, n), r.value.0, r.value.1, n, project)
    ensures r.Err? ==> Filled(r, n, project)
  {
    var paths, colors := paths0, colors0;
    for s := 0 to n
      invariant Emitted(before + BlockCells(f, s, n), paths, colors, n, project)
    {
      var row := FillRow(n, f, s, project, before + BlockCells(f, s, n), paths, colors);
      if row.Err? {
        return row;
      }
      BlockStep(before, f, s, n);
      paths, colors := row.value.0, row.value.1;
    }
    r := Ok((paths, colors));
  }

  /** The three nested loops of `chromaticity_inside_gamut` and
      `chromaticity_within_gamut` (grid index 0 skipped), over an arbitrary
      projection of RGB corners to chromaticity. */
  method FillTriangle(n: nat, project: Vec3 -> Result<Point>) returns (r: Result<(seq<seq<Point>>, seq<Vec3>)>)
    requires 2 <= n
    ensures Filled(r, n, project)
  {
    var paths: seq<seq<Point>> := [];
    var colors: seq<Vec3> := [];
    for f := 0 to 3
      invariant Emitted(InsideCells(f, n), paths, colors, n, project)
    {
      var face := FillFace(n, f, project, InsideCells(f, n), paths, colors);
      if face.Err? {
        return face;
      }
      paths, colors := face.value.0, face.value.1;
    }
    FilledOk(paths, colors, n, project);
    r := Ok((paths, colors));
  }

  /** A projection of a closed list of corners is a closed path. */
  lemma ProjectedClosed(vs: seq<Vec3>, project: Vec3 -> Result<Point>)
    requires |vs| > 0 && vs[0] == vs[|vs| - 1]
    requires MapAll(vs, project).Ok?
    ensures var p := MapAll(vs, project).value; |p| == |vs| && p[0] == p[|p| - 1]
  {
    var p := MapAll(vs, project).value;
    assert project(vs[0]) == Ok(p[0]) && project(vs[|vs| - 1]) == Ok(p[|vs| - 1]);
  }

  /** A successful fill has 3 (n - 1)^2 closed five-vertex paths and as many
      colours, each with one saturated channel and the others in (0, 1). */
  lemma {:induction false} FilledShape(paths: seq<seq<Point>>, colors: seq<Vec3>, n: nat,
                                       project: Vec3 -> Result<Point>)
    requires 2 <= n
    requires Emitted(InsideCells(3, n), paths, colors, n, project)
    ensures |paths| == 3 * (n - 1) * (n - 1) && |colors| == |paths|
    ensures forall k :: 0 <= k < |paths| ==> |paths[k]| == 5 && paths[k][0] == paths[k][4]
    ensures forall k :: 0 <= k < |colors| ==>
      colors[k].InUnitCube() && exists f :: 0 <= f < 3 && colors[k].At(f) == 1.0
  {
    AllCells(n);
    var cells := InsideCells(3, n);
    forall k | 0 <= k < |paths|
      ensures |paths[k]| == 5 && paths[k][0] == paths[k][4]
      ensures colors[k].InUnitCube() && exists f :: 0 <= f < 3 && colors[k].At(f) == 1.0
    {
      CellGeometry(cells[k], n);
      ProjectedClosed(CellVertices(cells[k], n), project);
      assert colors[k].At(cells[k].fixed) == 1.0;
    }
  }

  // ---------------------------------------------------------------------------
  // Saturation surfaces

  /** Three coordinate grids for plotting and the grid of colours. */
  datatype Surface = Surface(xs: seq<seq<real>>, ys: seq<seq<real>>, zs: seq<seq<real>>, colors: seq<seq<Vec3>>)

  /** The colour at grid position (i, j): `fixed` held at v, the free channels
      at the i-th and j-th grid values. */
  function SurfaceColor(n: nat, fixed: nat, v: real, i: nat, j: nat): Vec3
    requires fixed < 3 && i < n && j < n
  {
    Place(fixed, v, Grid(n)[i], Grid(n)[j])
  }

  /** The first `count` entries of row i hold the colours of that row and their
      projected coordinates. */
  predicate RowMatches(xs: seq<real>, ys: seq<real>, zs: seq<real>, colors: seq<Vec3>, n: nat, fixed: nat,
                       v: real, i: nat, project: Vec3 -> Result<Vec3>, count: nat)
    requires fixed < 3 && i < n && count <= n
  {
    && |xs| == count && |ys| == count && |zs| == count && |colors| == count
    && forall j :: 0 <= j < count ==>
         colors[j] == SurfaceColor(n, fixed, v, i, j) && project(colors[j]) == Ok(Vec3(xs[j], ys[j], zs[j]))
  }

  /** The first `rows` rows of the surface are complete rows. */
  predicate SurfaceMatches(s: Surface, n: nat, fixed: nat, v: real, project: Vec3 -> Result<Vec3>, rows: nat)
    requires fixed < 3 && rows <= n
  {
    && |s.xs| == rows && |s.ys| == rows && |s.zs| == rows && |s.colors| == rows
    && forall i :: 0 <= i < rows ==> RowMatches(s.xs[i], s.ys[i], s.zs[i], s.colors[i], n, fixed, v, i, project, n)
  }

  /** The contract of a surface build: it succeeds exactly when every grid
      colour projects, fails with the error of some grid colour otherwise, and
      on success holds every colour and its coordinates. */
  ghost predicate SurfaceBuilt(r: Result<Surface>, n: nat, fixed: nat, v: real, project: Vec3 -> Result<Vec3>)
    requires fixed < 3
  {
    && (r.Ok? <==> forall i, j :: 0 <= i < n && 0 <= j < n ==> project(SurfaceColor(n, fixed, v, i, j)).Ok?)
    && (r.Err? ==> exists i, j :: 0 <= i < n && 0 <= j < n && project(SurfaceColor(n, fixed, v, i, j)) == Err(r.error))
    && (r.Ok? ==> SurfaceMatches(r.value, n, fixed, v, project, n))
  }

  lemma SurfaceOk(s: Surface, n: nat, fixed: nat, v: real, project: Vec3 -> Result<Vec3>)
    requires fixed < 3
    requires SurfaceMatches(s, n, fixed, v, project, n)
    ensures SurfaceBuilt(Ok(s), n, fixed, v, project)
  {
    forall i, j | 0 <= i < n && 0 <= j < n ensures project(SurfaceColor(n, fixed, v, i, j)).Ok? {
      assert RowMatches(s.xs[i], s.ys[i], s.zs[i], s.colors[i], n, fixed, v, i, project, n);
    }
  }

  lemma SurfaceErr(n: nat, fixed: nat, v: real, project: Vec3 -> Result<Vec3>, i: nat, j: nat)
    requires fixed < 3 && i < n && j < n
    requires project(SurfaceColor(n, fixed, v, i, j)).Err?
    ensures SurfaceBuilt(Err(project(SurfaceColor(n, fixed, v, i, j)).error), n, fixed, v, project)
  {
  }

  /** The loops of `three_dimensional_surface`: `triplet` is one three-element
      buffer whose fixed channel is written once and whose free channels are
      overwritten at every grid point; each stored colour is a copy of it. */
  method BuildSurface(n: nat, fixed: nat, v: real, project: Vec3 -> Result<Vec3>) returns (r: Result<Surface>)
    requires 2 <= n && fixed < 3
    ensures SurfaceBuilt(r, n, fixed, v, project)
  {
    var first, second := FirstFree(fixed), SecondFree(fixed);
    var triplet := new real[3];
    triplet[0], triplet[1], triplet[2] := 0.0, 0.0, 0.0;
    triplet[fixed] := v;
    var g := Grid(n);
    var xs: seq<seq<real>>, ys: seq<seq<real>>, zs: seq<seq<real>>, colors: seq<seq<Vec3>> := [], [], [], [];
    for i := 0 to n
      invariant triplet[fixed] == v
      invariant SurfaceMatches(Surface(xs, ys, zs, colors), n, fixed, v, project, i)
    {
      var rowX: seq<real>, rowY: seq<real>, rowZ: seq<real>, rowColors: seq<Vec3> := [], [], [], [];
      for j := 0 to n
        invariant triplet[fixed] == v
        invariant RowMatches(rowX, rowY, rowZ, rowColors, n, fixed, v, i, project, j)
      {
        triplet[first] := g[i];
        triplet[second] := g[j];
        var current := Vec3(triplet[0], triplet[1], triplet[2]);
        assert current == SurfaceColor(n, fixed, v, i, j);
        var use := project(current);
        if use.Err? {
          SurfaceErr(n, fixed, v, project, i, j);
          return Err(use.error);
        }
        rowX, rowY, rowZ := rowX + [use.value.a], rowY + [use.value.b], rowZ + [use.value.c];
        rowColors := rowColors + [current];
      }
      xs, ys, zs, colors := xs + [rowX], ys + [rowY], zs + [rowZ], colors + [rowColors];
    }
    SurfaceOk(Surface(xs, ys, zs, colors), n, fixed, v, project);
    r := Ok(Surface(xs, ys, zs, colors));
  }

  /** A built surface is an n x n grid whose every colour keeps the fixed
      channel at v and runs the free channels over the grid, from 0 at one
      corner to 1 at the opposite one; every colour lies in the unit cube when
      v does. */
  lemma SurfaceShape(s: Surface, n: nat, fixed: nat, v: real, project: Vec3 -> Result<Vec3>)
    requires 2 <= n && fixed < 3
    requires SurfaceMatches(s, n, fixed, v, project, n)
    ensures |s.colors| == n && forall i :: 0 <= i < n ==> |s.colors[i]| == n && |s.xs[i]| == n
    ensures forall i, j :: 0 <= i < n && 0 <= j < n ==>
      s.colors[i][j].At(fixed) == v &&
      s.colors[i][j].At(FirstFree(fixed)) == Grid(n)[i] && s.colors[i][j].At(SecondFree(fixed)) == Grid(n)[j]
    ensures s.colors[0][0].At(FirstFree(fixed)) == 0.0 && s.colors[0][0].At(SecondFree(fixed)) == 0.0
    ensures s.colors[n - 1][n - 1].At(FirstFree(fixed)) == 1.0 && s.colors[n - 1][n - 1].At(SecondFree(fixed)) == 1.0
    ensures 0.0 <= v <= 1.0 ==> forall i, j :: 0 <= i < n && 0 <= j < n ==> s.colors[i][j].InUnitCube()
  {
    assert RowMatches(s.xs[0], s.ys[0], s.zs[0], s.colors[0], n, fixed, v, 0, project, n);
    assert RowMatches(s.xs[n - 1], s.ys[n - 1], s.zs[n - 1], s.colors[n - 1], n, fixed, v, n - 1, project, n);
    if 0.0 <= v <= 1.0 {
      forall i, j | 0 <= i < n && 0 <= j < n ensures s.colors[i][j].InUnitCube() {
        assert RowMatches(s.xs[i], s.ys[i], s.zs[i], s.colors[i], n, fixed, v, i, project, n);
        LinspaceWithin(0.0, 1.0, n, i);
        LinspaceWithin(0.0, 1.0, n, j);
      }
    }
  }

  /** The projection of `plot_rgb`: a colour is plotted at its own channels. */
  function AsCoordinates(c: Vec3): (r: Result<Vec3>)
    ensures r.Ok? && r.value.a == c.a && r.value.b == c.b && r.value.c == c.c
  {
    Ok(c)
  }

  /** With the colours themselves as coordinates, every coordinate triple is
      its colour. */
  lemma SurfaceOfColors(s: Surface, n: nat, fixed: nat, v: real)
    requires fixed < 3
    requires SurfaceMatches(s, n, fixed, v, AsCoordinates, n)
    ensures forall i, j :: 0 <= i < n && 0 <= j < n ==> s.colors[i][j] == Vec3(s.xs[i][j], s.ys[i][j], s.zs[i][j])
  {
    forall i, j | 0 <= i < n && 0 <= j < n ensures s.colors[i][j] == Vec3(s.xs[i][j], s.ys[i][j], s.zs[i][j]) {
      assert RowMatches(s.xs[i], s.ys[i], s.zs[i], s.colors[i], n, fixed, v, i, AsCoordinates, n);
    }
  }

  // ---------------------------------------------------------------------------
  // Rings of paths

  /** The index after i, wrapping from the last back to 0 (`second_index`). */
  function Next(i: nat, n: nat): nat
  {
    if i + 1 >= n then 0 else i + 1
  }

  /** The index before i, wrapping from 0 to the last. */
  function Previous(i: nat, n: nat): nat
    requires 0 < n
  {
    if i == 0 then n - 1 else i - 1
  }

  // ---------------------------------------------------------------------------
  // Bands

  /** Band `index` of `resolution` tiling the rectangle at (left, bottom) of the
      given width and height: a closed five-vertex path across the rectangle,
      from index / resolution to (index + 1) / resolution of its width (or of
      its height when vertical). */
  function Band(index: nat, resolution: nat, left: real, bottom: real, width: real, height: real,
                vertical: bool): (r: seq<Point>)
    requires 0 < resolution
    ensures |r| == 5
  {
    var lo := (index as real) / (resolution as real);
    var hi := ((index + 1) as real) / (resolution as real);
    [Point(left + (if !vertical then lo * width else 0.0), bottom + (if vertical then lo * height else 0.0)),
     Point(left + (if !vertical then lo * width else 0.0), bottom + (if vertical then hi * height else height)),
     Point(left + (if !vertical then hi * width else width), bottom + (if vertical then hi * height else height)),
     Point(left + (if !vertical then hi * width else width), bottom + (if vertical then lo * height else 0.0)),
     Point(left + (if !vertical then lo * width else 0.0), bottom + (if vertical then lo * height else 0.0))]
  }

  /** The `resolution` bands of the rectangle, in order. */
  function Bands(n: nat, left: real, bottom: real, width: real, height: real, vertical: bool): (r: seq<seq<Point>>)
    requires 0 < n
    ensures |r| == n && forall i :: 0 <= i < n ==> r[i] == Band(i, n, left, bottom, width, height, vertical)
  {
    seq(n, (i: int) requires 0 <= i < n => Band(i, n, left, bottom, width, height, vertical))
  }

  /** Every band is a closed axis-parallel rectangle one resolution-th of the
      rectangle wide (or high), and as high (or wide) as the rectangle. */
  lemma BandRectangle(index: nat, resolution: nat, left: real, bottom: real, width: real, height: real,
                      vertical: bool)
    requires 0 < resolution
    ensures var b := Band(index, resolution, left, bottom, width, height, vertical);
      && |b| == 5 && b[0] == b[4]
      && b[0].x == b[1].x && b[1].y == b[2].y && b[2].x == b[3].x && b[3].y == b[0].y
      && (!vertical ==> b[3].x - b[0].x == width / (resolution as real) && b[1].y - b[0].y == height)
      && (vertical ==> b[1].y - b[0].y == height / (resolution as real) && b[3].x - b[0].x == width)
  {
    var r := resolution as real;
    var (lo, hi) := ((index as real) / r, ((index + 1) as real) / r);
    assert hi - lo == 1.0 / r;
    assert hi * width - lo * width == (hi - lo) * width;
    assert hi * height - lo * height == (hi - lo) * height;
  }

  /** Band index + 1 starts on the closing edge of band index. */
  lemma BandsAdjacent(index: nat, resolution: nat, left: real, bottom: real, width: real, height: real,
                      vertical: bool)
    requires index + 1 < resolution
    ensures var (b, c) := (Band(index, resolution, left, bottom, width, height, vertical),
                           Band(index + 1, resolution, left, bottom, width, height, vertical));
      if vertical then c[0] == b[1] && c[3] == b[2] else c[0] == b[3] && c[1] == b[2]
  {
  }

  /** Consecutive bands share a whole edge, the first starts at (left, bottom)
      and the last ends at (left + width, bottom + height): together they cover
      the rectangle. */
  lemma BandsTile(resolution: nat, left: real, bottom: real, width: real, height: real, vertical: bool)
    requires 0 < resolution
    ensures Band(0, resolution, left, bottom, width, height, vertical)[0] == Point(left, bottom)
    ensures Band(resolution - 1, resolution, left, bottom, width, height, vertical)[2] ==
            Point(left + width, bottom + height)
    ensures forall i :: 0 <= i < resolution - 1 ==>
      var (b, c) := (Band(i, resolution, left, bottom, width, height, vertical),
                     Band(i + 1, resolution, left, bottom, width, height, vertical));
      if vertical then c[0] == b[1] && c[3] == b[2] else c[0] == b[3] && c[1] == b[2]
  {
    assert ((resolution - 1 + 1) as real) / (resolution as real) == 1.0;
    forall i | 0 <= i < resolution - 1
      ensures var (b, c) := (Band(i, resolution, left, bottom, width, height, vertical),
                             Band(i + 1, resolution, left, bottom, width, height, vertical));
        if vertical then c[0] == b[1] && c[3] == b[2] else c[0] == b[3] && c[1] == b[2]
    {
      BandsAdjacent(i, resolution, left, bottom, width, height, vertical);
    }
  }
}
