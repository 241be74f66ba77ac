/** Where each shape is placed: the anchor's point in normalised device coordinates,
    pulled inward by a fixed margin, then fanned out by 0.05 per earlier shape that shares
    the same monitor and anchor (the quadrantCount table of main). */
module Placement {
  import opened VecMath
  import opened Config
  import opened Monitors

  /** The inward margin main uses. */
  const Margin: real := 0.12

  /** The fan-out step per earlier shape in the same cell. */
  const Step: real := 0.05

  /** Rows of the source's quadrantCount table. */
  const QuadrantRows: int := 16

  /** anchor_to_ndc: the anchors form a 3 by 3 grid in row-major order, left to right and
      top to bottom, at x in {-1, 0, 1} and y in {1, 0, -1}. */
  function AnchorToNdc(a: Anchor): (p: Vec3)
    ensures p == Vec3((a.Index() % 3 - 1) as real, (1 - a.Index() / 3) as real, 0.0)
  {
    match a
    case TopLeft => Vec3(-1.0, 1.0, 0.0)
    case TopCenter => Vec3(0.0, 1.0, 0.0)
    case TopRight => Vec3(1.0, 1.0, 0.0)
    case CenterLeft => Vec3(-1.0, 0.0, 0.0)
    case Center => Vec3(0.0, 0.0, 0.0)
    case CenterRight => Vec3(1.0, 0.0, 0.0)
    case BottomLeft => Vec3(-1.0, -1.0, 0.0)
    case BottomCenter => Vec3(0.0, -1.0, 0.0)
    case BottomRight => Vec3(1.0, -1.0, 0.0)
  }

  /** anchor_margin: four tests in the source's order, the second on the x the first one
      may already have moved. */
  function AnchorMargin(a: Vec3, m: real): Vec3
  {
    var x1 := if a.x < 0.0 then a.x + m else a.x;
    var x2 := if x1 > 0.0 then x1 - m else x1;
    var y1 := if a.y > 0.0 then a.y - m else a.y;
    var y2 := if y1 < 0.0 then y1 + m else y1;
    Vec3(x2, y2, a.z)
  }

  /** For a margin of at most 1, anchor_margin shrinks every anchor point towards the
      centre by the factor 1 - m. */
  lemma MarginScalesAnchor(a: Anchor, m: real)
    requires 0.0 <= m <= 1.0
    ensures var p := AnchorToNdc(a);
            AnchorMargin(p, m) == Vec3((1.0 - m) * p.x, (1.0 - m) * p.y, 0.0)
  {
  }

  /** The position of a shape with anchor a after n earlier shapes in its cell: the margin
      point moved by 0.05*n against the sign of each anchor coordinate, where a zero
      coordinate counts as non-negative. */
  function Placement(a: Anchor, n: nat): Vec3
  {
    var anc := AnchorToNdc(a);
    var pos := AnchorMargin(anc, Margin);
    var off := Step * n as real;
    Vec3(pos.x + (if anc.x >= 0.0 then -off else off), pos.y + (if anc.y >= 0.0 then -off else off), pos.z)
  }

  /** The first shape of a cell sits on the margin point; each later one is 0.05 further
      along each axis, towards the centre for corner and edge anchors. For the centre and
      the edge midpoints a zero coordinate moves towards negative rather than staying. */
  lemma PlacementOffsets(a: Anchor, n: nat)
    ensures var p, anc := Placement(a, n), AnchorToNdc(a);
            p.x == 0.88 * anc.x - (if anc.x >= 0.0 then 1.0 else -1.0) * 0.05 * n as real &&
            p.y == 0.88 * anc.y - (if anc.y >= 0.0 then 1.0 else -1.0) * 0.05 * n as real &&
            p.z == 0.0
  {
    MarginScalesAnchor(a, Margin);
  }

  /** The centre anchor is not left at the origin: its n-th shape sits at (-0.05n, -0.05n). */
  lemma CentreMovesDownLeft(n: nat)
    ensures Placement(Center, n) == Vec3(-0.05 * n as real, -0.05 * n as real, 0.0)
  {
  }

  /** Up to 17 shapes in a cell stay inside the inset square [-0.88, 0.88]^2. */
  lemma PlacementInside(a: Anchor, n: nat)
    requires n <= 17
    ensures -0.88 <= Placement(a, n).x <= 0.88 && -0.88 <= Placement(a, n).y <= 0.88
  {
    PlacementOffsets(a, n);
  }

  /** Different counts give different positions: shapes in one cell never coincide. */
  lemma PlacementInjective(a: Anchor, n1: nat, n2: nat)
    requires n1 != n2
    ensures Placement(a, n1) != Placement(a, n2)
  {
    PlacementOffsets(a, n1);
    PlacementOffsets(a, n2);
  }

  // ---------------------------------------------------------------------------
  // The occupancy counters.

  /** How many of cs fall in the cell (mon, a) once their screen is clamped. */
  function Occupancy(cs: seq<ShapeConfig>, monCount: int, mon: int, a: Anchor): nat
    requires monCount >= 1
  {
    if |cs| == 0 then 0
    else
      var c := cs[|cs| - 1];
      Occupancy(cs[..|cs| - 1], monCount, mon, a) + (if ClampScreen(c.screen, monCount) == mon && c.pos == a then 1 else 0)
  }

  /** Where every configured shape goes: shape i is placed after the shapes before it that
      share its clamped monitor and its anchor. */
  function Positions(cs: seq<ShapeConfig>, monCount: int): (ps: seq<Vec3>)
    requires monCount >= 1
    ensures |ps| == |cs|
  {
    seq(|cs|, i requires 0 <= i < |cs| =>
      Placement(cs[i].pos, Occupancy(cs[..i], monCount, ClampScreen(cs[i].screen, monCount), cs[i].pos)))
  }

  lemma OccupancyStep(cs: seq<ShapeConfig>, monCount: int, i: nat, mon: int, a: Anchor)
    requires monCount >= 1 && i < |cs|
    ensures Occupancy(cs[..i + 1], monCount, mon, a) ==
            Occupancy(cs[..i], monCount, mon, a) + (if ClampScreen(cs[i].screen, monCount) == mon && cs[i].pos == a then 1 else 0)
  {
    assert cs[..i + 1][..i] == cs[..i];
  }

  /** Occupancy only grows along the list, and passes a member of the cell. */
  lemma {:induction false} OccupancyGrows(cs: seq<ShapeConfig>, monCount: int, i: nat, j: nat, mon: int, a: Anchor)
    requires monCount >= 1 && i < j <= |cs|
    requires ClampScreen(cs[i].screen, monCount) == mon && cs[i].pos == a
    ensures Occupancy(cs[..i], monCount, mon, a) < Occupancy(cs[..j], monCount, mon, a)
    decreases j
  {
    OccupancyStep(cs, monCount, j - 1, mon, a);
    if i < j - 1 {
      OccupancyGrows(cs, monCount, i, j - 1, mon, a);
    }
  }

  /** Two shapes on the same monitor with the same anchor are never drawn on top of each
      other. */
  lemma SameCellApart(cs: seq<ShapeConfig>, monCount: int, i: nat, j: nat)
    requires monCount >= 1 && i < j < |cs|
    requires ClampScreen(cs[i].screen, monCount) == ClampScreen(cs[j].screen, monCount)
    requires cs[i].pos == cs[j].pos
    ensures Positions(cs, monCount)[i] != Positions(cs, monCount)[j]
  {
    var mon, a := ClampScreen(cs[i].screen, monCount), cs[i].pos;
    OccupancyGrows(cs, monCount, i, j, mon, a);
    PlacementInjective(a, Occupancy(cs[..i], monCount, mon, a), Occupancy(cs[..j], monCount, mon, a));
  }

  /** The first shape of each cell sits exactly on the margin point of its anchor. */
  lemma FirstInCell(cs: seq<ShapeConfig>, monCount: int, i: nat)
    requires monCount >= 1 && i < |cs|
    requires forall j :: 0 <= j < i ==> ClampScreen(cs[j].screen, monCount) != ClampScreen(cs[i].screen, monCount) || cs[j].pos != cs[i].pos
    ensures Positions(cs, monCount)[i] == AnchorMargin(AnchorToNdc(cs[i].pos), Margin)
  {
    OccupancyNone(cs[..i], monCount, ClampScreen(cs[i].screen, monCount), cs[i].pos);
  }

  lemma {:induction false} OccupancyNone(cs: seq<ShapeConfig>, monCount: int, mon: int, a: Anchor)
    requires monCount >= 1
    requires forall j :: 0 <= j < |cs| ==> ClampScreen(cs[j].screen, monCount) != mon || cs[j].pos != a
    ensures Occupancy(cs, monCount, mon, a) == 0
  {
    if |cs| > 0 {
      var pre := cs[..|cs| - 1];
      assert forall j :: 0 <= j < |pre| ==> pre[j] == cs[j];
      OccupancyNone(pre, monCount, mon, a);
    }
  }

  /** The counter read and increment: qn = quadrantCount[mon][pos]++. Only that cell
      changes, by one. */
  method TakeSlot(table: array2<int>, mon: int, col: int) returns (qn: int)
    requires 0 <= mon < table.Length0 && 0 <= col < table.Length1
    modifies table
    ensures qn == old(table[mon, col]) && table[mon, col] == qn + 1
    ensures forall r, c :: 0 <= r < table.Length0 && 0 <= c < table.Length1 && (r != mon || c != col) ==>
              table[r, c] == old(table[r, c])
  {
    qn := table[mon, col];
    table[mon, col] := qn + 1;
  }

  /** True when the counter table holds the occupancy of every cell after the shapes cs. */
  ghost predicate Counts(table: array2<int>, cs: seq<ShapeConfig>, monCount: int)
    requires monCount >= 1
    reads table
  {
    table.Length1 == 9 &&
    forall r, c :: 0 <= r < table.Length0 && 0 <= c < 9 ==> table[r, c] == Occupancy(cs, monCount, r, AnchorAt(c))
  }

  lemma AnchorIndexRoundTrip(a: Anchor)
    ensures AnchorAt(a.Index()) == a
  {
  }

  /** A counter table of the given number of rows has a row for every clamped monitor
      index the shapes cs use. */
  predicate RowsSuffice(cs: seq<ShapeConfig>, monCount: int, rows: int)
    requires monCount >= 1
  {
    forall i :: 0 <= i < |cs| ==> ClampScreen(cs[i].screen, monCount) < rows
  }

  /** The placement loop of main over a counter table of the given number of rows, updated
      in place; it needs a row for every clamped monitor index. */
  method PlaceShapesIn(cs: seq<ShapeConfig>, monCount: int, rows: int) returns (positions: seq<Vec3>)
    requires monCount >= 1 && rows >= 0 && RowsSuffice(cs, monCount, rows)
    ensures positions == Positions(cs, monCount)
  {
    var quadrantCount := new int[rows, 9]((_, _) => 0);
    positions := [];
    var i := 0;
    while i < |cs|
      invariant 0 <= i <= |cs|
      invariant positions == Positions(cs[..i], monCount)
      invariant Counts(quadrantCount, cs[..i], monCount)
    {
      var sc := cs[i];
      var mon := sc.screen;
      if mon < 0 {
        mon := 0;
      }
      if mon >= monCount {
        mon := monCount - 1;
      }
      var anc := AnchorToNdc(sc.pos);
      var pos := AnchorMargin(anc, Margin);
      ghost var counted := quadrantCount[mon, sc.pos.Index()];
      AnchorIndexRoundTrip(sc.pos);
      assert counted == Occupancy(cs[..i], monCount, mon, sc.pos);
      var qn := TakeSlot(quadrantCount, mon, sc.pos.Index());
      var off := Step * qn as real;
      pos := pos.(x := pos.x + (if anc.x >= 0.0 then -off else off));
      pos := pos.(y := pos.y + (if anc.y >= 0.0 then -off else off));
      NextPosition(cs, monCount, i, positions, anc, qn, pos);
      positions := positions + [pos];
      CountsStep(quadrantCount, cs, monCount, i, mon, sc.pos.Index());
      i := i + 1;
    }
    assert cs[..i] == cs;
  }

  /** The placement loop as written: a table of the source's 16 rows, which is only safe
      while every clamped monitor index is below 16. */
  method PlaceShapesAsWritten(cs: seq<ShapeConfig>, monCount: int) returns (positions: seq<Vec3>)
    requires monCount >= 1 && RowsSuffice(cs, monCount, QuadrantRows)
    ensures positions == Positions(cs, monCount)
  {
    positions := PlaceShapesIn(cs, monCount, QuadrantRows);
  }

  /** The placement loop with one counter row per monitor (and at least the source's 16), so
      every clamped monitor index has a row whatever the configuration; see the finding on
      QuadrantRowMissing. */
  method PlaceShapes(cs: seq<ShapeConfig>, monCount: int) returns (positions: seq<Vec3>)
    requires monCount >= 1
    ensures positions == Positions(cs, monCount)
  {
    var rows := if monCount > QuadrantRows then monCount else QuadrantRows;
    positions := PlaceShapesIn(cs, monCount, rows);
  }

  lemma NextPosition(cs: seq<ShapeConfig>, monCount: int, i: nat, positions: seq<Vec3>, anc: Vec3, qn: int, pos: Vec3)
    requires monCount >= 1 && i < |cs|
    requires positions == Positions(cs[..i], monCount)
    requires anc == AnchorToNdc(cs[i].pos) && qn == Occupancy(cs[..i], monCount, ClampScreen(cs[i].screen, monCount), cs[i].pos)
    requires var m, off := AnchorMargin(anc, Margin), Step * qn as real;
             pos == Vec3(m.x + (if anc.x >= 0.0 then -off else off), m.y + (if anc.y >= 0.0 then -off else off), m.z)
    ensures positions + [pos] == Positions(cs[..i + 1], monCount)
  {
    assert pos == Placement(cs[i].pos, qn);
    PositionsStep(cs, monCount, i);
  }

  lemma PositionsStep(cs: seq<ShapeConfig>, monCount: int, i: nat)
    requires monCount >= 1 && i < |cs|
    ensures Positions(cs[..i + 1], monCount) ==
            Positions(cs[..i], monCount) + [Placement(cs[i].pos, Occupancy(cs[..i], monCount, ClampScreen(cs[i].screen, monCount), cs[i].pos))]
  {
    var next := cs[..i + 1];
    assert next[..i] == cs[..i];
    forall k | 0 <= k < i
      ensures next[..k] == cs[..i][..k] && next[k] == cs[..i][k]
    {
    }
  }

  lemma CountsStep(table: array2<int>, cs: seq<ShapeConfig>, monCount: int, i: nat, mon: int, col: int)
    requires monCount >= 1 && i < |cs| && table.Length1 == 9
    requires mon == ClampScreen(cs[i].screen, monCount) && col == cs[i].pos.Index()
    requires 0 <= mon < table.Length0
    requires forall r, c :: 0 <= r < table.Length0 && 0 <= c < 9 ==>
               table[r, c] == Occupancy(cs[..i], monCount, r, AnchorAt(c)) + (if r == mon && c == col then 1 else 0)
    ensures Counts(table, cs[..i + 1], monCount)
  {
    forall r, c | 0 <= r < table.Length0 && 0 <= c < 9
      ensures table[r, c] == Occupancy(cs[..i + 1], monCount, r, AnchorAt(c))
    {
      OccupancyStep(cs, monCount, i, r, AnchorAt(c));
      AnchorIndexRoundTrip(cs[i].pos);
    }
  }

  /** As written, the table has 16 rows whatever the monitor count: with 17 monitors one
      shape configured for screen 16 is clamped to row 16, one past the table's last row,
      so the as-written loop's requirement fails. */
  lemma QuadrantRowMissing()
    ensures var cs := [ShapeConfig(Cube, Green, Center, 16)];
      ClampScreen(cs[0].screen, 17) == 16 && !RowsSuffice(cs, 17, QuadrantRows)
  {
  }

  /** With at most 16 monitors the source's table is large enough for every configuration. */
  lemma SixteenMonitorsFit(cs: seq<ShapeConfig>, monCount: int)
    requires 1 <= monCount <= QuadrantRows
    ensures RowsSuffice(cs, monCount, QuadrantRows)
  {
  }
}
