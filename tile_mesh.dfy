/**
 * A block of adjacent tiles, and the claim that drawing only the west and
 * south edges of every tile composes the whole mesh: every edge of a tile is
 * drawn by exactly one tile of the block, except the east edges of the
 * easternmost column and the north edges of the northernmost row, which no
 * tile of the block draws.
 */
module TileMesh {
  import opened DebugTiles

  /**
   * Tiles (x0 + i, y0 + j, z) for 0 <= i < |lngs| - 1 and 0 <= j < |lats| - 1.
   * Column i spans longitudes lngs[i] to lngs[i + 1]; row j spans latitudes
   * lats[j] (north) to lats[j + 1] (south): rows count southwards, as tile rows do.
   */
  datatype Grid = Grid(x0: int, y0: int, z: int, lngs: seq<real>, lats: seq<real>)

  ghost predicate Increasing(s: seq<real>) {
    forall a, b :: 0 <= a < b < |s| ==> s[a] < s[b]
  }

  ghost predicate Decreasing(s: seq<real>) {
    forall a, b :: 0 <= a < b < |s| ==> s[a] > s[b]
  }

  /** At least one tile; longitudes grow eastwards and latitudes shrink southwards. */
  ghost predicate WellFormed(g: Grid) {
    |g.lngs| >= 2 && |g.lats| >= 2 && Increasing(g.lngs) && Decreasing(g.lats)
  }

  function Columns(g: Grid): nat { if |g.lngs| == 0 then 0 else |g.lngs| - 1 }
  function Rows(g: Grid): nat { if |g.lats| == 0 then 0 else |g.lats| - 1 }

  predicate InGrid(g: Grid, i: int, j: int) {
    0 <= i < Columns(g) && 0 <= j < Rows(g)
  }

  function CellBox(g: Grid, i: int, j: int): BoundaryMeta
    requires InGrid(g, i, j)
  {
    BoundaryMeta(g.lngs[i], g.lats[j], g.lngs[i + 1], g.lats[j + 1])
  }

  function CellTile(g: Grid, i: int, j: int): Tile
    requires InGrid(g, i, j)
  {
    Tile(g.x0 + i, g.y0 + j, g.z, CellBox(g, i, j))
  }

  /** The segments the outline of cell (i, j) draws. */
  function CellDrawn(g: Grid, i: int, j: int): set<Segment>
    requires InGrid(g, i, j)
  {
    DrawnEdges(CellBox(g, i, j))
  }

  /** The cells of the grid whose outlines draw `e`. */
  function Drawers(g: Grid, e: Segment): set<(int, int)> {
    set i, j | 0 <= i < Columns(g) && 0 <= j < Rows(g) && e in CellDrawn(g, i, j) :: (i, j)
  }

  /** The vertical mesh line at longitude lngs[c] between latitudes lats[r] and lats[r + 1]. */
  function VerticalLine(g: Grid, c: int, r: int): Segment
    requires 0 <= c < |g.lngs| && 0 <= r < Rows(g)
  {
    Seg(Position(g.lngs[c], g.lats[r]), Position(g.lngs[c], g.lats[r + 1]))
  }

  /** The horizontal mesh line at latitude lats[r] between longitudes lngs[c] and lngs[c + 1]. */
  function HorizontalLine(g: Grid, c: int, r: int): Segment
    requires 0 <= c < Columns(g) && 0 <= r < |g.lats|
  {
    Seg(Position(g.lngs[c], g.lats[r]), Position(g.lngs[c + 1], g.lats[r]))
  }

  /** The outline `RenderSubLayers` returns for cell (i, j), under any id, draws that cell's west and south edges. */
  lemma CellDrawnIs(props: DebugTilesLayerProps, id: string, g: Grid, i: int, j: int)
    requires InGrid(g, i, j)
    ensures Segments(RenderSubLayers(props, RenderSubLayersProps(id, CellTile(g, i, j)))[1].path) == CellDrawn(g, i, j)
    ensures CellDrawn(g, i, j) == {WestEdge(CellBox(g, i, j)), SouthEdge(CellBox(g, i, j))}
  {
    OutlineDrawsWestAndSouth(props, RenderSubLayersProps(id, CellTile(g, i, j)));
    DrawnEdgesOf(CellBox(g, i, j));
  }

  /** A strictly monotone sequence takes each value at one index only. */
  lemma MonotoneIndex(s: seq<real>, a: int, b: int)
    requires Increasing(s) || Decreasing(s)
    requires 0 <= a < |s| && 0 <= b < |s|
    ensures s[a] == s[b] <==> a == b
  {
    if a < b {
      assert s[a] < s[b] || s[a] > s[b];
    } else if b < a {
      assert s[b] < s[a] || s[b] > s[a];
    }
  }

  /** A vertical segment of non-zero length against the outline of bounds (w, n, e, s) with n != s. */
  lemma VerticalAgainstOutline(lng: real, lat1: real, lat2: real, b: BoundaryMeta)
    requires lat1 != lat2 && b.north != b.south
    ensures Seg(Position(lng, lat1), Position(lng, lat2)) in {WestEdge(b), SouthEdge(b)}
            <==> lng == b.west && ((lat1 == b.north && lat2 == b.south) || (lat1 == b.south && lat2 == b.north))
  {
    var p, q := Position(lng, lat1), Position(lng, lat2);
    SegmentEquality(p, q, Position(b.west, b.north), Position(b.west, b.south));
    SegmentEquality(p, q, Position(b.west, b.south), Position(b.east, b.south));
  }

  /** A horizontal segment of non-zero length against the outline of bounds (w, n, e, s) with w != e. */
  lemma HorizontalAgainstOutline(lng1: real, lng2: real, lat: real, b: BoundaryMeta)
    requires lng1 != lng2 && b.west != b.east
    ensures Seg(Position(lng1, lat), Position(lng2, lat)) in {WestEdge(b), SouthEdge(b)}
            <==> lat == b.south && ((lng1 == b.west && lng2 == b.east) || (lng1 == b.east && lng2 == b.west))
  {
    var p, q := Position(lng1, lat), Position(lng2, lat);
    SegmentEquality(p, q, Position(b.west, b.north), Position(b.west, b.south));
    SegmentEquality(p, q, Position(b.west, b.south), Position(b.east, b.south));
  }

  /** A vertical mesh line is drawn by cell (i, j) exactly when it is that cell's west edge. */
  lemma VerticalLineDrawnBy(g: Grid, c: int, r: int, i: int, j: int)
    requires WellFormed(g) && 0 <= c < |g.lngs| && 0 <= r < Rows(g) && InGrid(g, i, j)
    ensures VerticalLine(g, c, r) in CellDrawn(g, i, j) <==> (i == c && j == r)
  {
    var b := CellBox(g, i, j);
    DrawnEdgesOf(b);
    MonotoneIndex(g.lats, r, r + 1);
    MonotoneIndex(g.lats, j, j + 1);
    VerticalAgainstOutline(g.lngs[c], g.lats[r], g.lats[r + 1], b);
    assert VerticalLine(g, c, r) in CellDrawn(g, i, j) <==>
           g.lngs[c] == g.lngs[i] && ((g.lats[r] == g.lats[j] && g.lats[r + 1] == g.lats[j + 1]) ||
                                      (g.lats[r] == g.lats[j + 1] && g.lats[r + 1] == g.lats[j]));
    MonotoneIndex(g.lngs, c, i);
    MonotoneIndex(g.lats, r, j);
    MonotoneIndex(g.lats, r, j + 1);
  }

  /** A horizontal mesh line is drawn by cell (i, j) exactly when it is that cell's south edge. */
  lemma HorizontalLineDrawnBy(g: Grid, c: int, r: int, i: int, j: int)
    requires WellFormed(g) && 0 <= c < Columns(g) && 0 <= r < |g.lats| && InGrid(g, i, j)
    ensures HorizontalLine(g, c, r) in CellDrawn(g, i, j) <==> (i == c && j + 1 == r)
  {
    var b := CellBox(g, i, j);
    DrawnEdgesOf(b);
    MonotoneIndex(g.lngs, c, c + 1);
    MonotoneIndex(g.lngs, i, i + 1);
    HorizontalAgainstOutline(g.lngs[c], g.lngs[c + 1], g.lats[r], b);
    assert HorizontalLine(g, c, r) in CellDrawn(g, i, j) <==>
           g.lats[r] == g.lats[j + 1] && ((g.lngs[c] == g.lngs[i] && g.lngs[c + 1] == g.lngs[i + 1]) ||
                                          (g.lngs[c] == g.lngs[i + 1] && g.lngs[c + 1] == g.lngs[i]));
    MonotoneIndex(g.lats, r, j + 1);
    MonotoneIndex(g.lngs, c, i);
    MonotoneIndex(g.lngs, c, i + 1);
  }

  /** Neighbouring cells share edges: an east edge is the next column's west edge, a north edge the previous row's south edge. */
  lemma SharedEdges(g: Grid, i: int, j: int)
    requires InGrid(g, i, j)
    ensures EastEdge(CellBox(g, i, j)) == VerticalLine(g, i + 1, j)
    ensures WestEdge(CellBox(g, i, j)) == VerticalLine(g, i, j)
    ensures NorthEdge(CellBox(g, i, j)) == HorizontalLine(g, i, j)
    ensures SouthEdge(CellBox(g, i, j)) == HorizontalLine(g, i, j + 1)
    ensures i + 1 < Columns(g) ==> EastEdge(CellBox(g, i, j)) == WestEdge(CellBox(g, i + 1, j))
    ensures 0 < j ==> NorthEdge(CellBox(g, i, j)) == SouthEdge(CellBox(g, i, j - 1))
  {
  }

  /**
   * The mesh is drawn exactly once: the west and south edges of cell (i, j) are
   * drawn by that cell alone; its east edge by the cell to its east alone, or by
   * no cell when (i, j) is in the last column; its north edge by the cell to its
   * north alone, or by no cell when (i, j) is in the first row.
   */
  lemma MeshDrawnExactlyOnce(g: Grid, i: int, j: int)
    requires WellFormed(g) && InGrid(g, i, j)
    ensures Drawers(g, WestEdge(CellBox(g, i, j))) == {(i, j)}
    ensures Drawers(g, SouthEdge(CellBox(g, i, j))) == {(i, j)}
    ensures Drawers(g, EastEdge(CellBox(g, i, j))) == if i + 1 < Columns(g) then {(i + 1, j)} else {}
    ensures Drawers(g, NorthEdge(CellBox(g, i, j))) == if 0 < j then {(i, j - 1)} else {}
  {
    SharedEdges(g, i, j);
    var west, south := VerticalLine(g, i, j), HorizontalLine(g, i, j + 1);
    var east, north := VerticalLine(g, i + 1, j), HorizontalLine(g, i, j);
    forall i', j' | InGrid(g, i', j')
      ensures west in CellDrawn(g, i', j') <==> (i', j') == (i, j)
      ensures south in CellDrawn(g, i', j') <==> (i', j') == (i, j)
      ensures east in CellDrawn(g, i', j') <==> (i', j') == (i + 1, j)
      ensures north in CellDrawn(g, i', j') <==> (i', j') == (i, j - 1)
    {
      VerticalLineDrawnBy(g, i, j, i', j');
      VerticalLineDrawnBy(g, i + 1, j, i', j');
      HorizontalLineDrawnBy(g, i, j + 1, i', j');
      HorizontalLineDrawnBy(g, i, j, i', j');
    }
  }

  /** Distinct cells of a grid carry distinct labels, so a label names its cell. */
  lemma CellLabelsDistinct(g: Grid, i: int, j: int, i': int, j': int)
    requires InGrid(g, i, j) && InGrid(g, i', j')
    requires i != i' || j != j'
    ensures TileLabel(g.x0 + i, g.y0 + j, g.z) != TileLabel(g.x0 + i', g.y0 + j', g.z)
  {
    var x, y, x', y' := g.x0 + i, g.y0 + j, g.x0 + i', g.y0 + j';
    if TileLabel(x, y, g.z) == TileLabel(x', y', g.z) {
      LabelInjective(x, y, g.z, x', y', g.z);
    }
  }
}
