/**
 * The debug overlay of a tiled map: for every visible tile, the layer's
 * `renderSubLayers` hook returns a text label "x-y-z" set just inside the
 * tile's north-west corner and a path over the tile's west and south edges.
 * The rendering engine is reduced to the data the hook hands to it: one
 * `Primitive` per sub-layer.
 */
module DebugTiles {
  import opened Decimal

  /** Geographic bounds of a tile, in degrees. */
  datatype BoundaryMeta = BoundaryMeta(west: real, north: real, east: real, south: real)

  /** A tile of the quadtree: column x, row y, zoom z, and its bounds. */
  datatype Tile = Tile(x: int, y: int, z: int, bbox: BoundaryMeta)

  /** What the tiling host passes to the hook for one tile. */
  datatype RenderSubLayersProps = RenderSubLayersProps(id: string, tile: Tile)

  /** An RGB or RGBA colour, passed through untouched. */
  type RGBAColor = seq<int>

  datatype DebugTilesLayerData = DebugTilesLayerData(color: RGBAColor)

  datatype DebugTilesLayerProps = DebugTilesLayerProps(
    data: DebugTilesLayerData,
    tileSize: int,
    maxZoom: int,
    minZoom: int,
    pickable: bool)

  /** A map position: longitude, then latitude. */
  datatype Position = Position(lng: real, lat: real)

  datatype TextAnchor = Start | Middle | End

  /** A drawable sub-layer holding a single datum: one text run, or one path. */
  datatype Primitive =
    | TextLayer(id: string, position: Position, text: string, color: RGBAColor,
                size: int, textAnchor: TextAnchor, billboard: bool)
    | PathLayer(id: string, path: seq<Position>, color: RGBAColor, widthMinPixels: int)

  /** Fraction of the tile's width and height by which the label is set in from the north-west corner. */
  const LabelInset: real := 0.05
  const LabelSize: int := 10
  const OutlineWidthMinPixels: int := 1

  /** The layer's default properties. */
  const DefaultProps: DebugTilesLayerProps :=
    DebugTilesLayerProps(DebugTilesLayerData([255, 0, 0, 255]), 256, 24, 0, false)

  function TextId(id: string): string { id + "-c" }
  function PathId(id: string): string { id + "-b" }

  /** The label text: decimal x, '-', decimal y, '-', decimal z. */
  function TileLabel(x: int, y: int, z: int): string {
    IntToString(x) + "-" + IntToString(y) + "-" + IntToString(z)
  }

  function LabelPosition(b: BoundaryMeta): Position {
    Position(b.west + (b.east - b.west) * LabelInset, b.north + (b.south - b.north) * LabelInset)
  }

  /** North-west corner, down the west edge to the south-west corner, along the south edge to the south-east corner. */
  function OutlinePath(b: BoundaryMeta): seq<Position> {
    [Position(b.west, b.north), Position(b.west, b.south), Position(b.east, b.south)]
  }

  /** The `renderSubLayers` hook: the label first, then the outline. */
  function RenderSubLayers(props: DebugTilesLayerProps, sub: RenderSubLayersProps): (layers: seq<Primitive>)
    ensures |layers| == 2 && layers[0].TextLayer? && layers[1].PathLayer?
    ensures layers[0].color == props.data.color && layers[1].color == props.data.color
    ensures layers[0].id != layers[1].id
    ensures layers[0].size == 10 && layers[0].textAnchor == Start && !layers[0].billboard
    ensures layers[1].widthMinPixels == 1
    ensures ParseLabel(layers[0].text) == Some((sub.tile.x, sub.tile.y, sub.tile.z))
    ensures |layers[1].path| == 3
  {
    var t := sub.tile;
    var b := t.bbox;
    LabelRoundTrip(t.x, t.y, t.z);
    assert TextId(sub.id)[|sub.id| + 1] != PathId(sub.id)[|sub.id| + 1];
    [ TextLayer(TextId(sub.id), LabelPosition(b), TileLabel(t.x, t.y, t.z), props.data.color,
                LabelSize, Start, false),
      PathLayer(PathId(sub.id), OutlinePath(b), props.data.color, OutlineWidthMinPixels) ]
  }

  // ---------------------------------------------------------------------------
  // The label text

  /** Reads a '-' separator and then an integer. */
  function ReadDashInt(s: string): Option<(int, string)> {
    if |s| > 0 && s[0] == '-' then ReadInt(s[1..]) else None
  }

  /** Reads "x-y-z" back into the three integers; the text must end after z. */
  function ParseLabel(s: string): Option<(int, int, int)> {
    match ReadInt(s)
    case None => None
    case Some((x, r1)) =>
      match ReadDashInt(r1)
      case None => None
      case Some((y, r2)) =>
        match ReadDashInt(r2)
        case None => None
        case Some((z, r3)) => if r3 == [] then Some((x, y, z)) else None
  }

  lemma ReadDashIntString(n: int, t: string)
    requires t == [] || !IsDigit(t[0])
    ensures ReadDashInt("-" + (IntToString(n) + t)) == Some((n, t))
  {
    AppendParts("-", IntToString(n) + t);
    assert ("-" + (IntToString(n) + t))[0] == '-';
    ReadIntString(n, t);
  }

  /** The label regrouped from the right, the order in which `ParseLabel` consumes it. */
  lemma TileLabelFromRight(x: int, y: int, z: int)
    ensures TileLabel(x, y, z) == IntToString(x) + ("-" + (IntToString(y) + ("-" + IntToString(z))))
  {
    var a, b, c := IntToString(x), IntToString(y), IntToString(z);
    AppendAssoc(a + "-" + b, "-", c);
    AppendAssoc(a + "-", b, "-" + c);
    AppendAssoc(a, "-", b + ("-" + c));
  }

  /** The label reads back as the tile's coordinates. */
  lemma LabelRoundTrip(x: int, y: int, z: int)
    ensures ParseLabel(TileLabel(x, y, z)) == Some((x, y, z))
  {
    var r2 := "-" + IntToString(z);
    var r1 := "-" + (IntToString(y) + r2);
    TileLabelFromRight(x, y, z);
    ReadIntString(x, r1);
    ReadDashIntString(y, r2);
    assert IntToString(z) + "" == IntToString(z);
    ReadDashIntString(z, "");
  }

  /** Two tiles get the same label only when their coordinates agree. */
  lemma LabelInjective(x: int, y: int, z: int, x': int, y': int, z': int)
    requires TileLabel(x, y, z) == TileLabel(x', y', z')
    ensures x == x' && y == y' && z == z'
  {
    LabelRoundTrip(x, y, z);
    LabelRoundTrip(x', y', z');
  }

  // ---------------------------------------------------------------------------
  // Sub-layer ids

  lemma AppendSuffixInjective(a: string, b: string, suffix: string)
    requires a + suffix == b + suffix
    ensures a == b
  {
    assert |a| == |b|;
    assert a == (a + suffix)[..|a|];
    assert b == (b + suffix)[..|b|];
  }

  /**
   * Sub-layer ids never collide: a label id and an outline id always differ, and
   * tiles with different ids get different label ids and different outline ids.
   */
  lemma SubLayerIdsDistinct(props: DebugTilesLayerProps, sub1: RenderSubLayersProps, sub2: RenderSubLayersProps)
    ensures RenderSubLayers(props, sub1)[0].id == sub1.id + "-c"
    ensures RenderSubLayers(props, sub1)[1].id == sub1.id + "-b"
    ensures RenderSubLayers(props, sub1)[0].id != RenderSubLayers(props, sub2)[1].id
    ensures sub1.id != sub2.id ==>
              RenderSubLayers(props, sub1)[0].id != RenderSubLayers(props, sub2)[0].id &&
              RenderSubLayers(props, sub1)[1].id != RenderSubLayers(props, sub2)[1].id
  {
    var c1, b2 := TextId(sub1.id), PathId(sub2.id);
    assert c1[|c1| - 1] == 'c' && b2[|b2| - 1] == 'b';
    if sub1.id != sub2.id {
      if TextId(sub1.id) == TextId(sub2.id) {
        AppendSuffixInjective(sub1.id, sub2.id, "-c");
      }
      if PathId(sub1.id) == PathId(sub2.id) {
        AppendSuffixInjective(sub1.id, sub2.id, "-b");
      }
    }
  }

  // ---------------------------------------------------------------------------
  // The label's anchor

  /**
   * The label is anchored one twentieth of the tile's width east of the west
   * edge and one twentieth of its height south of the north edge; it lies
   * strictly between the west and east edges exactly when west < east, and
   * strictly between the south and north edges exactly when south < north.
   */
  lemma LabelAnchorInsideTile(props: DebugTilesLayerProps, sub: RenderSubLayersProps)
    ensures var p := RenderSubLayers(props, sub)[0].position;
            var b := sub.tile.bbox;
            && 20.0 * (p.lng - b.west) == b.east - b.west
            && 20.0 * (b.north - p.lat) == b.north - b.south
            && (b.west < p.lng < b.east <==> b.west < b.east)
            && (b.south < p.lat < b.north <==> b.south < b.north)
  {
  }

  /** A degenerate tile (zero width or height) still gets its label on the tile's closed bounds. */
  lemma LabelAnchorOnDegenerateTile(props: DebugTilesLayerProps, sub: RenderSubLayersProps)
    requires sub.tile.bbox.west <= sub.tile.bbox.east && sub.tile.bbox.south <= sub.tile.bbox.north
    ensures var p := RenderSubLayers(props, sub)[0].position;
            var b := sub.tile.bbox;
            b.west <= p.lng <= b.east && b.south <= p.lat <= b.north
  {
  }

  // ---------------------------------------------------------------------------
  // The outline

  /** West before east, and south before north along one meridian. */
  predicate Before(p: Position, q: Position) {
    p.lng < q.lng || (p.lng == q.lng && p.lat <= q.lat)
  }

  /** An undirected segment, stored with its end points in `Before` order. */
  datatype Segment = Segment(first: Position, last: Position)

  /** The undirected segment between p and q. */
  function Seg(p: Position, q: Position): Segment {
    if Before(p, q) then Segment(p, q) else Segment(q, p)
  }

  function WestEdge(b: BoundaryMeta): Segment { Seg(Position(b.west, b.north), Position(b.west, b.south)) }
  function SouthEdge(b: BoundaryMeta): Segment { Seg(Position(b.west, b.south), Position(b.east, b.south)) }
  function EastEdge(b: BoundaryMeta): Segment { Seg(Position(b.east, b.south), Position(b.east, b.north)) }
  function NorthEdge(b: BoundaryMeta): Segment { Seg(Position(b.west, b.north), Position(b.east, b.north)) }

  /** The segments between consecutive points of a path. */
  function Segments(path: seq<Position>): set<Segment> {
    if |path| < 2 then {} else {Seg(path[0], path[1])} + Segments(path[1..])
  }

  /** The segments the outline of a tile with bounds `b` draws. */
  function DrawnEdges(b: BoundaryMeta): set<Segment> {
    Segments(OutlinePath(b))
  }

  /**
   * The outline starts at the north-west corner, runs along the west edge
   * (constant longitude) to the south-west corner, then along the south edge
   * (constant latitude) to the south-east corner: it draws exactly the west
   * and south edges.
   */
  lemma OutlineDrawsWestAndSouth(props: DebugTilesLayerProps, sub: RenderSubLayersProps)
    ensures var path := RenderSubLayers(props, sub)[1].path;
            var b := sub.tile.bbox;
            && |path| == 3
            && path[0] == Position(b.west, b.north)
            && path[0].lng == path[1].lng == b.west
            && path[1].lat == path[2].lat == b.south
            && path[2] == Position(b.east, b.south)
            && Segments(path) == {WestEdge(b), SouthEdge(b)}
  {
    DrawnEdgesOf(sub.tile.bbox);
  }

  /** Two segments are equal exactly when their end points match in some order. */
  lemma SegmentEquality(p: Position, q: Position, r: Position, s: Position)
    ensures (Seg(p, q) == Seg(r, s)) <==> ((p == r && q == s) || (p == s && q == r))
  {
  }

  lemma DrawnEdgesOf(b: BoundaryMeta)
    ensures DrawnEdges(b) == {WestEdge(b), SouthEdge(b)}
  {
    var path := OutlinePath(b);
    assert Segments(path[1..][1..]) == {};
    assert Segments(path[1..]) == {Seg(path[1], path[2])};
  }

  /**
   * The east edge is drawn by a tile's own outline exactly when the tile has
   * zero width, and the north edge exactly when it has zero height; a proper
   * tile leaves both to its neighbours.
   */
  lemma EastAndNorthEdgesLeftOut(b: BoundaryMeta)
    ensures EastEdge(b) in DrawnEdges(b) <==> b.west == b.east
    ensures NorthEdge(b) in DrawnEdges(b) <==> b.south == b.north
  {
    DrawnEdgesOf(b);
    var nw, sw := Position(b.west, b.north), Position(b.west, b.south);
    var se, ne := Position(b.east, b.south), Position(b.east, b.north);
    SegmentEquality(se, ne, nw, sw);
    SegmentEquality(se, ne, sw, se);
    SegmentEquality(nw, ne, nw, sw);
    SegmentEquality(nw, ne, sw, se);
  }

  /** The path passes through the north-east corner only when the tile is degenerate. */
  lemma NorthEastCornerSkipped(b: BoundaryMeta)
    ensures Position(b.east, b.north) in OutlinePath(b) <==> (b.west == b.east || b.south == b.north)
  {
  }

  // ---------------------------------------------------------------------------
  // Defaults

  predicate ValidColor(c: RGBAColor) {
    (|c| == 3 || |c| == 4) && forall i :: 0 <= i < |c| ==> 0 <= c[i] <= 255
  }

  predicate ValidProps(p: DebugTilesLayerProps) {
    p.tileSize > 0 && 0 <= p.minZoom <= p.maxZoom && ValidColor(p.data.color)
  }

  /** The defaults: opaque red, 256-pixel tiles, zoom 0 to 24, not pickable. */
  lemma DefaultPropsValid()
    ensures ValidProps(DefaultProps)
    ensures DefaultProps.data.color == [255, 0, 0, 255] && DefaultProps.tileSize == 256
    ensures DefaultProps.minZoom == 0 && DefaultProps.maxZoom == 24 && !DefaultProps.pickable
  {
  }
}
