# Debug tile overlay — a verified model

This project models the debug overlay layer of the wxtiles deck.gl example,
`DebugTilesLayer`. For every tile the map shows, the tiling host calls the
layer's `renderSubLayers` hook. The hook returns two sub-layers:

- a text label `"x-y-z"` (column, row, zoom), anchored 5% in from the tile's
  north-west corner;
- a path along the tile's west and south edges only.

Drawing only two edges per tile is enough, because every east edge is the
west edge of the tile to its east, and every north edge is the south edge of
the tile above it. Together the tiles' paths draw the whole grid.

The model has three modules:

- `Decimal` (decimal.dfy) models how an integer tile coordinate becomes text
  when it is concatenated with a string. It also has a reader, `ReadInt`, which
  is used to state that this text reads back as the same integer.
- `DebugTiles` (debug_tiles_layer.dfy) holds the records (`BoundaryMeta`,
  `Tile`, the layer's props and their defaults) and `RenderSubLayers`. The
  rendering engine is reduced to the data the hook hands to it: one
  `Primitive` per sub-layer. Lemmas cover the label text, the sub-layer ids,
  the label anchor and the outline.
- `TileMesh` (tile_mesh.dfy) models a block of adjacent tiles, with column
  boundaries growing eastwards and row boundaries shrinking southwards. It
  proves the claim in the source comment that the west and south edges
  "compose a square mesh". Each edge of every tile is drawn by exactly one
  tile of the block. The only exceptions are the east edges of the last column
  and the north edges of the first row, which no tile of the block draws.

Coordinates are `real`, so the 5% inset is exact. Tile coordinates are `int`,
and a colour is a sequence of channel values that is passed through unchanged.

## Model

| member | source | states |
|---|---|---|
| `DebugTiles.RenderSubLayers` | src/DebugTilesLayer.ts:48-83 | Every tile yields exactly two sub-layers, including a degenerate one: text first, then path. Both carry the layer's `data.color`. The two ids differ. The text has size 10, anchor start and no billboarding. The path has minimum width 1 and three points. The label text reads back as the tile's (x, y, z). |
| `DebugTiles.LabelRoundTrip` | src/DebugTilesLayer.ts:58 | Reading the label `x + '-' + y + '-' + z` back yields exactly (x, y, z), negative coordinates included. |
| `DebugTiles.LabelInjective` | src/DebugTilesLayer.ts:58 | Two tiles get the same label only when x, y and z all agree. |
| `DebugTiles.SubLayerIdsDistinct` | src/DebugTilesLayer.ts:55-66 | The sub-layer ids are the caller's id plus `-c` (text) and plus `-b` (path). A text id never equals any path id. Different caller ids give different text ids and different path ids. |
| `DebugTiles.LabelAnchorInsideTile` | src/DebugTilesLayer.ts:57 | The anchor is 1/20 of the width east of the west edge and 1/20 of the height south of the north edge. It lies strictly between west and east if and only if west < east. It lies strictly between south and north if and only if south < north. |
| `DebugTiles.LabelAnchorOnDegenerateTile` | src/DebugTilesLayer.ts:57 | If a tile has zero width or height, its anchor still lies within the tile's closed bounds. |
| `DebugTiles.OutlineDrawsWestAndSouth` | src/DebugTilesLayer.ts:65-79 | The path goes from (west, north) to (west, south) to (east, south). Its first segment has constant longitude (the west edge), and its second has constant latitude (the south edge). Its segments are exactly the west and south edges. |
| `DebugTiles.DrawnEdgesOf` | src/DebugTilesLayer.ts:67-74 | The set of segments the outline draws is exactly {west edge, south edge}. |
| `DebugTiles.EastAndNorthEdgesLeftOut` | src/DebugTilesLayer.ts:69-73 | The east edge is among the drawn segments if and only if west == east. The north edge is among them if and only if south == north. A proper tile draws neither. |
| `DebugTiles.NorthEastCornerSkipped` | src/DebugTilesLayer.ts:69-73 | The path visits the north-east corner if and only if the tile is degenerate (west == east or south == north). |
| `DebugTiles.DefaultPropsValid` | src/DebugTilesLayer.ts:87-93 | The defaults are colour [255, 0, 0, 255], tileSize 256, minZoom 0, maxZoom 24 and pickable false. These form a valid configuration: a positive tile size, 0 <= minZoom <= maxZoom, and a colour whose channels are in 0..255. |
| `Decimal.NatToString` | src/DebugTilesLayer.ts:58 | The text of a natural number is non-empty, all digits, and starts with '0' only for zero (no leading zeros). |
| `Decimal.NatToStringValue` | src/DebugTilesLayer.ts:58 | The digits of n denote n. |
| `Decimal.IntToString` | src/DebugTilesLayer.ts:58 | The text of an integer starts with '-' if and only if the integer is negative. The rest is digits. |
| `Decimal.ReadIntString` | src/DebugTilesLayer.ts:58 | The text of any integer, followed by a non-digit or by nothing, reads back as that integer with the following text left over. |
| `Decimal.IntToStringInjective` | src/DebugTilesLayer.ts:58 | Different integers have different texts. |
| `TileMesh.CellDrawnIs` | src/DebugTilesLayer.ts:65-79 | For a grid cell, `RenderSubLayers`'s path under any id draws exactly that cell's west and south edges. |
| `TileMesh.SharedEdges` | src/DebugTilesLayer.ts:69 | A cell's east edge is the west edge of the cell to its east. A cell's north edge is the south edge of the cell above. |
| `TileMesh.VerticalLineDrawnBy` | src/DebugTilesLayer.ts:69 | A vertical grid line between two adjacent row boundaries is drawn by cell (i, j) if and only if it is that cell's west edge. |
| `TileMesh.HorizontalLineDrawnBy` | src/DebugTilesLayer.ts:69 | A horizontal grid line between two adjacent column boundaries is drawn by cell (i, j) if and only if it is that cell's south edge. |
| `TileMesh.MeshDrawnExactlyOnce` | src/DebugTilesLayer.ts:69 | Take the set of grid cells whose outline draws a given edge of cell (i, j). For the west and south edges it is {(i, j)}. For the east edge it is {(i+1, j)}, or empty in the last column. For the north edge it is {(i, j-1)}, or empty in the first row. So every shared edge is drawn exactly once. |
| `TileMesh.CellLabelsDistinct` | src/DebugTilesLayer.ts:58 | Distinct cells of a grid carry distinct labels. |

## Left out

- The deck.gl base classes `TileLayer`, `TextLayer` and `PathLayer` are not modelled, and neither is drawing itself. A sub-layer is modelled as the data passed to its constructor. The accessors `getPosition`, `getText` and `getPath` become the values they return. The one-element `data` arrays become a single position, a single text and a single path.
- The constructor, which only passes the props on to `TileLayer`, is not modelled. Neither is `layerName`.
- The commented-out `getTileData` is not modelled: it is dead code, asynchronous and random.
- `src/index.ts` and `src/dev-deckgl-index.ts` are not modelled. They hold map construction, network-backed data layers, DOM buttons and the asynchronous play loop.
- The colour-legend rasteriser is not part of this model. It lives in the external wxtiles library and not in the repository's own source.
- How the tiling host uses `tileSize`, `minZoom`, `maxZoom` and `pickable` (for example, never asking for tiles outside the zoom range) is not modelled. That is deck.gl behaviour; the model only records the default values.
- Floating point is not modelled. Coordinates are exact reals, so the 0.05 inset and the strict inside-the-tile result ignore IEEE-754 rounding.
- Tile coordinates are integers. JavaScript's text for non-integer numbers, NaN, infinities, -0 (which prints as "0", as 0 does here) and magnitudes of 1e21 or more (exponent notation) is not modelled.
- `renderSubLayers` ignores the `data` member of its argument, so the model's argument has only `id` and `tile`.
- The bounds records (`BoundaryMeta`) are taken as given. The source does not check west < east or south < north, so the model accepts any bounds. Degenerate and inverted bounds still produce two sub-layers.
