/** What the Tiled and lvllvl importers (src/plugin-import-Tiled.js,
    src/plugin-import-lvllvl.js) share: the project data they write into,
    the tileset check and its reformat to 16 tiles across, and the tile
    list that a tileset import rebuilds.  The two files hold the same text
    for the tileset part. */
module Importing {
  import opened Host

  // ---------------------------------------------------------------------
  // Project data

  /** A room map (`tilemap`, `foremap` or `backmap`): rows of tile values. */
  type Grid = seq<seq<int>>

  /** The ROOM_SIZE by ROOM_SIZE shape of every room map. */
  predicate IsGrid(g: Grid)
  {
    |g| == ROOM_SIZE && forall r :: 0 <= r < |g| ==> |g[r]| == ROOM_SIZE
  }

  /** A room as the importers see it; its wall map and events are not
      touched by them and are not modelled. */
  datatype Room = Room(id: int, palette: int, tilemap: Grid, foremap: Grid, backmap: Grid)

  predicate ValidRoom(room: Room)
  {
    IsGrid(room.tilemap) && IsGrid(room.foremap) && IsGrid(room.backmap)
  }

  predicate AllValid(rooms: map<nat, Room>)
  {
    forall k :: k in rooms ==> ValidRoom(rooms[k])
  }

  /** A grid of zeros, as a new room starts. */
  function Zeros(): (g: Grid)
    ensures IsGrid(g)
    ensures forall r, c :: 0 <= r < ROOM_SIZE && 0 <= c < ROOM_SIZE ==> g[r][c] == 0
  {
    seq(ROOM_SIZE, _ => seq(ROOM_SIZE, _ => 0))
  }

  /** The host's `makeBlankRoom(id, palette)`. */
  function BlankRoom(id: int, palette: int): (room: Room)
    ensures ValidRoom(room) && room.id == id && room.palette == palette
  {
    Room(id, palette, Zeros(), Zeros(), Zeros())
  }

  /** Writes `v` at row `y`, column `x` of a grid (`map[y][x] = v`). */
  function Put(g: Grid, y: nat, x: nat, v: int): (r: Grid)
    requires IsGrid(g) && y < ROOM_SIZE && x < ROOM_SIZE
    ensures IsGrid(r)
    ensures forall row, c :: 0 <= row < ROOM_SIZE && 0 <= c < ROOM_SIZE ==>
              r[row][c] == (if row == y && c == x then v else g[row][c])
  {
    g[y := g[y][x := v]]
  }

  /** The part of the project data the importers change: the rooms by
      index (`data.rooms`, which may have holes), the tiles, the colours
      of the first palette and that palette's id. */
  class Project {
    var rooms: map<nat, Room>
    var tiles: seq<Tile>
    var colors: seq<string>
    const paletteId: int

    predicate Valid()
      reads this
    {
      |colors| == 8 && AllValid(rooms)
    }

    constructor (rooms: map<nat, Room>, tiles: seq<Tile>, colors: seq<string>, paletteId: int)
      ensures this.rooms == rooms && this.tiles == tiles && this.colors == colors
      ensures this.paletteId == paletteId
    {
      this.rooms := rooms;
      this.tiles := tiles;
      this.colors := colors;
      this.paletteId := paletteId;
    }
  }

  /** The room at index `k` after the importers' "create it if it is
      missing, then set its id to the index". */
  function Ensured(rooms: map<nat, Room>, k: nat, palette: int): (room: Room)
    ensures room.id == k
    ensures k !in rooms ==> room == BlankRoom(k, palette)
    ensures k in rooms ==> room == rooms[k].(id := k)
    ensures AllValid(rooms) ==> ValidRoom(room)
  {
    (if k in rooms then rooms[k] else BlankRoom(k, palette)).(id := k)
  }

  // ---------------------------------------------------------------------
  // Tileset format

  /** A loaded image; only its size matters to the importers. */
  datatype Image = Image(width: nat, height: nat)

  const OUTPUT_COLUMNS: nat := 16

  /** `Math.ceil(a / b)`. */
  function CeilDiv(a: nat, b: nat): nat
    requires b > 0
  {
    (a + b - 1) / b
  }

  /** One `drawImage` of the reformat: the tile at input cell
      (fromX, fromY) is copied to output cell (toX, toY). */
  datatype Copy = Copy(fromX: nat, fromY: nat, toX: nat, toY: nat)

  /** The copy made for input cell (x, y) of an image `cols` tiles wide. */
  function CopyAt(x: nat, y: nat, cols: nat): Copy
  {
    var index := x + y * cols;
    Copy(x, y, index % OUTPUT_COLUMNS, index / OUTPUT_COLUMNS)
  }

  /** The `k`-th copy in the order the nested loops make them. */
  function NthCopy(k: nat, cols: nat): Copy
    requires cols > 0
  {
    CopyAt(k % cols, k / cols, cols)
  }

  /** The size of the reformatted image: 16 tiles across and enough rows. */
  function Reformatted(img: Image): (out: Image)
    requires img.width % TILE_PX == 0
  {
    Image(OUTPUT_COLUMNS * TILE_PX,
          CeilDiv((img.width / TILE_PX) * (img.height / TILE_PX), OUTPUT_COLUMNS) * TILE_PX)
  }

  /** `reformatTo16Wide`: the output size and the tile copies, in order.
      The loops run over whole tiles, which its only caller guarantees. */
  method ReformatTo16Wide(img: Image) returns (out: Image, copies: seq<Copy>)
    requires img.width % TILE_PX == 0 && img.height % TILE_PX == 0
    ensures out == Reformatted(img)
    ensures var cols := img.width / TILE_PX;
            |copies| == cols * (img.height / TILE_PX) &&
            forall k :: 0 <= k < |copies| ==> cols > 0 && copies[k] == NthCopy(k, cols)
  {
    var cols := img.width / TILE_PX;
    var rows := img.height / TILE_PX;
    var outputRows := CeilDiv(cols * rows, OUTPUT_COLUMNS);
    out := Image(OUTPUT_COLUMNS * TILE_PX, outputRows * TILE_PX);
    copies := [];
    var y := 0;
    while y < rows
      invariant 0 <= y <= rows
      invariant |copies| == y * cols
      invariant forall k :: 0 <= k < |copies| ==> cols > 0 && copies[k] == NthCopy(k, cols)
    {
      var x := 0;
      while x < cols
        invariant 0 <= x <= cols
        invariant |copies| == y * cols + x
        invariant forall k :: 0 <= k < |copies| ==> cols > 0 && copies[k] == NthCopy(k, cols)
      {
        RowMajor(x, y, cols);
        copies := copies + [CopyAt(x, y, cols)];
        x := x + 1;
      }
      assert y * cols + cols == (y + 1) * cols;
      y := y + 1;
    }
  }

  /** Every input cell is copied: the `k`-th copy, for k = x + y*cols,
      comes from cell (x, y). */
  lemma CopyFromCell(x: nat, y: nat, cols: nat)
    requires x < cols
    ensures NthCopy(x + y * cols, cols).fromX == x
    ensures NthCopy(x + y * cols, cols).fromY == y
  {
    RowMajor(x, y, cols);
  }

  /** Output cells follow the copy index in row-major order: a smaller
      index lands earlier, distinct indices land apart. */
  lemma IndexOrder(i1: nat, i2: nat)
    requires i1 < i2
    ensures i1 / OUTPUT_COLUMNS < i2 / OUTPUT_COLUMNS ||
            (i1 / OUTPUT_COLUMNS == i2 / OUTPUT_COLUMNS && i1 % OUTPUT_COLUMNS < i2 % OUTPUT_COLUMNS)
  {
    DivMod(i1, OUTPUT_COLUMNS);
    DivMod(i2, OUTPUT_COLUMNS);
  }

  /** An index below n lands in one of the CeilDiv(n, 16) output rows. */
  lemma IndexRow(i: nat, n: nat)
    requires i < n
    ensures i / OUTPUT_COLUMNS < CeilDiv(n, OUTPUT_COLUMNS)
  {
    DivMod(i, OUTPUT_COLUMNS);
    DivMod(n + OUTPUT_COLUMNS - 1, OUTPUT_COLUMNS);
  }

  /** Row-major numbering of the input cells: it keeps their order, so
      distinct cells get distinct indices, all below cols × rows. */
  lemma CellIndex(cols: nat, rows: nat, x1: nat, y1: nat, x2: nat, y2: nat)
    requires x1 < cols && x2 < cols && y1 < rows && y2 < rows
    ensures y1 < y2 || (y1 == y2 && x1 < x2) ==> x1 + y1 * cols < x2 + y2 * cols
    ensures (x1, y1) != (x2, y2) ==> x1 + y1 * cols != x2 + y2 * cols
    ensures x1 + y1 * cols < cols * rows
  {
    RowMajor(x1, y1, cols);
    RowMajor(x2, y2, cols);
    if y1 < y2 {
      MulStep(cols, y2, y1);
    }
    MulStep(cols, rows, y1);
  }

  /** Distinct input cells go to distinct output cells, every output cell
      lies within the reformatted image, and row-major order is kept. */
  lemma ReformatPlacement(cols: nat, rows: nat, x1: nat, y1: nat, x2: nat, y2: nat)
    requires x1 < cols && x2 < cols && y1 < rows && y2 < rows
    ensures var a, b := CopyAt(x1, y1, cols), CopyAt(x2, y2, cols);
            (x1, y1) != (x2, y2) ==> (a.toX, a.toY) != (b.toX, b.toY)
    ensures var a, b := CopyAt(x1, y1, cols), CopyAt(x2, y2, cols);
            y1 < y2 || (y1 == y2 && x1 < x2) ==> a.toY < b.toY || (a.toY == b.toY && a.toX < b.toX)
    ensures var a := CopyAt(x1, y1, cols);
            a.toX < OUTPUT_COLUMNS && a.toY < CeilDiv(cols * rows, OUTPUT_COLUMNS)
  {
    var i1, i2 := x1 + y1 * cols, x2 + y2 * cols;
    CellIndex(cols, rows, x1, y1, x2, y2);
    if i1 < i2 {
      IndexOrder(i1, i2);
    } else if i2 < i1 {
      IndexOrder(i2, i1);
    }
    IndexRow(i1, cols * rows);
  }

  /** `ensureTilesetFormat`: an error unless both sides are whole tiles;
      the image as it is when it is already 16 tiles wide; otherwise the
      reformatted image. */
  function EnsureTilesetFormat(img: Image): (r: Result<Image>)
  {
    if img.height % TILE_PX != 0 || img.width % TILE_PX != 0 then
      Err("The dimensions of the tileset must be a multiple of 8.")
    else if img.width != OUTPUT_COLUMNS * TILE_PX then
      Ok(Reformatted(img))
    else
      Ok(img)
  }

  /** The accepted images are exactly those of whole tiles; the result is
      always 16 tiles across and has room for every input tile. */
  lemma EnsureTilesetFormatRule(img: Image)
    ensures EnsureTilesetFormat(img).Ok? <==> img.width % TILE_PX == 0 && img.height % TILE_PX == 0
    ensures EnsureTilesetFormat(img).Ok? ==>
              var out := EnsureTilesetFormat(img).value;
              out.width == OUTPUT_COLUMNS * TILE_PX && out.height % TILE_PX == 0 &&
              TileCount(out) >= (img.width / TILE_PX) * (img.height / TILE_PX)
    ensures img.width == OUTPUT_COLUMNS * TILE_PX && img.height % TILE_PX == 0 ==>
              EnsureTilesetFormat(img) == Ok(img)
  {
    if img.width % TILE_PX == 0 && img.height % TILE_PX == 0 {
      var n := (img.width / TILE_PX) * (img.height / TILE_PX);
      var out := EnsureTilesetFormat(img).value;
      if img.width != OUTPUT_COLUMNS * TILE_PX {
        assert out.height / TILE_PX == CeilDiv(n, OUTPUT_COLUMNS);
        assert CeilDiv(n, OUTPUT_COLUMNS) * OUTPUT_COLUMNS >= n;
      } else {
        assert img.width / TILE_PX == OUTPUT_COLUMNS;
      }
    }
  }

  // ---------------------------------------------------------------------
  // Tile list

  /** `Math.floor(img.height / TILE_PX) * 16`: one tile per 8x8 cell. */
  function TileCount(img: Image): nat
  {
    img.height / TILE_PX * OUTPUT_COLUMNS
  }

  /** The tiles `importTileset` pushes: `{id: i+1, frames: [i]}`. */
  method TileList(count: nat) returns (tiles: seq<Tile>)
    ensures |tiles| == count
    ensures forall i :: 0 <= i < count ==> tiles[i] == Tile(i + 1, [i])
  {
    tiles := [];
    var i := 0;
    while i < count
      invariant 0 <= i <= count && |tiles| == i
      invariant forall j :: 0 <= j < i ==> tiles[j] == Tile(j + 1, [j])
    {
      tiles := tiles + [Tile(i + 1, [i])];
      i := i + 1;
    }
  }

  /** `importTileset` after the file is picked: an image rejected by the
      format check leaves the tiles alone; otherwise the tiles become one
      per cell of the formatted image. */
  method ImportTileset(data: Project, img: Image) returns (r: Result<Image>)
    modifies data
    ensures r == EnsureTilesetFormat(img)
    ensures r.Err? ==> data.tiles == old(data.tiles)
    ensures r.Ok? ==> (|data.tiles| == TileCount(r.value) &&
              forall i :: 0 <= i < |data.tiles| ==> data.tiles[i] == Tile(i + 1, [i]))
    ensures data.rooms == old(data.rooms) && data.colors == old(data.colors)
  {
    r := EnsureTilesetFormat(img);
    if r.Ok? {
      data.tiles := TileList(TileCount(r.value));
    }
  }

  /** After a tileset import the ids run 1, 2, ... without gaps, so each
      id names exactly one tile, and each tile shows its own cell. */
  lemma TileIds(tiles: seq<Tile>, count: nat)
    requires |tiles| == count
    requires forall i :: 0 <= i < count ==> tiles[i] == Tile(i + 1, [i])
    ensures forall i :: 0 <= i < count ==> 1 <= tiles[i].id <= count && tiles[i].frames == [tiles[i].id - 1]
    ensures forall i, j :: 0 <= i < count && 0 <= j < count && tiles[i].id == tiles[j].id ==> i == j
  {
  }
}
