/** The Tiled importer (src/plugin-import-Tiled.js): each tile layer of a
    Tiled map becomes the room at the same index, its values written row
    by row into the room's tilemap, and a Tiled tileset's animations set
    the frames of the tiles they name.  The tileset image import itself is
    in module Importing. */
module TiledImport {
  import opened Host
  import opened Importing

  // ---------------------------------------------------------------------
  // Map layers

  /** A tile layer of the map: its width in tiles and its values. */
  datatype Layer = Layer(width: nat, data: seq<int>)

  /** A layer whose rows are at most a room wide and which has at most a
      room's height of rows, so every write lands inside the tilemap. */
  predicate Fits(layer: Layer)
  {
    1 <= layer.width <= ROOM_SIZE && |layer.data| <= ROOM_SIZE * layer.width
  }

  /** The tilemap after the layer's values are written in order, value i
      at row i / width and column i % width. */
  function Painted(g: Grid, data: seq<int>, w: nat): (r: Grid)
    requires IsGrid(g) && 1 <= w <= ROOM_SIZE && |data| <= ROOM_SIZE * w
    ensures IsGrid(r)
    decreases |data|
  {
    if data == [] then g
    else
      var i := |data| - 1;
      DivMod(i, w);
      DivBelow(i, w, ROOM_SIZE);
      Put(Painted(g, data[..i], w), i / w, i % w, data[i])
  }

  /** Row-major placement: value i ends at [i / width][i % width]; no
      later value lands on the same cell. */
  lemma {:induction false} PaintedAt(g: Grid, data: seq<int>, w: nat, i: nat)
    requires IsGrid(g) && 1 <= w <= ROOM_SIZE && |data| <= ROOM_SIZE * w && i < |data|
    ensures i / w < ROOM_SIZE && i % w < ROOM_SIZE && Painted(g, data, w)[i / w][i % w] == data[i]
    decreases |data|
  {
    var n := |data| - 1;
    var before := Painted(g, data[..n], w);
    DivMod(n, w);
    DivMod(i, w);
    DivBelow(n, w, ROOM_SIZE);
    DivBelow(i, w, ROOM_SIZE);
    assert Painted(g, data, w) == Put(before, n / w, n % w, data[n]);
    if i < n {
      PaintedAt(g, data[..n], w, i);
      CellsDistinct(i, n, w);
      assert data[..n][i] == data[i];
    }
  }

  /** Every cell that no value reaches keeps what it held. */
  lemma {:induction false} PaintedKeeps(g: Grid, data: seq<int>, w: nat, r: nat, c: nat)
    requires IsGrid(g) && 1 <= w <= ROOM_SIZE && |data| <= ROOM_SIZE * w
    requires r < ROOM_SIZE && c < ROOM_SIZE && (c >= w || r * w + c >= |data|)
    ensures Painted(g, data, w)[r][c] == g[r][c]
    decreases |data|
  {
    if data != [] {
      var n := |data| - 1;
      var before := Painted(g, data[..n], w);
      PaintedKeeps(g, data[..n], w, r, c);
      DivMod(n, w);
      DivBelow(n, w, ROOM_SIZE);
      CellOf(r, c, n, w);
      assert Painted(g, data, w) == Put(before, n / w, n % w, data[n]);
    }
  }

  /** Distinct indices have distinct cells. */
  lemma CellsDistinct(i: nat, n: nat, w: nat)
    requires w > 0 && i != n
    ensures (i / w, i % w) != (n / w, n % w)
  {
    assert i == w * (i / w) + i % w;
    assert n == w * (n / w) + n % w;
  }

  /** The cell of index n is the cell (r, c) with c < w and r*w + c == n. */
  lemma CellOf(r: nat, c: nat, n: nat, w: nat)
    requires w > 0
    ensures (r, c) == (n / w, n % w) ==> c < w && r * w + c == n
  {
    assert n == w * (n / w) + n % w;
  }

  /** The inner loop of `importMap`: writes a layer's values into a room's
      tilemap, advancing x and wrapping to the next row at the width. */
  method WriteLayer(g: Grid, layer: Layer) returns (r: Grid)
    requires IsGrid(g) && Fits(layer)
    ensures r == Painted(g, layer.data, layer.width)
  {
    r := g;
    var x, y := 0, 0;
    var i := 0;
    while i < |layer.data|
      invariant 0 <= i <= |layer.data|
      invariant x == i % layer.width && y == i / layer.width
      invariant r == Painted(g, layer.data[..i], layer.width)
    {
      DivBelow(i, layer.width, ROOM_SIZE);
      r := Put(r, y, x, layer.data[i]);
      assert layer.data[..i + 1][..i] == layer.data[..i];
      DivModNext(i, layer.width);
      x := x + 1;
      if x >= layer.width {
        x := 0;
        y := y + 1;
      }
      i := i + 1;
    }
    assert layer.data[..i] == layer.data;
  }

  /** What layer `k` makes of the room at index `k`. */
  function LayerRoom(rooms: map<nat, Room>, k: nat, layer: Layer, palette: int): (room: Room)
    requires AllValid(rooms) && Fits(layer)
  {
    var base := Ensured(rooms, k, palette);
    base.(tilemap := Painted(base.tilemap, layer.data, layer.width))
  }

  predicate AllFit(layers: seq<Layer>)
  {
    forall k :: 0 <= k < |layers| ==> Fits(layers[k])
  }

  /** The rooms after the layers are imported one after the other. */
  function Imported(rooms: map<nat, Room>, layers: seq<Layer>, palette: int): (r: map<nat, Room>)
    requires AllValid(rooms) && AllFit(layers)
    ensures AllValid(r)
    decreases |layers|
  {
    if layers == [] then rooms
    else
      var k := |layers| - 1;
      var before := Imported(rooms, layers[..k], palette);
      before[k := LayerRoom(before, k, layers[k], palette)]
  }

  /** Layer k overwrites room k (created blank if it was missing, and given
      id k); rooms at indices past the last layer, present or not, are as
      they were. */
  lemma {:induction false} ImportedRooms(rooms: map<nat, Room>, layers: seq<Layer>, palette: int, k: nat)
    requires AllValid(rooms) && AllFit(layers)
    ensures k < |layers| ==> (k in Imported(rooms, layers, palette) &&
              Imported(rooms, layers, palette)[k] == LayerRoom(rooms, k, layers[k], palette))
    ensures k >= |layers| ==> ((k in Imported(rooms, layers, palette) <==> k in rooms) &&
              (k in rooms ==> Imported(rooms, layers, palette)[k] == rooms[k]))
    decreases |layers|
  {
    if layers != [] {
      var n := |layers| - 1;
      var before := Imported(rooms, layers[..n], palette);
      assert Imported(rooms, layers, palette) == before[n := LayerRoom(before, n, layers[n], palette)];
      if k == n {
        ImportedRooms(rooms, layers[..n], palette, n);
        assert Ensured(before, n, palette) == Ensured(rooms, n, palette);
      } else {
        ImportedRooms(rooms, layers[..n], palette, k);
        if k < n {
          assert layers[..n][k] == layers[k];
        }
      }
    }
  }

  /** One pass of the room loop of `importMap`: make sure room `room`
      exists and has id `room`, then write the layer into its tilemap. */
  method ImportLayer(data: Project, room: nat, layer: Layer)
    requires data.Valid() && Fits(layer)
    modifies data
    ensures data.Valid()
    ensures data.rooms == old(data.rooms)[room := LayerRoom(old(data.rooms), room, layer, data.paletteId)]
    ensures data.tiles == old(data.tiles) && data.colors == old(data.colors)
  {
    if room !in data.rooms {
      data.rooms := data.rooms[room := BlankRoom(room, data.paletteId)];
    }
    data.rooms := data.rooms[room := data.rooms[room].(id := room)];
    var roomdata := data.rooms[room];
    assert roomdata == Ensured(old(data.rooms), room, data.paletteId);
    var g := WriteLayer(roomdata.tilemap, layer);
    data.rooms := data.rooms[room := roomdata.(tilemap := g)];
  }

  /** The room loop of `importMap`: `room` counts the layers. */
  method ImportMap(data: Project, layers: seq<Layer>)
    requires data.Valid() && AllFit(layers)
    modifies data
    ensures data.Valid()
    ensures data.rooms == Imported(old(data.rooms), layers, data.paletteId)
    ensures data.tiles == old(data.tiles) && data.colors == old(data.colors)
  {
    var room := 0;
    while room < |layers|
      invariant 0 <= room <= |layers| && data.Valid()
      invariant data.rooms == Imported(old(data.rooms), layers[..room], data.paletteId)
      invariant data.tiles == old(data.tiles) && data.colors == old(data.colors)
    {
      ImportLayer(data, room, layers[room]);
      assert layers[..room + 1][..room] == layers[..room];
      room := room + 1;
    }
    assert layers[..room] == layers;
  }

  // ---------------------------------------------------------------------
  // Tileset animations

  /** One frame of a Tiled animation: a tile index and a duration. */
  datatype AnimFrame = AnimFrame(tileid: nat, duration: int)

  /** An entry of a Tiled tileset's `tiles`: the index of the tile it
      describes and its animation, when it has one. */
  datatype AnimTile = AnimTile(id: nat, animation: Option<seq<AnimFrame>>)

  /** `animation.map((x) => x.tileid)`: the tile indices, durations dropped. */
  function FrameIds(animation: seq<AnimFrame>): (r: seq<nat>)
    ensures |r| == |animation|
  {
    seq(|animation|, i requires 0 <= i < |animation| => animation[i].tileid)
  }

  /** The tiles after the entries are applied in order; an entry without an
      animation, or naming an index with no tile, stops the import with
      JavaScript's TypeError. */
  function Animated(tiles: seq<Tile>, entries: seq<AnimTile>): (r: Result<seq<Tile>>)
    ensures r.Ok? ==> |r.value| == |tiles|
    decreases |entries|
  {
    if entries == [] then Ok(tiles)
    else
      var n := |entries| - 1;
      match Animated(tiles, entries[..n])
      case Err(m) => Err(m)
      case Ok(t) => AnimStep(t, entries[n])
  }

  /** One entry of the import applied to the tiles as they stand. */
  function AnimStep(t: seq<Tile>, e: AnimTile): (r: Result<seq<Tile>>)
    ensures r.Ok? <==> e.animation.Some? && e.id < |t|
    ensures r.Ok? ==> |r.value| == |t| && r.value[e.id].frames == FrameIds(e.animation.value)
    ensures r.Ok? ==> forall i :: 0 <= i < |t| && i != e.id ==> r.value[i] == t[i]
  {
    if e.animation.None? then Err("Cannot read properties of undefined (reading 'map')")
    else if e.id >= |t| then Err("Cannot set properties of undefined (setting 'frames')")
    else Ok(t[e.id := t[e.id].(frames := FrameIds(e.animation.value))])
  }

  /** Unfolding the import by its last entry. */
  lemma AnimatedSnoc(tiles: seq<Tile>, entries: seq<AnimTile>, j: nat)
    requires j < |entries|
    ensures Animated(tiles, entries[..j]).Err? ==> Animated(tiles, entries[..j + 1]).Err?
    ensures Animated(tiles, entries[..j]).Ok? ==>
              Animated(tiles, entries[..j + 1]) == AnimStep(Animated(tiles, entries[..j]).value, entries[j])
  {
    assert entries[..j + 1][..j] == entries[..j];
  }

  /** The animation of the last entry naming tile index `p`, if any. */
  function LastFor(entries: seq<AnimTile>, p: nat): Option<seq<AnimFrame>>
    decreases |entries|
  {
    if entries == [] then None
    else if entries[|entries| - 1].id == p then entries[|entries| - 1].animation
    else LastFor(entries[..|entries| - 1], p)
  }

  predicate Importable(tiles: seq<Tile>, entries: seq<AnimTile>)
  {
    forall j :: 0 <= j < |entries| ==> entries[j].animation.Some? && entries[j].id < |tiles|
  }

  /** The animation import succeeds exactly when every entry has an
      animation and names an existing tile; then each named tile's frames
      are the tile indices of its last entry, in order, and everything
      else is as it was. */
  lemma {:induction false} AnimatedRule(tiles: seq<Tile>, entries: seq<AnimTile>)
    ensures Animated(tiles, entries).Ok? <==> Importable(tiles, entries)
    ensures Animated(tiles, entries).Ok? ==>
              forall p :: 0 <= p < |tiles| ==>
                Animated(tiles, entries).value[p].id == tiles[p].id &&
                Animated(tiles, entries).value[p].frames ==
                  (match LastFor(entries, p) case Some(a) => FrameIds(a) case None => tiles[p].frames)
    decreases |entries|
  {
    if entries != [] {
      var n := |entries| - 1;
      AnimatedRule(tiles, entries[..n]);
      assert Importable(tiles, entries) ==> Importable(tiles, entries[..n]) by {
        forall j | 0 <= j < n ensures entries[..n][j] == entries[j] { }
      }
      assert !Importable(tiles, entries[..n]) ==> !Importable(tiles, entries) by {
        if !Importable(tiles, entries[..n]) {
          var j :| 0 <= j < n && !(entries[..n][j].animation.Some? && entries[..n][j].id < |tiles|);
          assert entries[j] == entries[..n][j];
        }
      }
    }
  }

  /** `importAnimTileset` after the file is read: the entries are applied
      in order; the result says whether the import ran to the end.  When it
      stops, the tiles keep the frames set by every entry before the one
      that failed. */
  method ImportAnimTileset(data: Project, entries: seq<AnimTile>) returns (ok: bool)
    modifies data
    ensures ok == Animated(old(data.tiles), entries).Ok?
    ensures ok ==> data.tiles == Animated(old(data.tiles), entries).value
    ensures !ok ==> exists j :: 0 <= j < |entries| && Animated(old(data.tiles), entries[..j]) == Ok(data.tiles) &&
                                 Animated(old(data.tiles), entries[..j + 1]).Err?
    ensures data.rooms == old(data.rooms) && data.colors == old(data.colors)
  {
    var j := 0;
    while j < |entries|
      invariant 0 <= j <= |entries|
      invariant Animated(old(data.tiles), entries[..j]) == Ok(data.tiles)
      invariant data.rooms == old(data.rooms) && data.colors == old(data.colors)
    {
      var e := entries[j];
      AnimatedSnoc(old(data.tiles), entries, j);
      if e.animation.None? || e.id >= |data.tiles| {
        AnimatedStops(old(data.tiles), entries, j + 1);
        assert Animated(old(data.tiles), entries[..j + 1]).Err?;
        return false;
      }
      data.tiles := data.tiles[e.id := data.tiles[e.id].(frames := FrameIds(e.animation.value))];
      j := j + 1;
    }
    assert entries[..j] == entries;
    return true;
  }

  /** Once an entry fails, the whole import fails. */
  lemma {:induction false} AnimatedStops(tiles: seq<Tile>, entries: seq<AnimTile>, j: nat)
    requires j <= |entries| && Animated(tiles, entries[..j]).Err?
    ensures Animated(tiles, entries).Err?
    decreases |entries| - j
  {
    if j < |entries| {
      assert entries[..j + 1][..j] == entries[..j];
      AnimatedStops(tiles, entries, j + 1);
    } else {
      assert entries[..j] == entries;
    }
  }
}
