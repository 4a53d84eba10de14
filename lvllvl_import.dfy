/** The lvllvl importer (src/plugin-import-lvllvl.js): the colours of a
    lvllvl image become palette entries 1 to 7 as `#rrggbb` text, and the
    frames of its first layer become rooms, a long frame being split into
    a new room every ROOM_SIZE lines.  Its tileset import is the one in
    module Importing. */
module LvllvlImport {
  import opened Host
  import opened Importing

  // ---------------------------------------------------------------------
  // Colours

  const U32: nat := 0x1_0000_0000

  /** `U32ColorToRGBA`: the value as `Uint32Array` stores it (modulo 2^32),
      read back as its four bytes in memory order, lowest byte first. */
  function U32ColorToRGBA(n: int): (bytes: seq<nat>)
    ensures |bytes| == 4 && forall i :: 0 <= i < 4 ==> bytes[i] < 256
  {
    var u := n % U32;
    var q1 := u / 256;
    var q2 := q1 / 256;
    var q3 := q2 / 256;
    [u % 256, q1 % 256, q2 % 256, q3 % 256]
  }

  /** The four bytes put back together give the 32-bit value. */
  lemma BytesRoundTrip(n: int)
    ensures var b := U32ColorToRGBA(n);
            b[0] + 256 * b[1] + 65536 * b[2] + 16777216 * b[3] == n % U32
  {
    var u := n % U32;
    var q1 := u / 256;
    var q2 := q1 / 256;
    var q3 := q2 / 256;
    DivMod(u, 256);
    DivMod(q1, 256);
    DivMod(q2, 256);
    DivBelow(u, 256, 16777216);
    DivBelow(q1, 256, 65536);
    DivBelow(q2, 256, 256);
    ModUnique(q3, 256, 0, q3);
  }

  const HEX_DIGITS: string := "0123456789abcdef"

  function HexDigit(d: nat): char
    requires d < 16
  {
    HEX_DIGITS[d]
  }

  predicate IsHexDigit(c: char)
  {
    '0' <= c <= '9' || 'a' <= c <= 'f'
  }

  function HexDigitValue(c: char): nat
  {
    if '0' <= c <= '9' then c as nat - '0' as nat
    else if 'a' <= c <= 'f' then c as nat - 'a' as nat + 10
    else 0
  }

  /** The value of a string of hexadecimal digits, most significant first. */
  function HexValue(s: string): nat
  {
    if s == [] then 0 else HexValue(s[..|s| - 1]) * 16 + HexDigitValue(s[|s| - 1])
  }

  function Pow16(k: nat): (p: nat)
    ensures p >= 1
  {
    if k == 0 then 1 else 16 * Pow16(k - 1)
  }

  /** `n.toString(16)`: lower-case digits, no leading zeros. */
  function NatToHex(n: nat): string
  {
    if n < 16 then [HexDigit(n)] else NatToHex(n / 16) + [HexDigit(n % 16)]
  }

  /** The last k hexadecimal digits of n, with leading zeros. */
  function FixedHex(n: nat, k: nat): (s: string)
    ensures |s| == k
  {
    if k == 0 then [] else FixedHex(n / 16, k - 1) + [HexDigit(n % 16)]
  }

  function ZeroDigits(k: nat): (s: string)
    ensures |s| == k
  {
    if k == 0 then [] else ZeroDigits(k - 1) + ['0']
  }

  /** `("000000" + n.toString(16)).slice(-6)`, for k digits. */
  function PadHex(n: nat, k: nat): string
  {
    var s := ZeroDigits(k) + NatToHex(n);
    s[|s| - k..]
  }

  /** The colour text the importer stores for a packed lvllvl colour. */
  function ColorText(color: int): string
  {
    var bytes := U32ColorToRGBA(color);
    var b, g, r := bytes[0], bytes[1], bytes[2];
    "#" + PadHex(r * 256 * 256 + g * 256 + b, 6)
  }

  lemma HexDigitRoundTrip(d: nat)
    requires d < 16
    ensures IsHexDigit(HexDigit(d)) && HexDigitValue(HexDigit(d)) == d
  {
    var digits := HEX_DIGITS;
    assert digits[d] == HexDigit(d);
  }

  /** Fixed-width digits read back as the value modulo 16^k. */
  lemma {:induction false} HexValueFixed(n: nat, k: nat)
    ensures HexValue(FixedHex(n, k)) == n % Pow16(k)
    ensures forall i :: 0 <= i < k ==> IsHexDigit(FixedHex(n, k)[i])
  {
    if k > 0 {
      var s := FixedHex(n, k);
      assert s[..k - 1] == FixedHex(n / 16, k - 1);
      HexValueFixed(n / 16, k - 1);
      HexDigitRoundTrip(n % 16);
      ModPow(n, Pow16(k - 1));
    }
  }

  /** The remainder modulo 16p, from the remainders modulo 16 and p. */
  lemma ModPow(n: nat, p: nat)
    requires p >= 1
    ensures n % (16 * p) == 16 * (n / 16 % p) + n % 16
  {
    DivMod(n, 16);
    DivMod(n / 16, p);
    var q, r := n / 16 / p, n / 16 % p;
    assert n / 16 == p * q + r;
    assert n == 16 * (p * q) + 16 * r + n % 16;
    assert 16 * (p * q) == (16 * p) * q;
    MulStep(16, p, r);
    ModUnique(n, 16 * p, q, 16 * r + n % 16);
  }

  /** Padding and keeping the last k characters gives the k-digit form of
      every value that has at most k digits. */
  lemma {:induction false} PadHexFixed(n: nat, k: nat)
    requires 1 <= k && n < Pow16(k)
    ensures PadHex(n, k) == FixedHex(n, k)
    decreases n
  {
    if n < 16 {
      PadHexSmall(n, k);
    } else {
      HexShift(n, k);
      PadHexFixed(n / 16, k - 1);
      PadHexLength(n / 16, k - 1);
      PadHexStep(n, k);
    }
  }

  /** A one-digit value, padded to k digits. */
  lemma PadHexSmall(n: nat, k: nat)
    requires n < 16 && 1 <= k
    ensures PadHex(n, k) == FixedHex(n, k)
  {
    ZerosFront(k - 1);
    FixedHexSmall(n, k);
    LastSnoc(ZeroDigits(k), HexDigit(n), k - 1);
    LastOfPrefix(['0'], ZeroDigits(k - 1), k - 1);
  }

  /** k digits of n are the k - 1 digits of n / 16 and then its last digit. */
  lemma PadHexStep(n: nat, k: nat)
    requires 16 <= n && 2 <= k && |NatToHex(n / 16)| <= k - 1
    requires PadHex(n / 16, k - 1) == FixedHex(n / 16, k - 1)
    ensures PadHex(n, k) == FixedHex(n, k)
  {
    var d := HexDigit(n % 16);
    var h := NatToHex(n / 16);
    ZerosFront(k - 1);
    assert ZeroDigits(k) + NatToHex(n) == (ZeroDigits(k) + h) + [d];
    LastSnoc(ZeroDigits(k) + h, d, k - 1);
    assert ZeroDigits(k) + h == ['0'] + (ZeroDigits(k - 1) + h);
    LastOfPrefix(['0'], ZeroDigits(k - 1) + h, k - 1);
  }

  /** A zero in front of k zeros is k + 1 zeros. */
  lemma {:induction false} ZerosFront(k: nat)
    ensures ZeroDigits(k + 1) == ['0'] + ZeroDigits(k)
  {
    if k > 0 {
      ZerosFront(k - 1);
    }
  }

  /** The last m + 1 characters of u + [d]. */
  lemma LastSnoc(u: string, d: char, m: nat)
    requires m <= |u|
    ensures var s := u + [d]; s[|s| - (m + 1)..] == u[|u| - m..] + [d]
  {
  }

  /** What comes in front does not change the last m characters. */
  lemma LastOfPrefix(a: string, t: string, m: nat)
    requires m <= |t|
    ensures var s := a + t; s[|s| - m..] == t[|t| - m..]
  {
  }

  /** A one-digit value has k-1 leading zeros. */
  lemma {:induction false} FixedHexSmall(n: nat, k: nat)
    requires n < 16 && k >= 1
    ensures FixedHex(n, k) == ZeroDigits(k - 1) + [HexDigit(n)]
  {
    FixedHexZero(k - 1);
  }

  lemma {:induction false} FixedHexZero(k: nat)
    ensures FixedHex(0, k) == ZeroDigits(k)
  {
    if k > 0 {
      FixedHexZero(k - 1);
    }
  }

  /** A value below 16^k has at most k digits. */
  lemma {:induction false} PadHexLength(n: nat, k: nat)
    requires 1 <= k && n < Pow16(k)
    ensures |NatToHex(n)| <= k
    decreases n
  {
    if n >= 16 {
      HexShift(n, k);
      PadHexLength(n / 16, k - 1);
    }
  }

  /** A value of two or more digits, below 16^k, has at most k - 1 digits
      once its last digit is dropped. */
  lemma HexShift(n: nat, k: nat)
    requires 16 <= n < Pow16(k) && 1 <= k
    ensures 2 <= k && n / 16 < Pow16(k - 1)
  {
    assert Pow16(1) == 16;
    DivMod(n, 16);
    MulStep(16, n / 16, Pow16(k - 1) - 1);
  }

  /** Splitting off the last two digits. */
  lemma FixedHexSplit(n: nat, k: nat)
    ensures FixedHex(n, k + 2) == FixedHex(n / 256, k) + FixedHex(n % 256, 2)
  {
    var a := n / 16;
    var b := a / 16;
    DivMod(n, 16);
    DivMod(a, 16);
    ModUnique(n, 256, b, 16 * (a % 16) + n % 16);
    ModUnique(n % 256, 16, a % 16, n % 16);
    ModUnique(a % 16, 16, 0, a % 16);
    assert FixedHex(n % 256, 2) == [HexDigit(a % 16), HexDigit(n % 16)];
  }

  /** The colour text is CSS hex notation `#rrggbb`: '#' and three pairs of
      lower-case digits whose values are bytes 2, 1 and 0 of the packed
      colour (red, green, blue); the fourth byte is dropped. */
  lemma ColorTextChannels(color: int)
    ensures var t, bytes := ColorText(color), U32ColorToRGBA(color);
            |t| == 7 && t[0] == '#' && (forall i :: 1 <= i < 7 ==> IsHexDigit(t[i])) &&
            HexValue(t[1..3]) == bytes[2] && HexValue(t[3..5]) == bytes[1] && HexValue(t[5..7]) == bytes[0]
  {
    var bytes := U32ColorToRGBA(color);
    var b, g, r := bytes[0], bytes[1], bytes[2];
    ColorDigits(r, g, b);
    HexValueFixed(r, 2);
    HexValueFixed(g, 2);
    HexValueFixed(b, 2);
    var x, y, z := FixedHex(r, 2), FixedHex(g, 2), FixedHex(b, 2);
    Pairs(x, y, z);
    var t := ColorText(color);
    assert t == "#" + x + y + z;
    assert Pow16(2) == 256;
    ModUnique(r, 256, 0, r);
    ModUnique(g, 256, 0, g);
    ModUnique(b, 256, 0, b);
  }

  /** '#' and three pairs of digits, read back pair by pair. */
  lemma Pairs(x: string, y: string, z: string)
    requires |x| == 2 && |y| == 2 && |z| == 2
    requires forall i :: 0 <= i < 2 ==> IsHexDigit(x[i]) && IsHexDigit(y[i]) && IsHexDigit(z[i])
    ensures var t := "#" + x + y + z;
            |t| == 7 && t[0] == '#' && (forall i :: 1 <= i < 7 ==> IsHexDigit(t[i])) &&
            t[1..3] == x && t[3..5] == y && t[5..7] == z
  {
    var t := "#" + x + y + z;
    assert forall i :: 1 <= i < 3 ==> t[i] == x[i - 1];
    assert forall i :: 3 <= i < 5 ==> t[i] == y[i - 3];
    assert forall i :: 5 <= i < 7 ==> t[i] == z[i - 5];
  }

  /** Six padded digits of r*65536 + g*256 + b are two digits per byte. */
  lemma ColorDigits(r: nat, g: nat, b: nat)
    requires r < 256 && g < 256 && b < 256
    ensures PadHex(r * 256 * 256 + g * 256 + b, 6) == FixedHex(r, 2) + FixedHex(g, 2) + FixedHex(b, 2)
  {
    var v := r * 256 * 256 + g * 256 + b;
    assert v < Pow16(6);
    PadHexFixed(v, 6);
    var hi := r * 256 + g;
    ModUnique(v, 256, hi, b);
    ModUnique(hi, 256, r, g);
    FixedHexSplit(v, 4);
    FixedHexSplit(hi, 2);
    assert FixedHex(v, 6) == FixedHex(hi, 4) + FixedHex(b, 2);
    assert FixedHex(hi, 4) == FixedHex(r, 2) + FixedHex(g, 2);
  }

  /** The palette after the colour loop: entries 1 to min(7, n) hold the
      colour texts in order; entry 0 (transparent) and the rest are as
      they were. */
  function PaletteAfter(colors: seq<string>, packed: seq<int>): (r: seq<string>)
    requires |colors| == 8
  {
    seq(8, j requires 0 <= j < 8 => if 1 <= j <= |packed| then ColorText(packed[j - 1]) else colors[j])
  }

  /** The colour loop of `importMap`: `i` starts at 1 and the loop stops
      once it passes 7. */
  method ImportColors(data: Project, packed: seq<int>)
    requires |data.colors| == 8
    modifies data
    ensures data.colors == PaletteAfter(old(data.colors), packed)
    ensures data.rooms == old(data.rooms) && data.tiles == old(data.tiles)
  {
    var i := 1;
    var k := 0;
    while k < |packed|
      invariant 0 <= k <= |packed| && k <= 7 && i == k + 1 && |data.colors| == 8
      invariant data.colors == PaletteAfter(old(data.colors), packed[..k])
      invariant data.rooms == old(data.rooms) && data.tiles == old(data.tiles)
    {
      var colhex := ColorText(packed[k]);
      data.colors := data.colors[i := colhex];
      PaletteStep(old(data.colors), packed, k);
      i := i + 1;
      k := k + 1;
      if i > 7 {
        PaletteCap(old(data.colors), packed);
        break;
      }
    }
    if k == |packed| {
      assert packed[..k] == packed;
    }
  }

  /** One more colour written. */
  lemma PaletteStep(colors: seq<string>, packed: seq<int>, k: nat)
    requires |colors| == 8 && k < |packed| && k < 7
    ensures PaletteAfter(colors, packed[..k + 1]) == PaletteAfter(colors, packed[..k])[k + 1 := ColorText(packed[k])]
  {
    var a, b := PaletteAfter(colors, packed[..k + 1]), PaletteAfter(colors, packed[..k])[k + 1 := ColorText(packed[k])];
    forall j | 0 <= j < 8
      ensures a[j] == b[j]
    {
      if 1 <= j <= k {
        assert packed[..k + 1][j - 1] == packed[..k][j - 1];
      }
    }
  }

  /** Colours past the seventh are never read. */
  lemma PaletteCap(colors: seq<string>, packed: seq<int>)
    requires |colors| == 8 && |packed| >= 7
    ensures PaletteAfter(colors, packed[..7]) == PaletteAfter(colors, packed)
  {
    var a, b := PaletteAfter(colors, packed[..7]), PaletteAfter(colors, packed);
    forall j | 0 <= j < 8
      ensures a[j] == b[j]
    {
      if 1 <= j <= 7 {
        assert packed[..7][j - 1] == packed[j - 1];
      }
    }
  }

  /** Entry 0 is never written, and at most seven entries change. */
  lemma PaletteAfterKeeps(colors: seq<string>, packed: seq<int>)
    requires |colors| == 8
    ensures PaletteAfter(colors, packed)[0] == colors[0]
    ensures forall j :: |packed| < j < 8 ==> PaletteAfter(colors, packed)[j] == colors[j]
    ensures forall j :: 1 <= j < 8 && j <= |packed| ==>
              PaletteAfter(colors, packed)[j] == ColorText(packed[j - 1])
  {
  }

  // ---------------------------------------------------------------------
  // Rooms

  /** A character cell of a lvllvl frame: tile, foreground colour and
      background colour, all counted from 0. */
  datatype Cell = Cell(t: int, fc: int, bc: int)

  /** A line of a frame has at most a room's width of cells. */
  type Line = l: seq<Cell> | |l| <= ROOM_SIZE

  /** Where the importer is: the rooms so far, the room counter and the
      row within the room. */
  datatype Cursor = Cursor(rooms: map<nat, Room>, room: nat, y: nat)

  predicate Good(c: Cursor)
  {
    AllValid(c.rooms) && c.y < ROOM_SIZE
  }

  function TileValues(line: seq<Cell>): (v: seq<int>)
    ensures |v| == |line|
  {
    seq(|line|, x requires 0 <= x < |line| => line[x].t + 1)
  }

  function ForeValues(line: seq<Cell>): (v: seq<int>)
    ensures |v| == |line|
  {
    seq(|line|, x requires 0 <= x < |line| => line[x].fc + 1)
  }

  function BackValues(line: seq<Cell>): (v: seq<int>)
    ensures |v| == |line|
  {
    seq(|line|, x requires 0 <= x < |line| => line[x].bc + 1)
  }

  /** Row y of a grid with its first |values| entries replaced. */
  function SetRow(g: Grid, y: nat, values: seq<int>): (r: Grid)
    requires IsGrid(g) && y < ROOM_SIZE && |values| <= ROOM_SIZE
    ensures IsGrid(r)
  {
    g[y := seq(ROOM_SIZE, x requires 0 <= x < ROOM_SIZE => if x < |values| then values[x] else g[y][x])]
  }

  /** The room after the line is written into row y of its three maps. */
  function RowsWritten(room: Room, y: nat, ts: seq<int>, fs: seq<int>, bs: seq<int>): (r: Room)
    requires ValidRoom(room) && y < ROOM_SIZE && |ts| <= ROOM_SIZE && |fs| <= ROOM_SIZE && |bs| <= ROOM_SIZE
    ensures ValidRoom(r)
  {
    room.(tilemap := SetRow(room.tilemap, y, ts), foremap := SetRow(room.foremap, y, fs),
          backmap := SetRow(room.backmap, y, bs))
  }

  function LineWritten(room: Room, y: nat, line: seq<Cell>): (r: Room)
    requires ValidRoom(room) && y < ROOM_SIZE && |line| <= ROOM_SIZE
    ensures ValidRoom(r)
  {
    RowsWritten(room, y, TileValues(line), ForeValues(line), BackValues(line))
  }

  /** Each cell of the line stores t+1, fc+1 and bc+1 at its column of row
      y; the id, the palette, the rest of that row and every other row are
      as they were. */
  lemma LineCells(room: Room, y: nat, line: seq<Cell>, row: nat, x: nat)
    requires ValidRoom(room) && y < ROOM_SIZE && |line| <= ROOM_SIZE && row < ROOM_SIZE && x < ROOM_SIZE
    ensures var r := LineWritten(room, y, line);
            r.id == room.id && r.palette == room.palette &&
            (row == y && x < |line| ==>
               r.tilemap[row][x] == line[x].t + 1 && r.foremap[row][x] == line[x].fc + 1 &&
               r.backmap[row][x] == line[x].bc + 1) &&
            (row != y || x >= |line| ==>
               r.tilemap[row][x] == room.tilemap[row][x] && r.foremap[row][x] == room.foremap[row][x] &&
               r.backmap[row][x] == room.backmap[row][x])
  {
  }

  /** One more cell of the row written. */
  lemma SetRowStep(g: Grid, y: nat, values: seq<int>, x: nat)
    requires IsGrid(g) && y < ROOM_SIZE && |values| <= ROOM_SIZE && x < |values|
    ensures SetRow(g, y, values[..x + 1]) == Put(SetRow(g, y, values[..x]), y, x, values[x])
  {
    var a, b := SetRow(g, y, values[..x + 1]), Put(SetRow(g, y, values[..x]), y, x, values[x]);
    assert a[y] == b[y];
  }

  lemma SetRowEmpty(g: Grid, y: nat)
    requires IsGrid(g) && y < ROOM_SIZE
    ensures SetRow(g, y, []) == g
  {
    assert SetRow(g, y, [])[y] == g[y];
  }

  /** The cell loop of `importMap`: the three writes for each cell. */
  method WriteLine(room: Room, y: nat, line: seq<Cell>) returns (r: Room)
    requires ValidRoom(room) && y < ROOM_SIZE && |line| <= ROOM_SIZE
    ensures r == LineWritten(room, y, line)
  {
    r := room;
    var x := 0;
    ghost var ts, fs, bs := TileValues(line), ForeValues(line), BackValues(line);
    assert ts[..0] == fs[..0] == bs[..0] == [];
    assert r == RowsWritten(room, y, ts[..0], fs[..0], bs[..0]) by {
      SetRowEmpty(room.tilemap, y);
      SetRowEmpty(room.foremap, y);
      SetRowEmpty(room.backmap, y);
    }
    while x < |line|
      invariant 0 <= x <= |line|
      invariant r == RowsWritten(room, y, ts[..x], fs[..x], bs[..x])
    {
      var tile := line[x];
      SetRowStep(room.tilemap, y, ts, x);
      SetRowStep(room.foremap, y, fs, x);
      SetRowStep(room.backmap, y, bs, x);
      r := r.(tilemap := Put(r.tilemap, y, x, tile.t + 1));
      r := r.(foremap := Put(r.foremap, y, x, tile.fc + 1));
      r := r.(backmap := Put(r.backmap, y, x, tile.bc + 1));
      x := x + 1;
    }
    assert ts[..x] == ts && fs[..x] == fs && bs[..x] == bs;
  }

  /** The start of a frame: the room under the counter is created if it
      is missing and given its index as id, and y goes back to 0. */
  function FrameStart(c: Cursor, palette: int): (d: Cursor)
    requires AllValid(c.rooms)
    ensures Good(d) && d.room == c.room && d.y == 0
    ensures d.room in d.rooms && d.rooms[d.room].id == d.room
  {
    Cursor(c.rooms[c.room := Ensured(c.rooms, c.room, palette)], c.room, 0)
  }

  /** One line of a frame.  As written (`fixed` false), a line that
      reaches past the end of a room moves to the next room index without
      creating it, so a non-empty line there fails with JavaScript's
      TypeError when no room has that index.  Corrected (`fixed` true),
      the room is created and given its id before its first line. */
  function LineStep(c: Cursor, line: Line, palette: int, fixed: bool): (r: Result<Cursor>)
    requires Good(c)
    ensures r.Ok? ==> Good(r.value)
  {
    var rooms := if fixed && c.y == 0 then c.rooms[c.room := Ensured(c.rooms, c.room, palette)] else c.rooms;
    if |line| > 0 && c.room !in rooms then
      Err("Cannot read properties of undefined (reading 'tilemap')")
    else
      var written := if |line| > 0 then rooms[c.room := LineWritten(rooms[c.room], c.y, line)] else rooms;
      if c.y + 1 >= ROOM_SIZE then Ok(Cursor(written, c.room + 1, 0)) else Ok(Cursor(written, c.room, c.y + 1))
  }

  /** The lines of a frame, one after the other. */
  function LinesAfter(c: Cursor, lines: seq<Line>, palette: int, fixed: bool): (r: Result<Cursor>)
    requires Good(c)
    ensures r.Ok? ==> Good(r.value)
    decreases |lines|
  {
    if lines == [] then Ok(c)
    else
      var n := |lines| - 1;
      match LinesAfter(c, lines[..n], palette, fixed)
      case Err(m) => Err(m)
      case Ok(d) => LineStep(d, lines[n], palette, fixed)
  }

  /** The frames, one after the other; the room counter carries over from
      one frame to the next. */
  function FramesAfter(c: Cursor, frames: seq<seq<Line>>, palette: int, fixed: bool): (r: Result<Cursor>)
    requires Good(c)
    ensures r.Ok? ==> Good(r.value)
    decreases |frames|
  {
    if frames == [] then Ok(c)
    else
      var n := |frames| - 1;
      match FramesAfter(c, frames[..n], palette, fixed)
      case Err(m) => Err(m)
      case Ok(d) => LinesAfter(FrameStart(d, palette), frames[n], palette, fixed)
  }

  /** The room loop of `importMap` as written: the counter starts at 0. */
  function ImportedAsWritten(rooms: map<nat, Room>, frames: seq<seq<Line>>, palette: int): Result<Cursor>
    requires AllValid(rooms)
  {
    FramesAfter(Cursor(rooms, 0, 0), frames, palette, false)
  }

  /** The room loop with every room created and given its id before its
      first line. */
  function Imported(rooms: map<nat, Room>, frames: seq<seq<Line>>, palette: int): Result<Cursor>
    requires AllValid(rooms)
  {
    FramesAfter(Cursor(rooms, 0, 0), frames, palette, true)
  }

  /** Within a frame, line j goes to row j % ROOM_SIZE of the room
      j / ROOM_SIZE past the frame's first: after n lines the counter has
      advanced n / ROOM_SIZE rooms and y is n % ROOM_SIZE.  As written
      this holds for frames of at most one room's height, and the set of
      room indices does not change; corrected it holds for every frame. */
  lemma {:induction false} LinesCursor(c: Cursor, lines: seq<Line>, palette: int, fixed: bool)
    requires Good(c) && c.y == 0 && c.room in c.rooms
    requires fixed || |lines| <= ROOM_SIZE
    ensures LinesAfter(c, lines, palette, fixed).Ok?
    ensures var d := LinesAfter(c, lines, palette, fixed).value;
            d.room == c.room + |lines| / ROOM_SIZE && d.y == |lines| % ROOM_SIZE &&
            (d.y > 0 ==> d.room in d.rooms) &&
            (!fixed ==> d.rooms.Keys == c.rooms.Keys)
    decreases |lines|
  {
    if lines != [] {
      var n := |lines| - 1;
      LinesCursor(c, lines[..n], palette, fixed);
      DivModNext(n, ROOM_SIZE);
      if !fixed {
        ModUnique(n, ROOM_SIZE, 0, n);
      }
      var d := LinesAfter(c, lines[..n], palette, fixed).value;
      LineStepCursor(d, lines[n], palette, fixed);
    }
  }

  /** One line moves the cursor down a row, or to the next room after the
      last row; the room it leaves the cursor in exists unless it is at a
      room's first row, and as written no room is created. */
  lemma LineStepCursor(d: Cursor, line: Line, palette: int, fixed: bool)
    requires Good(d)
    requires d.room in d.rooms || (fixed && d.y == 0)
    ensures LineStep(d, line, palette, fixed).Ok?
    ensures var e := LineStep(d, line, palette, fixed).value;
            e.room == d.room + (if d.y + 1 == ROOM_SIZE then 1 else 0) &&
            e.y == (if d.y + 1 == ROOM_SIZE then 0 else d.y + 1) &&
            (e.y > 0 ==> e.room in e.rooms) &&
            (!fixed ==> e.rooms.Keys == d.rooms.Keys)
  {
  }

  /** Once a line fails, the frame fails. */
  lemma {:induction false} LinesStop(c: Cursor, lines: seq<Line>, palette: int, fixed: bool, j: nat)
    requires Good(c) && j <= |lines|
    requires LinesAfter(c, lines[..j], palette, fixed).Err?
    ensures LinesAfter(c, lines, palette, fixed).Err?
    decreases |lines| - j
  {
    if j < |lines| {
      LinesSnoc(c, lines, j, palette, fixed);
      LinesStop(c, lines, palette, fixed, j + 1);
    } else {
      assert lines[..j] == lines;
    }
  }

  /** Rooms at or below the counter carry their index as id. */
  predicate Indexed(c: Cursor)
  {
    (forall k: nat :: k < c.room ==> k in c.rooms && c.rooms[k].id == k) &&
    (c.y > 0 ==> c.room in c.rooms && c.rooms[c.room].id == c.room)
  }

  /** The corrected line step never fails and keeps every room up to the
      counter indexed. */
  lemma LineStepIndexed(c: Cursor, line: Line, palette: int)
    requires Good(c) && Indexed(c)
    ensures LineStep(c, line, palette, true).Ok?
    ensures Indexed(LineStep(c, line, palette, true).value)
  {
  }

  /** The corrected lines of a frame never fail and keep the rooms indexed. */
  lemma {:induction false} LinesIndexed(c: Cursor, lines: seq<Line>, palette: int)
    requires Good(c) && Indexed(c)
    ensures LinesAfter(c, lines, palette, true).Ok?
    ensures Indexed(LinesAfter(c, lines, palette, true).value)
    decreases |lines|
  {
    if lines != [] {
      var n := |lines| - 1;
      LinesIndexed(c, lines[..n], palette);
      LineStepIndexed(LinesAfter(c, lines[..n], palette, true).value, lines[n], palette);
    }
  }

  /** The corrected import never fails, and afterwards every room up to
      the last one written has its index as id, as the importer intends
      ("room id = index"). */
  lemma {:induction false} ImportedIndexed(rooms: map<nat, Room>, frames: seq<seq<Line>>, palette: int)
    requires AllValid(rooms)
    ensures Imported(rooms, frames, palette).Ok?
    ensures Indexed(Imported(rooms, frames, palette).value)
  {
    FramesIndexed(Cursor(rooms, 0, 0), frames, palette);
  }

  lemma {:induction false} FramesIndexed(c: Cursor, frames: seq<seq<Line>>, palette: int)
    requires Good(c) && Indexed(c)
    ensures FramesAfter(c, frames, palette, true).Ok?
    ensures Indexed(FramesAfter(c, frames, palette, true).value)
    decreases |frames|
  {
    if frames != [] {
      var n := |frames| - 1;
      FramesIndexed(c, frames[..n], palette);
      var d := FramesAfter(c, frames[..n], palette, true).value;
      LinesIndexed(FrameStart(d, palette), frames[n], palette);
    }
  }

  /** For frames of at most ROOM_SIZE lines (each frame one room) the code
      as written and the corrected loop agree. */
  lemma {:induction false} AsWrittenAgrees(rooms: map<nat, Room>, frames: seq<seq<Line>>, palette: int)
    requires AllValid(rooms)
    requires forall f :: 0 <= f < |frames| ==> |frames[f]| <= ROOM_SIZE
    ensures ImportedAsWritten(rooms, frames, palette) == Imported(rooms, frames, palette)
  {
    FramesAgree(Cursor(rooms, 0, 0), frames, palette);
  }

  lemma {:induction false} FramesAgree(c: Cursor, frames: seq<seq<Line>>, palette: int)
    requires Good(c)
    requires forall f :: 0 <= f < |frames| ==> |frames[f]| <= ROOM_SIZE
    ensures FramesAfter(c, frames, palette, false) == FramesAfter(c, frames, palette, true)
    decreases |frames|
  {
    if frames != [] {
      var n := |frames| - 1;
      FramesAgree(c, frames[..n], palette);
      var r := FramesAfter(c, frames[..n], palette, false);
      if r.Ok? {
        LinesAgree(FrameStart(r.value, palette), frames[n], palette);
      }
    }
  }

  /** Within one frame of at most ROOM_SIZE lines, y is 0 only at the
      frame's first line, whose room the frame start has already made. */
  lemma {:induction false} LinesAgree(c: Cursor, lines: seq<Line>, palette: int)
    requires Good(c) && |lines| <= ROOM_SIZE
    requires c.y == 0 && c.room in c.rooms && c.rooms[c.room].id == c.room
    ensures LinesAfter(c, lines, palette, false) == LinesAfter(c, lines, palette, true)
    decreases |lines|
  {
    if lines != [] {
      var n := |lines| - 1;
      LinesAgree(c, lines[..n], palette);
      LinesCursor(c, lines[..n], palette, false);
      var d := LinesAfter(c, lines[..n], palette, false).value;
      ModUnique(n, ROOM_SIZE, 0, n);
      if n == 0 {
        assert d == c;
      }
      LineStepAgree(d, lines[n], palette);
    }
  }

  /** Away from a room's first row, or where that room is already there
      with its own index as id, both versions take the same step. */
  lemma LineStepAgree(d: Cursor, line: Line, palette: int)
    requires Good(d)
    requires d.y > 0 || (d.room in d.rooms && d.rooms[d.room].id == d.room)
    ensures LineStep(d, line, palette, false) == LineStep(d, line, palette, true)
  {
    if d.y == 0 {
      assert Ensured(d.rooms, d.room, palette) == d.rooms[d.room];
      assert d.rooms[d.room := d.rooms[d.room]] == d.rooms;
    }
  }

  /** The finding: importing a frame taller than a room into a project
      with no room at index 1 fails as written when line ROOM_SIZE (the
      first line of the second room) has any cell, because the counter
      moves to index 1 without creating that room; the corrected loop
      succeeds and leaves room 1 with id 1. */
  lemma MidFrameAdvanceFails(rooms: map<nat, Room>, lines: seq<Line>, palette: int)
    requires AllValid(rooms) && 1 !in rooms
    requires |lines| > ROOM_SIZE && |lines[ROOM_SIZE]| > 0
    ensures ImportedAsWritten(rooms, [lines], palette).Err?
    ensures Imported(rooms, [lines], palette).Ok?
    ensures 1 in Imported(rooms, [lines], palette).value.rooms
    ensures Imported(rooms, [lines], palette).value.rooms[1].id == 1
  {
    var c0 := Cursor(rooms, 0, 0);
    var start := FrameStart(c0, palette);
    OneFrame(c0, lines, palette);
    SecondRoomFails(start, lines, palette);
    CorrectedMakesSecondRoom(rooms, lines, palette);
  }

  /** Importing a single frame is the frame start and its lines. */
  lemma OneFrame(c: Cursor, lines: seq<Line>, palette: int)
    requires Good(c)
    ensures FramesAfter(c, [lines], palette, false) == LinesAfter(FrameStart(c, palette), lines, palette, false)
    ensures FramesAfter(c, [lines], palette, true) == LinesAfter(FrameStart(c, palette), lines, palette, true)
  {
    assert [lines][..0] == [];
  }

  /** As written, the first line of the second room fails when nothing
      created that room. */
  lemma SecondRoomFails(start: Cursor, lines: seq<Line>, palette: int)
    requires Good(start) && start.y == 0 && start.room in start.rooms && start.room + 1 !in start.rooms
    requires |lines| > ROOM_SIZE && |lines[ROOM_SIZE]| > 0
    ensures LinesAfter(start, lines, palette, false).Err?
  {
    var d := FirstRoomDone(start, lines[..ROOM_SIZE], palette);
    assert d.room !in d.rooms;
    assert LineStep(d, lines[ROOM_SIZE], palette, false).Err?;
    LinesSnoc(start, lines, ROOM_SIZE, palette, false);
    LinesStop(start, lines, palette, false, ROOM_SIZE + 1);
  }

  /** As written, a room's height of lines leaves the cursor at the first
      row of the next index, with no room created. */
  lemma FirstRoomDone(start: Cursor, head: seq<Line>, palette: int) returns (d: Cursor)
    requires Good(start) && start.y == 0 && start.room in start.rooms && |head| == ROOM_SIZE
    ensures LinesAfter(start, head, palette, false) == Ok(d)
    ensures Good(d) && d.room == start.room + 1 && d.y == 0 && d.rooms.Keys == start.rooms.Keys
  {
    LinesCursor(start, head, palette, false);
    d := LinesAfter(start, head, palette, false).value;
  }

  /** Corrected, a frame taller than a room leaves room 1 with id 1. */
  lemma CorrectedMakesSecondRoom(rooms: map<nat, Room>, lines: seq<Line>, palette: int)
    requires AllValid(rooms) && |lines| > ROOM_SIZE
    ensures Imported(rooms, [lines], palette).Ok?
    ensures 1 in Imported(rooms, [lines], palette).value.rooms
    ensures Imported(rooms, [lines], palette).value.rooms[1].id == 1
  {
    var c0 := Cursor(rooms, 0, 0);
    OneFrame(c0, lines, palette);
    ImportedIndexed(rooms, [lines], palette);
    LinesCursor(FrameStart(c0, palette), lines, palette, true);
  }

  // ---------------------------------------------------------------------
  // The import

  /** The cell loop and the row advance for one line, on the project, with
      the room created and given its id before its first line. */
  method ImportLine(data: Project, room: nat, y: nat, line: Line) returns (room': nat, y': nat)
    requires data.Valid() && y < ROOM_SIZE
    requires Indexed(Cursor(data.rooms, room, y))
    modifies data
    ensures LineStep(Cursor(old(data.rooms), room, y), line, data.paletteId, true) == Ok(Cursor(data.rooms, room', y'))
    ensures data.Valid() && y' < ROOM_SIZE && Indexed(Cursor(data.rooms, room', y'))
    ensures data.tiles == old(data.tiles) && data.colors == old(data.colors)
  {
    LineStepIndexed(Cursor(data.rooms, room, y), line, data.paletteId);
    room', y' := room, y;
    if y == 0 {
      if room !in data.rooms {
        data.rooms := data.rooms[room := BlankRoom(room, data.paletteId)];
      }
      data.rooms := data.rooms[room := data.rooms[room].(id := room)];
    }
    assert data.rooms == if y == 0 then old(data.rooms)[room := Ensured(old(data.rooms), room, data.paletteId)]
                         else old(data.rooms);
    if |line| > 0 {
      var roomdata := WriteLine(data.rooms[room], y, line);
      data.rooms := data.rooms[room := roomdata];
    }
    y' := y + 1;
    if y' >= ROOM_SIZE {
      y' := 0;
      room' := room + 1;
    }
  }

  /** One frame: create and index the room under the counter, then its
      lines. */
  method ImportFrame(data: Project, room: nat, lines: seq<Line>) returns (room': nat, y': nat)
    requires data.Valid() && Indexed(Cursor(data.rooms, room, 0))
    modifies data
    ensures LinesAfter(FrameStart(Cursor(old(data.rooms), room, 0), data.paletteId), lines, data.paletteId, true)
            == Ok(Cursor(data.rooms, room', y'))
    ensures data.Valid() && y' < ROOM_SIZE && Indexed(Cursor(data.rooms, room', y'))
    ensures data.tiles == old(data.tiles) && data.colors == old(data.colors)
  {
    if room !in data.rooms {
      data.rooms := data.rooms[room := BlankRoom(room, data.paletteId)];
    }
    data.rooms := data.rooms[room := data.rooms[room].(id := room)];
    ghost var start := FrameStart(Cursor(old(data.rooms), room, 0), data.paletteId);
    assert start == Cursor(data.rooms, room, 0);
    room', y' := room, 0;
    var j := 0;
    while j < |lines|
      invariant 0 <= j <= |lines| && data.Valid() && y' < ROOM_SIZE
      invariant LinesAfter(start, lines[..j], data.paletteId, true) == Ok(Cursor(data.rooms, room', y'))
      invariant Indexed(Cursor(data.rooms, room', y'))
      invariant data.tiles == old(data.tiles) && data.colors == old(data.colors)
    {
      ghost var c := Cursor(data.rooms, room', y');
      room', y' := ImportLine(data, room', y', lines[j]);
      LinesStepTo(start, lines, j, data.paletteId, c, Cursor(data.rooms, room', y'));
      j := j + 1;
    }
    assert lines[..j] == lines;
  }

  /** A line step that follows the first `j` lines takes the first
      `j + 1` lines where it ends. */
  lemma LinesStepTo(start: Cursor, lines: seq<Line>, j: nat, palette: int, c: Cursor, c': Cursor)
    requires Good(start) && Good(c) && j < |lines|
    requires LinesAfter(start, lines[..j], palette, true) == Ok(c)
    requires LineStep(c, lines[j], palette, true) == Ok(c')
    ensures LinesAfter(start, lines[..j + 1], palette, true) == Ok(c')
  {
    LinesSnoc(start, lines, j, palette, true);
  }

  /** The first `j + 1` lines are the first `j` and then line `j`. */
  lemma LinesSnoc(c: Cursor, lines: seq<Line>, j: nat, palette: int, fixed: bool)
    requires Good(c) && j < |lines|
    ensures LinesAfter(c, lines[..j], palette, fixed).Err? ==> LinesAfter(c, lines[..j + 1], palette, fixed).Err?
    ensures LinesAfter(c, lines[..j], palette, fixed).Ok? ==>
            LinesAfter(c, lines[..j + 1], palette, fixed)
            == LineStep(LinesAfter(c, lines[..j], palette, fixed).value, lines[j], palette, fixed)
  {
    assert lines[..j + 1][..j] == lines[..j];
  }

  /** The room loop of `importMap`, with the room advance corrected: it
      never fails, and leaves the rooms Imported gives. */
  method ImportFrames(data: Project, frames: seq<seq<Line>>)
    requires data.Valid()
    modifies data
    ensures Imported(old(data.rooms), frames, data.paletteId).Ok?
    ensures data.rooms == Imported(old(data.rooms), frames, data.paletteId).value.rooms
    ensures data.Valid()
    ensures data.tiles == old(data.tiles) && data.colors == old(data.colors)
  {
    var room: nat, y: nat := 0, 0;
    var f := 0;
    ghost var c0 := Cursor(old(data.rooms), 0, 0);
    while f < |frames|
      invariant 0 <= f <= |frames| && data.Valid() && y < ROOM_SIZE
      invariant Indexed(Cursor(data.rooms, room, y))
      invariant FramesAfter(c0, frames[..f], data.paletteId, true) == Ok(Cursor(data.rooms, room, y))
      invariant data.tiles == old(data.tiles) && data.colors == old(data.colors)
    {
      assert frames[..f + 1][..f] == frames[..f];
      room, y := ImportFrame(data, room, frames[f]);
      f := f + 1;
    }
    assert frames[..f] == frames;
  }

  /** Once a frame fails, the import fails. */
  lemma {:induction false} FramesStop(c: Cursor, frames: seq<seq<Line>>, palette: int, j: nat)
    requires Good(c) && j <= |frames|
    requires FramesAfter(c, frames[..j], palette, false).Err?
    ensures FramesAfter(c, frames, palette, false).Err?
    decreases |frames| - j
  {
    if j < |frames| {
      assert frames[..j + 1][..j] == frames[..j];
      FramesStop(c, frames, palette, j + 1);
    } else {
      assert frames[..j] == frames;
    }
  }

  /** `importMap` after the file is read: the colours, then the rooms. */
  method ImportMap(data: Project, packed: seq<int>, frames: seq<seq<Line>>)
    requires data.Valid()
    modifies data
    ensures data.colors == PaletteAfter(old(data.colors), packed)
    ensures Imported(old(data.rooms), frames, data.paletteId).Ok?
    ensures data.rooms == Imported(old(data.rooms), frames, data.paletteId).value.rooms
    ensures data.tiles == old(data.tiles)
  {
    ImportColors(data, packed);
    ImportFrames(data, frames);
  }
}
