/** Dialogue portraits (dist/dialogue-portraits.js): `@@X,S,F,B,O@@` in a
    dialogue becomes a zero-width glyph styled `portrait`; when the page is
    shown, each such style picks a portrait (a tile, or one or more image
    "file" fields of an event) and its side and palette colours, and the
    renderer places it above the dialogue panel. */
module DialoguePortraits {
  import opened Host
  import opened Markup

  const MARKER: char := '@'
  const PORTRAIT: Style := Style("portrait", false)
  /** The dialogue panel's width, in pixels. */
  const PANEL_WIDTH: int := 208

  // ---------------------------------------------------------------------
  // Configuration and arguments

  /** The plugin's configuration after its own sanitising. */
  datatype Config = Config(margin: int, scale: int, defaultBorder: int, defaultSide: int)

  /** `parseInt(x, 10)` of a value that may be `undefined` (which parses
      as NaN). */
  function ParseArg(text: Option<string>): Option<int>
  {
    match text
    case None => None
    case Some(t) => ParseInt(t)
  }

  /** `parseInt(..) || d`: NaN and 0 are falsy. */
  function OrDefault(parsed: Option<int>, d: int): int
  {
    if parsed.None? || parsed.value == 0 then d else parsed.value
  }

  predicate IsSide(v: int)
  {
    v == 0 || v == 1
  }

  predicate IsPaletteIndex(v: int)
  {
    0 <= v <= 7
  }

  /** The configuration read from the plugin's text fields
      (dist/dialogue-portraits.js:108-117): margin and scale default to 2
      and 4 when missing, unparsable or 0; the default border colour falls
      back to 0 outside 0..7; the default side falls back to 0 unless it is
      0 or 1. */
  function ConfigFrom(margin: Option<string>, scale: Option<string>, border: Option<string>, side: Option<string>): (c: Config)
    ensures c.margin != 0 && c.scale != 0
    ensures IsPaletteIndex(c.defaultBorder) && IsSide(c.defaultSide)
  {
    var b := OrDefault(ParseArg(border), 0);
    var s := ParseArg(side);
    Config(OrDefault(ParseArg(margin), 2), OrDefault(ParseArg(scale), 4),
           if IsPaletteIndex(b) then b else 0,
           if s.Some? && IsSide(s.value) then s.value else 0)
  }

  /** Configured values in range are taken as written; missing ones get
      the defaults 2, 4, 0 and 0. */
  lemma ConfigFromValues(margin: nat, scale: nat, border: nat, side: nat)
    requires margin > 0 && scale > 0 && border <= 7 && side <= 1
    ensures ConfigFrom(Some(NatToString(margin)), Some(NatToString(scale)),
                       Some(NatToString(border)), Some(NatToString(side)))
            == Config(margin, scale, border, side)
    ensures ConfigFrom(None, None, None, None) == Config(2, 4, 0, 0)
  {
    ParseIntOfNat(margin);
    ParseIntOfNat(scale);
    ParseIntOfNat(border);
    ParseIntOfNat(side);
  }

  /** A portrait request after `parseInt(args[0], 10) || args[0]`: a
      non-zero number is a tile id, anything else stays text (an image
      field name, optionally prefixed by an event tag and a dash). */
  datatype PortraitId = TileId(id: int) | ImageName(name: string)

  /** The colours of the event whose script showed the dialogue. */
  datatype Colors = Colors(fg: int, bg: int)

  /** The side and palette colours a portrait is drawn with. */
  datatype Settings = Settings(side: int, fg: int, bg: int, border: int)

  /** Everything one `portrait` style value asks for. */
  datatype Request = Request(id: Option<PortraitId>, settings: Settings)

  /** The `k`-th comma-separated argument, `undefined` past the end. */
  function Arg(args: seq<string>, k: nat): Option<string>
  {
    if k < |args| then Some(args[k]) else None
  }

  /** The portrait id, with `null` (no portrait) for an empty id and for
      numbers below -1. */
  function IdOf(arg: string): Option<PortraitId>
  {
    var p := ParseInt(arg);
    if p.Some? && p.value != 0 then
      (if p.value < -1 then None else Some(TileId(p.value)))
    else if arg == "" then None
    else Some(ImageName(arg))
  }

  /** A palette index argument, or the fallback when it is NaN or outside
      0..7. */
  function ColorArg(parsed: Option<int>, fallback: int): int
  {
    if parsed.Some? && IsPaletteIndex(parsed.value) then parsed.value else fallback
  }

  /** The applyStyle handling of one `portrait` style value
      (dist/dialogue-portraits.js:151-173). */
  function Sanitised(value: string, colors: Option<Colors>, cfg: Config): Request
  {
    var args := Split(value, ',');
    var side := ParseArg(Arg(args, 1));
    var ec := if colors.Some? then colors.value else Colors(3, 1);
    Request(IdOf(args[0]),
            Settings(if side.Some? && IsSide(side.value) then side.value else cfg.defaultSide,
                     ColorArg(ParseArg(Arg(args, 2)), ec.fg),
                     ColorArg(ParseArg(Arg(args, 3)), ec.bg),
                     ColorArg(ParseArg(Arg(args, 4)), cfg.defaultBorder)))
  }

  /** Each argument is kept exactly when it is valid; otherwise the side
      falls back to the configured default, the foreground and background
      to the event's colours (3 and 1 without them) and the border to the
      configured default. */
  lemma SanitiseRule(value: string, colors: Option<Colors>, cfg: Config)
    ensures var args := Split(value, ',');
            var st := Sanitised(value, colors, cfg).settings;
            var ec := if colors.Some? then colors.value else Colors(3, 1);
            var side := ParseArg(Arg(args, 1));
            var fg := ParseArg(Arg(args, 2));
            var bg := ParseArg(Arg(args, 3));
            var border := ParseArg(Arg(args, 4));
            (side.Some? && IsSide(side.value) ==> st.side == side.value) &&
            (!(side.Some? && IsSide(side.value)) ==> st.side == cfg.defaultSide) &&
            (fg.Some? && IsPaletteIndex(fg.value) ==> st.fg == fg.value) &&
            (!(fg.Some? && IsPaletteIndex(fg.value)) ==> st.fg == ec.fg) &&
            (bg.Some? && IsPaletteIndex(bg.value) ==> st.bg == bg.value) &&
            (!(bg.Some? && IsPaletteIndex(bg.value)) ==> st.bg == ec.bg) &&
            (border.Some? && IsPaletteIndex(border.value) ==> st.border == border.value) &&
            (!(border.Some? && IsPaletteIndex(border.value)) ==> st.border == cfg.defaultBorder)
  {
  }

  /** With a sanitised configuration and in-range event colours, every
      setting is a side or a palette index. */
  lemma SanitisedInRange(value: string, colors: Option<Colors>, cfg: Config)
    requires IsSide(cfg.defaultSide) && IsPaletteIndex(cfg.defaultBorder)
    requires colors.Some? ==> IsPaletteIndex(colors.value.fg) && IsPaletteIndex(colors.value.bg)
    ensures var st := Sanitised(value, colors, cfg).settings;
            IsSide(st.side) && IsPaletteIndex(st.fg) && IsPaletteIndex(st.bg) && IsPaletteIndex(st.border)
  {
  }

  /** A tile id is read from its decimal text; `-1` and an empty id ask for
      no portrait, as does any id below -1. */
  lemma IdOfRule(n: nat)
    ensures n > 0 ==> IdOf(NatToString(n)) == Some(TileId(n))
    ensures IdOf("-" + NatToString(1)) == Some(TileId(-1))
    ensures n > 1 ==> IdOf("-" + NatToString(n)) == None
    ensures IdOf("") == None
  {
    ParseIntOfNat(n);
    ParseIntOfNat(1);
  }

  // ---------------------------------------------------------------------
  // Portrait data

  /** What the current portrait shows. */
  datatype Kind = NoPortrait | TilePortrait | ImagePortrait

  /** The "file" fields of an event, by name, with their resource ids. */
  type FileFields = map<string, string>

  /** What the host looks up: the game's tiles, the event running the
      current script, and the events with a given tag. */
  datatype World = World(tiles: seq<Tile>, source: Option<FileFields>, tagged: map<string, FileFields>)

  /** `currentPortraitData`: the kind shown, the last tile loaded and its
      frames, the resource ids of the last images loaded, how many `Image`
      objects exist, and the number of animation frames. */
  datatype PortraitData = PortraitData(
    kind: Kind,
    tileId: Option<int>,
    frameIds: seq<nat>,
    imageResourceIds: Option<seq<string>>,
    imageCount: nat,
    frameCount: nat)

  /** `tiles.find(t => t.id === id)`. */
  function FindTile(tiles: seq<Tile>, id: int): (r: Option<Tile>)
    ensures r.Some? ==> r.value in tiles && r.value.id == id
    ensures r.None? ==> forall k :: 0 <= k < |tiles| ==> tiles[k].id != id
  {
    if tiles == [] then None
    else if tiles[0].id == id then Some(tiles[0])
    else FindTile(tiles[1..], id)
  }

  /** `shallowArrayEquals(a, b)` where `b` may be `undefined`. */
  function ShallowArrayEquals(a: seq<string>, b: Option<seq<string>>): (r: bool)
    ensures r <==> b == Some(a)
  {
    b.Some? && |a| == |b.value| && EveryEqual(a, b.value, 0)
  }

  /** `a.every((v, i) => v === b[i])`, from index `from` on. */
  function EveryEqual(a: seq<string>, b: seq<string>, from: nat): (r: bool)
    requires |a| == |b| && from <= |a|
    ensures r <==> a[from..] == b[from..]
    decreases |a| - from
  {
    if from == |a| then true
    else if a[from] != b[from] then false
    else
      var rest := EveryEqual(a, b, from + 1);
      assert a[from..] == [a[from]] + a[from + 1..] && b[from..] == [b[from]] + b[from + 1..];
      rest
  }

  /** The name of the `k`-th animation frame field. */
  function FrameName(base: string, k: nat): string
  {
    base + NatToString(k)
  }

  lemma FrameNameInjective(base: string, i: nat, j: nat)
    ensures FrameName(base, i) == FrameName(base, j) ==> i == j
  {
    if FrameName(base, i) == FrameName(base, j) {
      assert FrameName(base, i)[|base|..] == NatToString(i);
      assert FrameName(base, j)[|base|..] == NatToString(j);
      NatToStringInjective(i, j);
    }
  }

  /** The resource ids of the frame fields `k`, `k+1`, ... up to the first
      missing one, looking at no more than `fuel` of them. */
  function Run(ev: FileFields, base: string, k: nat, fuel: nat): seq<string>
    decreases fuel
  {
    if fuel == 0 || FrameName(base, k) !in ev then []
    else [ev[FrameName(base, k)]] + Run(ev, base, k + 1, fuel - 1)
  }

  /** The portrait's image fields (dist/dialogue-portraits.js:211-224):
      `base1`, `base2`, ... up to the first missing one, or else the field
      `base` alone, or else none. */
  function FrameFields(ev: FileFields, base: string): seq<string>
  {
    if FrameName(base, 1) in ev then Run(ev, base, 1, |ev|)
    else if base in ev then [ev[base]]
    else []
  }

  /** `r` lists the fields `base<k>`, `base<k+1>`, ... in order, and the
      next name is missing. */
  ghost predicate RunFrom(ev: FileFields, base: string, k: nat, r: seq<string>)
  {
    (forall j: nat :: k <= j < k + |r| ==> FrameName(base, j) in ev && r[j - k] == ev[FrameName(base, j)]) &&
    FrameName(base, k + |r|) !in ev
  }

  /** The run ends at the first missing frame name, provided the fuel
      covers the names still present. */
  lemma {:induction false} RunStops(ev: FileFields, base: string, k: nat, fuel: nat, remaining: set<string>)
    requires |remaining| <= fuel
    requires forall i: nat :: i >= k && FrameName(base, i) in ev ==> FrameName(base, i) in remaining
    ensures RunFrom(ev, base, k, Run(ev, base, k, fuel))
    decreases fuel
  {
    var name := FrameName(base, k);
    if name in ev {
      assert name in remaining;
      var rest := remaining - {name};
      forall i: nat | i >= k + 1 && FrameName(base, i) in ev
        ensures FrameName(base, i) in rest
      {
        FrameNameInjective(base, i, k);
      }
      RunStops(ev, base, k + 1, fuel - 1, rest);
      var r := Run(ev, base, k, fuel);
      var r' := Run(ev, base, k + 1, fuel - 1);
      assert r == [ev[name]] + r';
      forall j: nat | k <= j < k + |r|
        ensures FrameName(base, j) in ev && r[j - k] == ev[FrameName(base, j)]
      {
        if j > k {
          assert r[j - k] == r'[j - (k + 1)];
        }
      }
    }
  }

  /** The frames found are exactly the consecutive `base1`, `base2`, ...
      present, stopping before the first missing one; without `base1` the
      bare field (if any) is the single frame. */
  lemma FrameFieldsMeaning(ev: FileFields, base: string)
    ensures FrameName(base, 1) in ev ==> |FrameFields(ev, base)| >= 1 && RunFrom(ev, base, 1, FrameFields(ev, base))
    ensures FrameName(base, 1) !in ev ==> FrameFields(ev, base) == (if base in ev then [ev[base]] else [])
  {
    if FrameName(base, 1) in ev {
      RunStops(ev, base, 1, |ev|, ev.Keys);
    }
  }

  function Max(a: nat, b: nat): nat
  {
    if a < b then b else a
  }

  /** `gatherPortraitData` (dist/dialogue-portraits.js:186-268). */
  function Gathered(d: PortraitData, id: Option<PortraitId>, w: World): PortraitData
  {
    var none := d.(kind := NoPortrait);
    match id
    case None => none
    case Some(TileId(n)) =>
      if n == -1 then none
      else if d.tileId == Some(n) then d.(kind := TilePortrait)
      else
        (match FindTile(w.tiles, n)
         case None => none
         case Some(t) => d.(kind := TilePortrait, frameIds := t.frames, tileId := Some(n)))
    case Some(ImageName(s)) =>
      if s == "" then none
      else
        var parts := Split(s, '-');
        var src := if |parts| == 1 then w.source
                   else if parts[0] in w.tagged then Some(w.tagged[parts[0]]) else None;
        if src.None? then none
        else
          var ids := FrameFields(src.value, parts[|parts| - 1]);
          if ids == [] then none
          else if ShallowArrayEquals(ids, d.imageResourceIds) then d.(kind := ImagePortrait)
          else d.(kind := ImagePortrait, imageResourceIds := Some(ids),
                  imageCount := Max(d.imageCount, |ids|), frameCount := |ids|)
  }

  /** A missing id, `-1` and an empty name show no portrait and change
      nothing else. */
  lemma NoIdNoPortrait(d: PortraitData, w: World)
    ensures Gathered(d, None, w) == d.(kind := NoPortrait)
    ensures Gathered(d, Some(TileId(-1)), w) == d.(kind := NoPortrait)
    ensures Gathered(d, Some(ImageName("")), w) == d.(kind := NoPortrait)
  {
  }

  /** Asking again for the tile last loaded only sets the kind; a tile id
      that is not in the game shows no portrait. */
  lemma TileRule(d: PortraitData, n: int, w: World)
    requires n != -1
    ensures d.tileId == Some(n) ==> Gathered(d, Some(TileId(n)), w) == d.(kind := TilePortrait)
    ensures d.tileId != Some(n) && (forall k :: 0 <= k < |w.tiles| ==> w.tiles[k].id != n) ==>
              Gathered(d, Some(TileId(n)), w) == d.(kind := NoPortrait)
    ensures d.tileId != Some(n) && FindTile(w.tiles, n).Some? ==>
              var g := Gathered(d, Some(TileId(n)), w);
              g.kind == TilePortrait && g.tileId == Some(n) && g.frameIds == FindTile(w.tiles, n).value.frames &&
              g.imageResourceIds == d.imageResourceIds && g.imageCount == d.imageCount
  {
  }

  /** For an image name without an event tag: when the frames found are the
      images last loaded, only the kind is set; otherwise they replace the
      loaded ones, the frame count is their number, and the `Image`
      objects grow to hold them but never shrink. */
  lemma ImageRule(d: PortraitData, name: string, ev: FileFields, w: World)
    requires name != "" && '-' !in name && w.source == Some(ev)
    ensures var ids := FrameFields(ev, name);
            var g := Gathered(d, Some(ImageName(name)), w);
            (ids == [] ==> g == d.(kind := NoPortrait)) &&
            (ids != [] && d.imageResourceIds == Some(ids) ==> g == d.(kind := ImagePortrait)) &&
            (ids != [] && d.imageResourceIds != Some(ids) ==>
               g.kind == ImagePortrait && g.imageResourceIds == Some(ids) && g.frameCount == |ids| &&
               g.imageCount >= d.imageCount && g.imageCount >= |ids| &&
               (g.imageCount == d.imageCount || g.imageCount == |ids|) && g.tileId == d.tileId)
  {
    SplitWithout(name, '-');
  }

  lemma SplitWithout(s: string, sep: char)
    requires sep !in s
    ensures Split(s, sep) == [s]
  {
  }

  /** Whatever is asked for, the `Image` objects never decrease. */
  lemma ImagesOnlyGrow(d: PortraitData, id: Option<PortraitId>, w: World)
    ensures Gathered(d, id, w).imageCount >= d.imageCount
  {
  }

  // ---------------------------------------------------------------------
  // Layout of the portrait (pure arithmetic of the render hook)

  /** The dialogue options the layout reads. */
  datatype PanelOptions = PanelOptions(padding: int, lineHeight: int, lineGap: int, lines: int, noMargin: bool)

  /** `Math.ceil(x / 2)`. */
  function CeilHalf(x: int): (r: int)
    ensures x <= 2 * r <= x + 1
  {
    (x + 1) / 2
  }

  function Min(a: int, b: int): int
  {
    if a < b then a else b
  }

  function PanelHeight(o: PanelOptions): int
  {
    o.padding * 2 + (o.lineHeight + o.lineGap) * o.lines
  }

  /** The margin around the dialogue panel on a canvas of the given size. */
  function ScreenMargin(o: PanelOptions, width: int, height: int): int
  {
    if o.noMargin then 0 else CeilHalf(Min(width - PANEL_WIDTH, height - PanelHeight(o)))
  }

  /** The dialogue panel's top edge (`dialogueUiY`). */
  function PanelY(o: PanelOptions, width: int, height: int, anchorY: real): int
  {
    var m := ScreenMargin(o, width, height);
    var minY := m;
    var maxY := height - m;
    ((minY as real) + ((maxY - minY - PanelHeight(o)) as real) * anchorY).Floor
  }

  /** The anchor the panel is drawn with when the page has a portrait: a
      panel at the top is moved to the bottom. */
  function PortraitAnchor(anchorY: real): (r: real)
    ensures r != 0.0
    ensures anchorY != 0.0 ==> r == anchorY
  {
    if anchorY == 0.0 then 1.0 else anchorY
  }

  /** The colour of the portrait's border: the panel's colour for 0,
      otherwise that palette entry. */
  datatype Fill = PanelFill | PaletteFill(index: int)

  datatype Placement = Placement(x: int, y: int, size: int, border: Fill)

  /** Where the portrait goes (dist/dialogue-portraits.js:314-334). */
  function Place(kind: Kind, st: Settings, cfg: Config, o: PanelOptions, width: int, height: int, anchorY: real): Placement
  {
    var m := ScreenMargin(o, width, height);
    var size := (if kind == TilePortrait then 12 else 10) * cfg.scale;
    var x := if st.side == 0 then m + cfg.margin else (width - m) - cfg.margin - size;
    Placement(x, PanelY(o, width, height, anchorY) - cfg.margin - size, size,
              if st.border == 0 then PanelFill else PaletteFill(st.border))
  }

  /** The render hook: the anchor it leaves on the dialogue options, and
      the portrait placement when one is drawn. */
  datatype Rendered = Rendered(anchorY: real, portrait: Option<Placement>)

  function Render(hasPortrait: bool, kind: Kind, st: Settings, cfg: Config, o: PanelOptions, width: int, height: int, anchorY: real): Rendered
  {
    if !hasPortrait then Rendered(anchorY, None)
    else
      var a := PortraitAnchor(anchorY);
      Rendered(a, if kind == NoPortrait then None else Some(Place(kind, st, cfg, o, width, height, a)))
  }

  /** A portrait is drawn exactly when the page had a portrait marker and
      the data has a kind; only such a page moves a top panel down. */
  lemma RenderWhen(hasPortrait: bool, kind: Kind, st: Settings, cfg: Config, o: PanelOptions, width: int, height: int, anchorY: real)
    ensures var r := Render(hasPortrait, kind, st, cfg, o, width, height, anchorY);
            (r.portrait.Some? <==> hasPortrait && kind != NoPortrait) &&
            (r.anchorY != anchorY <==> hasPortrait && anchorY == 0.0)
  {
  }

  /** The portrait is a square of 12 scale units for a tile and 10 for an
      image, whose bottom edge is `margin` above the panel; a panel at the
      bottom (anchor 1, the forced value) ends `margin` above the screen
      margin, so the portrait's bottom is `margin + height` above it. */
  lemma PortraitAbovePanel(kind: Kind, st: Settings, cfg: Config, o: PanelOptions, width: int, height: int)
    requires kind != NoPortrait
    ensures var p := Place(kind, st, cfg, o, width, height, 1.0);
            var m := ScreenMargin(o, width, height);
            p.size == (if kind == TilePortrait then 12 else 10) * cfg.scale &&
            p.y + p.size + cfg.margin == PanelY(o, width, height, 1.0) &&
            PanelY(o, width, height, 1.0) == height - m - PanelHeight(o)
  {
    var m := ScreenMargin(o, width, height);
    assert (m as real) + ((height - m - m - PanelHeight(o)) as real) * 1.0 == (height - m - PanelHeight(o)) as real;
  }

  /** A left portrait and a right one sit at the same distance from their
      edge of the screen area, and at the same height. */
  lemma SidesMirror(kind: Kind, st: Settings, cfg: Config, o: PanelOptions, width: int, height: int, anchorY: real)
    ensures var l := Place(kind, st.(side := 0), cfg, o, width, height, anchorY);
            var r := Place(kind, st.(side := 1), cfg, o, width, height, anchorY);
            var m := ScreenMargin(o, width, height);
            l.x - m == (width - m) - (r.x + r.size) && l.y == r.y && l.size == r.size
  {
  }

  /** A border index of 0 uses the panel's colour; any other index its
      palette entry. */
  lemma BorderFill(kind: Kind, st: Settings, cfg: Config, o: PanelOptions, width: int, height: int, anchorY: real)
    ensures var p := Place(kind, st, cfg, o, width, height, anchorY);
            (p.border == PanelFill <==> st.border == 0) &&
            (st.border != 0 ==> p.border == PaletteFill(st.border))
  {
  }

  // ---------------------------------------------------------------------
  // The plugin's state

  /** `portraitVars`: the current side and colours, the portrait data, and
      whether the page being shown had a portrait marker. */
  datatype View = View(settings: Settings, data: PortraitData, pageHasPortrait: bool)

  /** One `portrait` style: sanitise its value, then gather its data. */
  function ApplyOne(v: View, value: string, colors: Option<Colors>, cfg: Config, w: World): View
  {
    var rq := Sanitised(value, colors, cfg);
    v.(settings := rq.settings, data := Gathered(v.data, rq.id, w))
  }

  /** The portrait styles of a page, handled in order. */
  function ApplyAll(v: View, values: seq<string>, colors: Option<Colors>, cfg: Config, w: World): View
  {
    if values == [] then v
    else ApplyOne(ApplyAll(v, values[..|values| - 1], colors, cfg, w), values[|values| - 1], colors, cfg, w)
  }

  /** A page without portrait styles leaves the state as it is; with
      several, the last one's settings win. */
  lemma ApplyAllLast(v: View, values: seq<string>, colors: Option<Colors>, cfg: Config, w: World)
    ensures values == [] ==> ApplyAll(v, values, colors, cfg, w) == v
    ensures values != [] ==> ApplyAll(v, values, colors, cfg, w).settings == Sanitised(values[|values| - 1], colors, cfg).settings
    ensures ApplyAll(v, values, colors, cfg, w).pageHasPortrait == v.pageHasPortrait
  {
  }

  /** Handling two runs of styles one after the other is handling their
      concatenation. */
  lemma {:induction false} ApplyAllConcat(v: View, values: seq<string>, more: seq<string>, colors: Option<Colors>,
                                          cfg: Config, w: World)
    ensures ApplyAll(v, values + more, colors, cfg, w) == ApplyAll(ApplyAll(v, values, colors, cfg, w), more, colors, cfg, w)
    decreases |more|
  {
    if more == [] {
      assert values + more == values;
    } else {
      var init := more[..|more| - 1];
      ApplyAllConcat(v, values, init, colors, cfg, w);
      assert (values + more)[..|values + more| - 1] == values + init;
      assert (values + more)[|values + more| - 1] == more[|more| - 1];
    }
  }

  class Portraits {
    const config: Config
    var settings: Settings
    var data: PortraitData
    var pageHasPortrait: bool

    function State(): View
      reads this
    {
      View(settings, data, pageHasPortrait)
    }

    /** The state when the plugin loads (dist/dialogue-portraits.js:93-101). */
    constructor(config: Config)
      ensures this.config == config
      ensures State() == View(Settings(0, 3, 1, 0), PortraitData(NoPortrait, None, [], None, 0, 0), false)
    {
      this.config := config;
      settings := Settings(0, 3, 1, 0);
      data := PortraitData(NoPortrait, None, [], None, 0, 0);
      pageHasPortrait := false;
    }

    /** The `queue` splice: make sure the font has the zero-width
        character, clear the portrait, and rewrite the markers
        (dist/dialogue-portraits.js:134-144, 271-288).  A font with
        neither character 0 nor 1 makes it throw before anything changes. */
    method Queue(script: string, font: Font) returns (out: Result<string>)
      requires NoTriple(script, MARKER)
      modifies this, font
      ensures out.Ok? == WithEmptyChar(old(font.characters)).Ok?
      ensures out.Err? ==> font.characters == old(font.characters) && State() == old(State())
      ensures out.Ok? ==> font.characters == WithEmptyChar(old(font.characters)).value
      ensures out.Ok? ==> out.value == (if MatchCount(script, MARKER) % 2 != 0 then script else Tagged(script, MARKER, PORTRAIT))
      ensures out.Ok? ==> (pageHasPortrait <==> MatchCount(script, MARKER) % 2 == 0 && MatchCount(script, MARKER) > 0)
      ensures out.Ok? ==> data == old(data).(kind := NoPortrait) && settings == old(settings)
    {
      var ok := font.AddEmptyChar();
      if !ok {
        return Err(WithEmptyChar(font.characters).message);
      }
      data := data.(kind := NoPortrait);
      var rewritten, replaced := RewriteMarkers(script, MARKER, PORTRAIT);
      out := Ok(rewritten);
      pageHasPortrait := replaced;
    }

    /** Finding the image frames: `base1`, `base2`, ... until one is
        missing, else the bare `base`. */
    static method DiscoverFrames(ev: FileFields, base: string) returns (fields: seq<string>)
      ensures fields == FrameFields(ev, base)
    {
      var first := FrameName(base, 1);
      if first !in ev {
        if base in ev {
          return [ev[base]];
        }
        return [];
      }
      fields := [ev[first]];
      var suffix: nat := 2;
      ghost var fuel: nat := |ev| - 1;
      ghost var remaining := ev.Keys - {first};
      forall i | i >= 2 && FrameName(base, i) in ev
        ensures FrameName(base, i) in remaining
      {
        FrameNameInjective(base, i, 1);
      }
      while FrameName(base, suffix) in ev
        invariant suffix >= 2
        invariant fields + Run(ev, base, suffix, fuel) == Run(ev, base, 1, |ev|)
        invariant |remaining| <= fuel
        invariant forall i :: i >= suffix && FrameName(base, i) in ev ==> FrameName(base, i) in remaining
        decreases |remaining|
      {
        var name := FrameName(base, suffix);
        assert name in remaining;
        forall i | i >= suffix + 1 && FrameName(base, i) in ev
          ensures FrameName(base, i) in remaining - {name}
        {
          FrameNameInjective(base, i, suffix);
        }
        assert Run(ev, base, suffix, fuel) == [ev[name]] + Run(ev, base, suffix + 1, fuel - 1);
        fields := fields + [ev[name]];
        remaining := remaining - {name};
        fuel := fuel - 1;
        suffix := suffix + 1;
      }
    }

    /** `gatherPortraitData`. */
    method Gather(id: Option<PortraitId>, w: World)
      modifies this
      ensures data == Gathered(old(data), id, w)
      ensures settings == old(settings) && pageHasPortrait == old(pageHasPortrait)
    {
      var d := data;
      data := data.(kind := NoPortrait);
      if id.None? || id == Some(TileId(-1)) || id == Some(ImageName("")) {
        return;
      }
      match id.value
      case TileId(n) =>
        if d.tileId == Some(n) {
          data := data.(kind := TilePortrait);
          return;
        }
        var tile := FindTile(w.tiles, n);
        if tile.None? {
          return;
        }
        data := data.(kind := TilePortrait, frameIds := tile.value.frames, tileId := Some(n));
      case ImageName(s) =>
        var parts := Split(s, '-');
        var src := if |parts| == 1 then w.source
                   else if parts[0] in w.tagged then Some(w.tagged[parts[0]]) else None;
        if src.None? {
          return;
        }
        var ids := DiscoverFrames(src.value, parts[|parts| - 1]);
        if ids == [] {
          return;
        }
        if ShallowArrayEquals(ids, d.imageResourceIds) {
          data := data.(kind := ImagePortrait);
          return;
        }
        data := data.(kind := ImagePortrait, imageResourceIds := Some(ids),
                      imageCount := Max(d.imageCount, |ids|), frameCount := |ids|);
    }

    /** One visible glyph's `portrait` style. */
    method HandleStyle(value: string, colors: Option<Colors>, w: World)
      modifies this
      ensures State() == ApplyOne(old(State()), value, colors, config, w)
    {
      var rq := Sanitised(value, colors, config);
      settings := rq.settings;
      Gather(rq.id, w);
    }

    /** One glyph of the page: a visible glyph with a `portrait` style is
        handled and loses the style. */
    method HandleGlyph(glyphs: array<Glyph>, i: nat, colors: Option<Colors>, w: World)
      requires i < glyphs.Length
      modifies this, glyphs
      ensures glyphs[i] == Unstyled(old(glyphs[i]), PORTRAIT.name)
      ensures forall k :: 0 <= k < glyphs.Length && k != i ==> glyphs[k] == old(glyphs[k])
      ensures State() == ApplyAll(old(State()), StyleValues([old(glyphs[i])], PORTRAIT.name), colors, config, w)
    {
      var g := glyphs[i];
      assert [g][..0] == [];
      if Styled(g, PORTRAIT.name) {
        HandleStyle(g.styles[PORTRAIT.name], colors, w);
        glyphs[i] := g.(styles := g.styles - {PORTRAIT.name});
      }
    }

    /** The applyStyle hook: every visible glyph with a `portrait` style
        is handled in page order and loses the style
        (dist/dialogue-portraits.js:147-180). */
    method ApplyStyle(glyphs: array<Glyph>, colors: Option<Colors>, w: World)
      modifies this, glyphs
      ensures State() == ApplyAll(old(State()), StyleValues(old(glyphs[..]), PORTRAIT.name), colors, config, w)
      ensures forall i :: 0 <= i < glyphs.Length ==> glyphs[i] == Unstyled(old(glyphs[i]), PORTRAIT.name)
    {
      ghost var start := State();
      ghost var before := glyphs[..];
      var i := 0;
      while i < glyphs.Length
        invariant 0 <= i <= glyphs.Length
        invariant State() == ApplyAll(start, StyleValues(before[..i], PORTRAIT.name), colors, config, w)
        invariant forall k :: 0 <= k < i ==> glyphs[k] == Unstyled(before[k], PORTRAIT.name)
        invariant forall k :: i <= k < glyphs.Length ==> glyphs[k] == before[k]
      {
        ghost var vs := StyleValues(before[..i], PORTRAIT.name);
        ghost var one := StyleValues([before[i]], PORTRAIT.name);
        StyleValuesStep(before, i, PORTRAIT.name);
        ApplyAllConcat(start, vs, one, colors, config, w);
        HandleGlyph(glyphs, i, colors, w);
        i := i + 1;
      }
      assert before[..glyphs.Length] == before;
    }
  }
}
