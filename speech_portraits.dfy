/** Speech portraits from tiles (src/speech-portraits-from-tiles.js): the
    visual-novel variant of dialogue portraits. `@@X,S,F,B,O@@` styles the
    character that follows it as `portrait`; the last such style on a page
    picks the tile X, its side and its palette colours, and the renderer
    draws the tile, scaled up, at a fixed place above the speech panel. */
module SpeechPortraits {
  import opened Host
  import opened Markup
  import DP = DialoguePortraits

  const MARKER: char := '@'
  const PORTRAIT: Style := Style("portrait", true)
  const OFFSET_X_LEFT: int := 24
  const OFFSET_X_RIGHT: int := 232

  /** The tags the prefix step puts around the first character. */
  const NO_PORTRAIT_OPEN: string := "{portrait=-1}"
  const PORTRAIT_CLOSE: string := "{-portrait}"
  const PORTRAIT_PREFIX: string := "{portrait="

  // ---------------------------------------------------------------------
  // Rewriting the text

  /** The prefix step as written (src/speech-portraits-from-tiles.js:159-161):
      unless the text starts with a portrait style, its first character is
      wrapped in a "no portrait" style. On empty text `text[0]` is
      `undefined`, which the template turns into the word "undefined". */
  function PrefixAsWritten(text: string): string
  {
    if StartsPortrait(text) then text
    else NO_PORTRAIT_OPEN + (if text == [] then "undefined" else text[..1]) + PORTRAIT_CLOSE +
         (if text == [] then [] else text[1..])
  }

  /** The prefix step as intended: the first character, if there is one,
      is wrapped; empty text gains only the tags. */
  function Prefix(text: string): string
  {
    if StartsPortrait(text) then text
    else NO_PORTRAIT_OPEN + text[..Min(1, |text|)] + PORTRAIT_CLOSE + text[Min(1, |text|)..]
  }

  /** `text.startsWith('{portrait=')`. */
  predicate StartsPortrait(text: string)
  {
    |text| >= |PORTRAIT_PREFIX| && text[..|PORTRAIT_PREFIX|] == PORTRAIT_PREFIX
  }

  function Min(a: int, b: int): int
  {
    if a < b then a else b
  }

  /** The intended prefix step: every result starts with a portrait
      style; the text is kept exactly when it already does; otherwise only
      the two tags are added, around its first character (nothing, on
      empty text), the characters kept in order; and a second step changes
      nothing. */
  lemma PrefixKeepsText(text: string)
    ensures StartsPortrait(Prefix(text))
    ensures Prefix(text) == text <==> StartsPortrait(text)
    ensures !StartsPortrait(text) ==>
              exists x, y :: x + y == text && |x| == Min(1, |text|) &&
                             Prefix(text) == NO_PORTRAIT_OPEN + x + PORTRAIT_CLOSE + y
    ensures Prefix(Prefix(text)) == Prefix(text)
  {
    if !StartsPortrait(text) {
      var k := Min(1, |text|);
      assert text[..k] + text[k..] == text;
      OpenStartsPortrait(text[..k] + PORTRAIT_CLOSE + text[k..]);
    }
  }

  /** The "no portrait" tag is itself a portrait style. */
  lemma OpenStartsPortrait(rest: string)
    ensures StartsPortrait(NO_PORTRAIT_OPEN + rest)
  {
    assert (NO_PORTRAIT_OPEN + rest)[..|PORTRAIT_PREFIX|] == NO_PORTRAIT_OPEN[..|PORTRAIT_PREFIX|];
  }

  /** As written, empty text gains a visible word: the styled part is
      "undefined" although the text has no character. */
  lemma PrefixAsWrittenEmpty()
    ensures PrefixAsWritten("") == NO_PORTRAIT_OPEN + "undefined" + PORTRAIT_CLOSE
    ensures Prefix("") == NO_PORTRAIT_OPEN + PORTRAIT_CLOSE
    ensures PrefixAsWritten("") != Prefix("")
  {
    assert |NO_PORTRAIT_OPEN + "undefined" + PORTRAIT_CLOSE| != |NO_PORTRAIT_OPEN + PORTRAIT_CLOSE|;
  }

  /** The two agree on every non-empty text. */
  lemma PrefixAgrees(text: string)
    requires text != []
    ensures PrefixAsWritten(text) == Prefix(text)
  {
  }

  /** `portraitFakedownToTag` (src/speech-portraits-from-tiles.js:141-164):
      text with an odd number of markers is returned as it is, without the
      prefix step. */
  function FakedownToTag(text: string): string
  {
    if MatchCount(text, MARKER) % 2 != 0 then text else Prefix(Tagged(text, MARKER, PORTRAIT))
  }

  /** The rewriting with the prefix step. */
  method PortraitFakedownToTag(text: string) returns (out: string)
    requires NoTriple(text, MARKER)
    ensures out == FakedownToTag(text)
    ensures MatchCount(text, MARKER) % 2 == 0 ==> MarkerFree(out, MARKER)
  {
    var replaced;
    out, replaced := RewriteMarkers(text, MARKER, PORTRAIT);
    if MatchCount(text, MARKER) % 2 != 0 {
      return;
    }
    ghost var tagged := out;
    if !StartsPortrait(out) {
      var k := Min(1, |out|);
      out := NO_PORTRAIT_OPEN + out[..k] + PORTRAIT_CLOSE + out[k..];
      PrefixFree(tagged, k);
    }
  }

  /** Wrapping the first character of marker-free text keeps it
      marker-free. */
  lemma PrefixFree(t: string, k: nat)
    requires MarkerFree(t, MARKER) && k == Min(1, |t|)
    ensures MarkerFree(NO_PORTRAIT_OPEN + t[..k] + PORTRAIT_CLOSE + t[k..], MARKER)
  {
    var head := NO_PORTRAIT_OPEN + t[..k] + PORTRAIT_CLOSE;
    assert MarkerFree(head, MARKER) by {
      if k == 1 {
        assert t[0] != MARKER || !MarkerAt(t, MARKER, 0);
        forall i | 0 <= i < |head| ensures !MarkerAt(head, MARKER, i) {
          if i == |NO_PORTRAIT_OPEN| - 1 || i == |NO_PORTRAIT_OPEN| {
            assert head[|NO_PORTRAIT_OPEN| - 1] == '}' && head[|NO_PORTRAIT_OPEN| + 1] == '{';
          }
        }
      } else {
        MarkerFreeWithout(head, MARKER);
      }
    }
    assert MarkerFree(t[k..], MARKER) by {
      SliceFree(t, MARKER, k, |t|);
      assert t[k..|t|] == t[k..];
    }
    MarkerFreeConcat(head, t[k..], MARKER);
  }

  // ---------------------------------------------------------------------
  // Configuration and arguments

  /** The plugin's configuration: the portrait's scale, its top offset
      (`None` when the configured text is not a number), the default border
      colour and the default side. */
  datatype Config = Config(scale: int, offsetY: Option<int>, defaultBorder: int, defaultSide: int)

  /** The configuration read from the plugin's text fields
      (src/speech-portraits-from-tiles.js:54-70): the scale defaults to 5;
      a missing or empty vertical offset is 190; the default border falls
      back to 0 outside 0..7, and the default side to 0 unless it equals 0
      or 1. */
  function ConfigFrom(scale: Option<string>, offset: Option<string>, border: Option<string>, side: Option<string>): (c: Config)
    ensures c.scale != 0
    ensures DP.IsPaletteIndex(c.defaultBorder) && DP.IsSide(c.defaultSide)
  {
    Config(DP.OrDefault(ParseArg(scale), 5), OffsetFrom(offset), BorderFrom(border), SideFrom(side))
  }

  /** `parseInt(x)` with no radix, of a value that may be `undefined`:
      unlike the dist plugin, a `0x` prefix reads the digits as
      hexadecimal. */
  function ParseArg(text: Option<string>): Option<int>
  {
    match text
    case None => None
    case Some(t) => ParseIntAnyRadix(t)
  }

  /** `FIELD(...) || 190`: the text itself, read as a number where it is
      used in arithmetic. */
  function OffsetFrom(offset: Option<string>): Option<int>
  {
    if offset.None? || offset.value == "" then Some(190) else ToNumber(offset.value)
  }

  function BorderFrom(border: Option<string>): (b: int)
    ensures DP.IsPaletteIndex(b)
  {
    var b := DP.OrDefault(ParseArg(border), 0);
    if DP.IsPaletteIndex(b) then b else 0
  }

  /** The loose comparison `side != 0 && side != 1` reads the text as a
      number. */
  function SideFrom(side: Option<string>): (s: int)
    ensures DP.IsSide(s)
  {
    var sd := if side.Some? then ToNumber(side.value) else None;
    if sd.Some? && DP.IsSide(sd.value) then sd.value else 0
  }

  /** Missing settings get the defaults 5, 190, 0 and 0. */
  lemma ConfigFromDefaults()
    ensures ConfigFrom(None, None, None, None) == Config(5, Some(190), 0, 0)
  {
  }

  /** Configured numbers in range are taken as written. */
  lemma ConfigFromValues(scale: nat, offset: nat, border: nat, side: nat)
    requires scale > 0 && border <= 7 && side <= 1
    ensures ConfigFrom(Some(NatToString(scale)), Some(NatToString(offset)),
                       Some(NatToString(border)), Some(NatToString(side)))
            == Config(scale, Some(offset), border, side)
  {
    ScaleOfNat(scale);
    BorderOfNat(border);
    OffsetOfNat(offset);
    SideOfNat(side);
  }

  lemma ScaleOfNat(scale: nat)
    requires scale > 0
    ensures DP.OrDefault(ParseArg(Some(NatToString(scale))), 5) == scale
  {
    AnyRadixOfNat(scale);
  }

  lemma BorderOfNat(border: nat)
    requires border <= 7
    ensures BorderFrom(Some(NatToString(border))) == border
  {
    AnyRadixOfNat(border);
  }

  lemma OffsetOfNat(offset: nat)
    ensures OffsetFrom(Some(NatToString(offset))) == Some(offset)
  {
    ToNumberOfNat(offset);
  }

  lemma SideOfNat(side: nat)
    requires side <= 1
    ensures SideFrom(Some(NatToString(side))) == side
  {
    ToNumberOfNat(side);
  }

  /** A hexadecimal default border is read as such here, where the dist
      plugin's base-10 parse reads `0x7` as 0. */
  lemma HexBorder()
    ensures BorderFrom(Some("0x7")) == 7
    ensures DP.ConfigFrom(None, None, Some("0x7"), None).defaultBorder == 0
  {
    AnyRadixHex();
  }

  /** The side, colours and portrait id the last style asked for. */
  datatype View = View(id: int, side: int, fg: int, bg: int, border: int)

  /** The applyStyle handling of one `portrait` style value
      (src/speech-portraits-from-tiles.js:111-137): an id that is NaN or
      below -1 becomes -1 (no portrait). */
  function Sanitised(value: string, colors: Option<DP.Colors>, cfg: Config): View
  {
    var args := Split(value, ',');
    var id := ParseIntAnyRadix(args[0]);
    var side := ParseArg(DP.Arg(args, 1));
    var ec := if colors.Some? then colors.value else DP.Colors(3, 1);
    View(if id.None? || id.value < -1 then -1 else id.value,
         if side.Some? && DP.IsSide(side.value) then side.value else cfg.defaultSide,
         DP.ColorArg(ParseArg(DP.Arg(args, 2)), ec.fg),
         DP.ColorArg(ParseArg(DP.Arg(args, 3)), ec.bg),
         DP.ColorArg(ParseArg(DP.Arg(args, 4)), cfg.defaultBorder))
  }

  /** The id is at least -1; each other argument is kept exactly when it is
      valid and otherwise takes its fallback. */
  lemma SanitiseRule(value: string, colors: Option<DP.Colors>, cfg: Config)
    ensures var args := Split(value, ',');
            var v := Sanitised(value, colors, cfg);
            var id := ParseIntAnyRadix(args[0]);
            var ec := if colors.Some? then colors.value else DP.Colors(3, 1);
            var side := ParseArg(DP.Arg(args, 1));
            var fg := ParseArg(DP.Arg(args, 2));
            var bg := ParseArg(DP.Arg(args, 3));
            var border := ParseArg(DP.Arg(args, 4));
            v.id >= -1 &&
            (id.Some? && id.value >= -1 ==> v.id == id.value) &&
            (id.None? || id.value < -1 ==> v.id == -1) &&
            (side.Some? && DP.IsSide(side.value) ==> v.side == side.value) &&
            (!(side.Some? && DP.IsSide(side.value)) ==> v.side == cfg.defaultSide) &&
            (fg.Some? && DP.IsPaletteIndex(fg.value) ==> v.fg == fg.value) &&
            (!(fg.Some? && DP.IsPaletteIndex(fg.value)) ==> v.fg == ec.fg) &&
            (bg.Some? && DP.IsPaletteIndex(bg.value) ==> v.bg == bg.value) &&
            (!(bg.Some? && DP.IsPaletteIndex(bg.value)) ==> v.bg == ec.bg) &&
            (border.Some? && DP.IsPaletteIndex(border.value) ==> v.border == border.value) &&
            (!(border.Some? && DP.IsPaletteIndex(border.value)) ==> v.border == cfg.defaultBorder)
  {
  }

  /** The values of every glyph's `portrait` style, hidden or not, in page
      order. */
  function PortraitValues(glyphs: seq<Glyph>): (vs: seq<string>)
    ensures |vs| <= |glyphs|
  {
    if glyphs == [] then []
    else PortraitValues(glyphs[..|glyphs| - 1]) +
         (var g := glyphs[|glyphs| - 1]; if PORTRAIT.name in g.styles then [g.styles[PORTRAIT.name]] else [])
  }

  /** One `portrait` style replaces the whole view. */
  function ApplyOne(v: View, value: string, colors: Option<DP.Colors>, cfg: Config): View
  {
    Sanitised(value, colors, cfg)
  }

  /** The styles of a page, handled in order. */
  function ApplyAll(v: View, values: seq<string>, colors: Option<DP.Colors>, cfg: Config): View
  {
    if values == [] then v
    else ApplyOne(ApplyAll(v, values[..|values| - 1], colors, cfg), values[|values| - 1], colors, cfg)
  }

  /** The last style of the page decides; a page without one keeps the
      view. */
  lemma ApplyAllLast(v: View, values: seq<string>, colors: Option<DP.Colors>, cfg: Config)
    ensures values == [] ==> ApplyAll(v, values, colors, cfg) == v
    ensures values != [] ==> ApplyAll(v, values, colors, cfg) == Sanitised(values[|values| - 1], colors, cfg)
  {
  }

  lemma PortraitValuesStep(glyphs: seq<Glyph>, i: nat)
    requires i < |glyphs|
    ensures PortraitValues(glyphs[..i + 1]) ==
            PortraitValues(glyphs[..i]) + (if PORTRAIT.name in glyphs[i].styles then [glyphs[i].styles[PORTRAIT.name]] else [])
  {
    assert glyphs[..i + 1][..i] == glyphs[..i];
  }

  lemma ApplyAllSnoc(v: View, values: seq<string>, x: string, colors: Option<DP.Colors>, cfg: Config)
    ensures ApplyAll(v, values + [x], colors, cfg) == ApplyOne(ApplyAll(v, values, colors, cfg), x, colors, cfg)
  {
    assert (values + [x])[..|values|] == values;
  }

  // ---------------------------------------------------------------------
  // Layout

  /** A square on the dialogue canvas. */
  datatype Square = Square(x: int, y: int, size: int)

  /** The portrait sprite: where it goes, the tile frame it shows (`None`
      when the tile has no frames) and whether it is flipped. */
  datatype Sprite = Sprite(at: Square, frame: Option<nat>, mirrored: bool)

  /** What the render hook draws: the border square and its fill, the
      background square (only for a background colour above 0), and the
      sprite (only for a foreground colour above 0). */
  datatype Drawing = Drawing(border: Square, borderFill: DP.Fill, background: Option<Square>, sprite: Option<Sprite>)

  /** The render hook's result: the anchor the panel is drawn with, and the
      portrait, if one is drawn. */
  datatype Rendered = Rendered(anchorY: real, portrait: Option<Drawing>)

  function SquareAt(x: int, y: int, scale: int, inset: int, units: int): Square
  {
    Square(x + inset * scale, y + inset * scale, units * scale)
  }

  /** The render hook (src/speech-portraits-from-tiles.js:172-241): with no
      portrait the original renderer runs alone; otherwise the panel moves
      to the bottom and the portrait is drawn. Looking up tile `id - 1`
      throws when there is no such tile, and the sprite is skipped when the
      configured offset is not a number. */
  function Render(v: View, cfg: Config, tiles: seq<seq<nat>>, frameCount: nat, anchorY: real): Result<Rendered>
  {
    if v.id < 0 then Ok(Rendered(anchorY, None))
    else if v.fg > 0 && !(1 <= v.id <= |tiles|) then Err("tile " + NatToString(v.id) + " is missing")
    else if cfg.offsetY.None? then Ok(Rendered(1.0, None))
    else
      var frames := if 1 <= v.id <= |tiles| then tiles[v.id - 1] else [];
      Ok(Rendered(1.0, Some(Draw(v, cfg.scale, cfg.offsetY.value, Frame(frames, frameCount)))))
  }

  /** The frame shown at `frameCount`: `frames[frameCount % n]`, nothing
      for a tile without frames. */
  function Frame(frames: seq<nat>, frameCount: nat): Option<nat>
  {
    if frames == [] then None else Some(frames[frameCount % |frames|])
  }

  /** The portrait's squares around the border's top-left corner. */
  function Draw(v: View, scale: int, offsetY: int, frame: Option<nat>): Drawing
  {
    var x := if v.side == 1 then OFFSET_X_RIGHT - 12 * scale else OFFSET_X_LEFT;
    var y := offsetY - 12 * scale;
    Drawing(SquareAt(x, y, scale, 0, 12),
            if v.border == 0 then DP.PanelFill else DP.PaletteFill(v.border),
            if v.bg > 0 then Some(SquareAt(x, y, scale, 1, 10)) else None,
            if v.fg > 0 then Some(Sprite(SquareAt(x, y, scale, 2, 8), frame, v.side == 1)) else None)
  }

  /** An id below 0 draws nothing and leaves the anchor as it is; any
      other id puts the panel at the bottom. */
  lemma RenderNoPortrait(v: View, cfg: Config, tiles: seq<seq<nat>>, frameCount: nat, anchorY: real)
    ensures v.id < 0 ==> Render(v, cfg, tiles, frameCount, anchorY) == Ok(Rendered(anchorY, None))
    ensures v.id >= 0 && Render(v, cfg, tiles, frameCount, anchorY).Ok? ==> Render(v, cfg, tiles, frameCount, anchorY).value.anchorY == 1.0
  {
  }

  /** The background is inset by one scale unit and the sprite by two on
      every side of the 12-unit border square, which sits 12 units above
      the offset, 24 pixels from the left or ending at 232 on the right.
      The border takes the panel colour for border colour 0, and the
      sprite is flipped on the right. */
  lemma RenderGeometry(v: View, cfg: Config, tiles: seq<seq<nat>>, frameCount: nat, anchorY: real)
    requires Render(v, cfg, tiles, frameCount, anchorY).Ok?
    requires Render(v, cfg, tiles, frameCount, anchorY).value.portrait.Some?
    ensures var d := Render(v, cfg, tiles, frameCount, anchorY).value.portrait.value;
            var b := d.border;
            b.size == 12 * cfg.scale && b.y + b.size == cfg.offsetY.value &&
            (v.side == 1 ==> b.x + b.size == OFFSET_X_RIGHT) && (v.side != 1 ==> b.x == OFFSET_X_LEFT) &&
            (d.background.Some? <==> v.bg > 0) && (d.sprite.Some? <==> v.fg > 0) &&
            (d.background.Some? ==> var g := d.background.value;
               g.x - b.x == cfg.scale && (b.x + b.size) - (g.x + g.size) == cfg.scale &&
               g.y - b.y == cfg.scale && (b.y + b.size) - (g.y + g.size) == cfg.scale) &&
            (d.borderFill == DP.PanelFill <==> v.border == 0) &&
            (v.border != 0 ==> d.borderFill == DP.PaletteFill(v.border)) &&
            (d.sprite.Some? ==> d.sprite.value.mirrored == (v.side == 1)) &&
            (d.sprite.Some? ==> var s := d.sprite.value.at;
               s.x - b.x == 2 * cfg.scale && (b.x + b.size) - (s.x + s.size) == 2 * cfg.scale &&
               s.y - b.y == 2 * cfg.scale && (b.y + b.size) - (s.y + s.size) == 2 * cfg.scale)
  {
  }

  /** The sprite shows tile `id - 1`'s frames in turn, one per frame
      counted, repeating after as many frames as the tile has. */
  lemma RenderFrameCycles(v: View, cfg: Config, tiles: seq<seq<nat>>, frameCount: nat, anchorY: real)
    requires v.id >= 1 && v.id <= |tiles| && v.fg > 0 && cfg.offsetY.Some? && tiles[v.id - 1] != []
    ensures var frames := tiles[v.id - 1];
            var r := Render(v, cfg, tiles, frameCount, anchorY);
            r.Ok? && r.value.portrait.Some? &&
            r.value.portrait.value.sprite.value.frame == Some(frames[frameCount % |frames|]) &&
            Render(v, cfg, tiles, frameCount + |frames|, anchorY) == r
  {
    FrameCycles(tiles[v.id - 1], frameCount);
  }

  /** Frames repeat after as many frames as the tile has. */
  lemma FrameCycles(frames: seq<nat>, frameCount: nat)
    ensures Frame(frames, frameCount + |frames|) == Frame(frames, frameCount)
  {
    if frames != [] {
      ModShift(frameCount, |frames|);
    }
  }

  /** A foreground colour with no tile at `id - 1` makes the renderer
      throw. */
  lemma RenderMissingTile(v: View, cfg: Config, tiles: seq<seq<nat>>, frameCount: nat, anchorY: real)
    requires v.id >= 0 && v.fg > 0 && (v.id == 0 || v.id > |tiles|)
    ensures Render(v, cfg, tiles, frameCount, anchorY).Err?
  {
  }

  // ---------------------------------------------------------------------
  // The plugin's state

  class Portraits {
    const config: Config
    var id: int
    var side: int
    var fg: int
    var bg: int
    var border: int

    function State(): View
      reads this
    {
      View(id, side, fg, bg, border)
    }

    /** The state when the plugin loads (src/speech-portraits-from-tiles.js:50-53). */
    constructor(config: Config)
      ensures this.config == config
      ensures State() == View(-1, 0, 3, 1, 0)
    {
      this.config := config;
      id, side, fg, bg, border := -1, 0, 3, 1, 0;
    }

    /** One `portrait` style value (src/speech-portraits-from-tiles.js:111-137). */
    method HandleStyle(value: string, colors: Option<DP.Colors>)
      modifies this
      ensures State() == ApplyOne(old(State()), value, colors, config)
    {
      var v := Sanitised(value, colors, config);
      id, side, fg, bg, border := v.id, v.side, v.fg, v.bg, v.border;
    }

    /** The applyStyle replacement: every glyph with a `portrait` style,
        hidden or not, sets the state; the styles are left in place. */
    method ApplyStyle(glyphs: seq<Glyph>, colors: Option<DP.Colors>)
      modifies this
      ensures State() == ApplyAll(old(State()), PortraitValues(glyphs), colors, config)
    {
      var i := 0;
      while i < |glyphs|
        invariant 0 <= i <= |glyphs|
        invariant State() == ApplyAll(old(State()), PortraitValues(glyphs[..i]), colors, config)
      {
        PortraitValuesStep(glyphs, i);
        var g := glyphs[i];
        if PORTRAIT.name in g.styles {
          ApplyAllSnoc(old(State()), PortraitValues(glyphs[..i]), g.styles[PORTRAIT.name], colors, config);
          HandleStyle(g.styles[PORTRAIT.name], colors);
        } else {
          assert PortraitValues(glyphs[..i]) + [] == PortraitValues(glyphs[..i]);
        }
        i := i + 1;
      }
      assert glyphs[..|glyphs|] == glyphs;
    }
  }
}
