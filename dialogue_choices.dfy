/** Dialogue choices (dist/dialogue-choices.js): `sayChoices` shows a
    preamble and up to one row per choice key; the first key pressed that
    belongs to a listed choice picks it, once, and `runChoice` acts on the
    chosen result. While choices are pending the dialogue does not
    proceed. */
module DialogueChoices {
  import opened Host

  /** A `choice-keys` entry: the symbol the row shows (`char`), and the `key` values that
      pick it. */
  datatype ChoiceKey = ChoiceKey(symbol: string, codes: seq<string>)

  /** The plugin's configuration: the choice keys, the blank lines between
      preamble and choices, and the dialogue's line and character widths
      in pixels. */
  datatype Config = Config(keys: seq<ChoiceKey>, separation: nat, lineWidth: nat, charWidth: nat)

  // ---------------------------------------------------------------------
  // Choice results and runChoice

  /** A choice's result, by its JavaScript type: a function, a string, an
      object (a location, or a `javascript` or `location` field), `null`,
      or anything else (`undefined`, numbers, booleans), with its
      truthiness. */
  datatype ChoiceResult =
    | FunctionResult(id: nat)
    | TextResult(text: string)
    | ObjectResult(room: Option<int>, position: Option<(int, int)>, key: string, data: ChoiceResult, kind: string)
    | NullResult
    | OtherResult(truthy: bool)

  predicate Truthy(v: ChoiceResult)
  {
    match v
    case FunctionResult(_) => true
    case TextResult(t) => t != ""
    case ObjectResult(_, _, _, _, _) => true
    case NullResult => false
    case OtherResult(t) => t
  }

  /** A cell of a room. */
  datatype Location = Location(room: int, x: int, y: int)

  /** What running a choice does. */
  datatype Effect =
    | Handled(handler: nat)      // a custom handler returned truthy
    | Called(id: nat)            // the function was called
    | Said(text: string)         // the string was said
    | Touched(event: nat)        // the event at the location was touched
    | RanScript(code: ChoiceResult) // the javascript field's data was run
    | NoEffect
    | Warned                     // an unhandled type only warns
    | Threw                      // reading `.room` of null throws

  /** The object test of the location branch. As written
      (dist/dialogue-choices.js:201) the room number must be truthy, so a
      location in room 0 is not one; `roomZero` says whether room 0
      counts. */
  predicate IsLocation(r: ChoiceResult, roomZero: bool)
    requires r.ObjectResult?
  {
    r.room.Some? && (roomZero || r.room.value != 0) && r.position.Some?
  }

  /** The native dispatch of `runChoice` (dist/dialogue-choices.js:192-219),
      after no custom handler took the result. A `location` field runs its
      data as a new choice, custom handlers included. */
  function Dispatch(r: ChoiceResult, handlers: nat, accepts: (nat, ChoiceResult) -> bool,
                    events: map<Location, nat>, roomZero: bool): Effect
    decreases r, 0
  {
    match r
    case FunctionResult(id) => Called(id)
    case TextResult(t) => Said(t)
    case NullResult => Threw
    case OtherResult(_) => Warned
    case ObjectResult(room, position, key, data, kind) =>
      if IsLocation(r, roomZero) then
        var loc := Location(room.value, position.value.0, position.value.1);
        if loc in events then Touched(events[loc]) else NoEffect
      else if key != "" && Truthy(data) && kind == "javascript" then RanScript(data)
      else if key != "" && Truthy(data) && kind == "location" then Run(data, handlers, accepts, events, roomZero)
      else NoEffect
  }

  /** `runChoice` (dist/dialogue-choices.js:176-220): the custom handlers
      run in order and the first that returns truthy ends it; otherwise the
      result is dispatched on its type. `accepts(i, r)` is what handler `i`
      returns for `r`. */
  /** Whether custom handler `i` takes `r`. */
  function Takes(accepts: (nat, ChoiceResult) -> bool, r: ChoiceResult): nat -> bool
  {
    (i: nat) => accepts(i, r)
  }

  function Run(r: ChoiceResult, handlers: nat, accepts: (nat, ChoiceResult) -> bool,
               events: map<Location, nat>, roomZero: bool): Effect
    decreases r, 1
  {
    var h := First(handlers, Takes(accepts, r));
    if h.Some? then Handled(h.value) else Dispatch(r, handlers, accepts, events, roomZero)
  }

  /** `runChoice` as written: a location in room 0 is not recognised. */
  function RunChoiceAsWritten(r: ChoiceResult, handlers: nat, accepts: (nat, ChoiceResult) -> bool,
                              events: map<Location, nat>): Effect
  {
    Run(r, handlers, accepts, events, false)
  }

  /** `runChoice` as intended: every room id, 0 included, is a room. */
  function RunChoice(r: ChoiceResult, handlers: nat, accepts: (nat, ChoiceResult) -> bool,
                     events: map<Location, nat>): Effect
  {
    Run(r, handlers, accepts, events, true)
  }

  /** A handler that takes the result wins, and the lowest such handler;
      when none takes it, the result is dispatched on its type. */
  lemma HandlersFirst(r: ChoiceResult, handlers: nat, accepts: (nat, ChoiceResult) -> bool, events: map<Location, nat>)
    ensures (exists i :: 0 <= i < handlers && accepts(i, r)) ==>
              RunChoice(r, handlers, accepts, events).Handled? &&
              var i := RunChoice(r, handlers, accepts, events).handler;
              i < handlers && accepts(i, r) && forall j :: 0 <= j < i ==> !accepts(j, r)
    ensures (forall i :: 0 <= i < handlers ==> !accepts(i, r)) ==>
              RunChoice(r, handlers, accepts, events) == Dispatch(r, handlers, accepts, events, true)
  {
    var p := Takes(accepts, r);
    FirstRule(handlers, p);
    if First(handlers, p).Some? {
      var i := First(handlers, p).value;
      assert p(i);
      forall j | 0 <= j < i ensures !accepts(j, r) {
        assert !p(j);
      }
    } else {
      forall i | 0 <= i < handlers ensures !accepts(i, r) {
        assert !p(i);
      }
    }
  }

  /** A `location` field that no handler takes is run as its data. */
  lemma LocationFieldDelegates(r: ChoiceResult, handlers: nat, accepts: (nat, ChoiceResult) -> bool, events: map<Location, nat>)
    requires r.ObjectResult? && !IsLocation(r, true)
    requires r.key != "" && Truthy(r.data) && r.kind == "location"
    requires forall i :: 0 <= i < handlers ==> !accepts(i, r)
    ensures RunChoice(r, handlers, accepts, events) == RunChoice(r.data, handlers, accepts, events)
  {
    var p := Takes(accepts, r);
    FirstRule(handlers, p);
    assert forall i :: 0 <= i < handlers ==> !p(i);
    assert Run(r, handlers, accepts, events, true) == Dispatch(r, handlers, accepts, events, true);
  }

  /** A location that no handler takes, in any room (0 included), touches
      the event standing there, and does nothing when there is none. */
  lemma LocationTouches(r: ChoiceResult, handlers: nat, accepts: (nat, ChoiceResult) -> bool, events: map<Location, nat>)
    requires r.ObjectResult? && r.room.Some? && r.position.Some?
    requires forall i :: 0 <= i < handlers ==> !accepts(i, r)
    ensures var loc := Location(r.room.value, r.position.value.0, r.position.value.1);
            RunChoice(r, handlers, accepts, events) == if loc in events then Touched(events[loc]) else NoEffect
  {
    var p := Takes(accepts, r);
    FirstRule(handlers, p);
    assert forall i :: 0 <= i < handlers ==> !p(i);
    assert Run(r, handlers, accepts, events, true) == Dispatch(r, handlers, accepts, events, true);
  }

  /** Only an event found at some location is ever touched. */
  lemma {:induction false} TouchesOnlyEvents(r: ChoiceResult, handlers: nat, accepts: (nat, ChoiceResult) -> bool,
                                             events: map<Location, nat>, roomZero: bool)
    ensures Run(r, handlers, accepts, events, roomZero).Touched? ==>
              Run(r, handlers, accepts, events, roomZero).event in events.Values
    decreases r
  {
    if r.ObjectResult? && !IsLocation(r, roomZero) {
      TouchesOnlyEvents(r.data, handlers, accepts, events, roomZero);
    } else if r.ObjectResult? && First(handlers, Takes(accepts, r)).None? {
      var loc := Location(r.room.value, r.position.value.0, r.position.value.1);
      if loc in events {
        assert events[loc] in events.Values;
      }
    }
  }

  /** No object in the result, its data included, names room 0. */
  predicate NoRoomZero(r: ChoiceResult)
  {
    r.ObjectResult? ==> r.room != Some(0) && NoRoomZero(r.data)
  }

  /** Away from room 0 the code as written does what is intended. */
  lemma {:induction false} AsWrittenAgrees(r: ChoiceResult, handlers: nat, accepts: (nat, ChoiceResult) -> bool, events: map<Location, nat>)
    requires NoRoomZero(r)
    ensures RunChoiceAsWritten(r, handlers, accepts, events) == RunChoice(r, handlers, accepts, events)
    decreases r
  {
    if r.ObjectResult? {
      AsWrittenAgrees(r.data, handlers, accepts, events);
      assert IsLocation(r, false) == IsLocation(r, true);
      assert Run(r.data, handlers, accepts, events, false) == Run(r.data, handlers, accepts, events, true);
    }
    assert Dispatch(r, handlers, accepts, events, false) == Dispatch(r, handlers, accepts, events, true);
    assert Run(r, handlers, accepts, events, false) == Run(r, handlers, accepts, events, true);
  }

  /** A choice that leads to an event in room 0: as written nothing
      happens, although an event is there; as intended it is touched. */
  lemma RoomZeroIgnored()
    ensures var r := ObjectResult(Some(0), Some((3, 4)), "", OtherResult(false), "");
            var events := map[Location(0, 3, 4) := 7];
            RunChoiceAsWritten(r, 0, (i, v) => false, events) == NoEffect &&
            RunChoice(r, 0, (i, v) => false, events) == Touched(7)
  {
  }

  // ---------------------------------------------------------------------
  // Line counting

  /** The rows a line of `len` characters takes: `floor(len / (W / C)) + 1`
      taken in exact arithmetic, that is `floor(len * C / W) + 1`.  The
      plugin divides in floating point, which can land just below a whole
      quotient when C does not divide W (see LineRowsWholeQuotient). */
  function LineRows(len: nat, cfg: Config): nat
    requires cfg.lineWidth > 0
  {
    len * cfg.charWidth / cfg.lineWidth + 1
  }

  /** When the character width divides the line width (192 and 6, the
      values the plugin's configuration fields start with, do), `W / C` is a whole
      number of characters per row and
      the rows are the line length divided by it, so the exact count is the
      one floating point gives. */
  lemma LineRowsWholeQuotient(len: nat, cfg: Config)
    requires cfg.lineWidth > 0 && cfg.charWidth > 0 && cfg.lineWidth % cfg.charWidth == 0
    ensures LineRows(len, cfg) == len / (cfg.lineWidth / cfg.charWidth) + 1
  {
    var w, c := cfg.lineWidth, cfg.charWidth;
    var q := w / c;
    WholeQuotient(w, c);
    var k, r := len / q, len % q;
    ScaledDivision(len, k, q, r, c);
    DivUnique(len * c, w, k, r * c);
  }

  lemma WholeQuotient(w: nat, c: nat)
    requires w > 0 && c > 0 && w % c == 0
    ensures w / c > 0 && w == (w / c) * c
  {
  }

  /** Scaling `len == k * q + r` by `c` keeps the remainder below `q * c`. */
  lemma ScaledDivision(len: nat, k: nat, q: nat, r: nat, c: nat)
    requires q > 0 && k == len / q && r == len % q
    ensures len * c == k * (q * c) + r * c && r * c <= q * c - c
  {
    assert len == k * q + r;
    assert r <= q - 1;
    MulMono(r, q - 1, c);
    assert (k * q + r) * c == k * (q * c) + r * c;
  }

  lemma MulMono(x: nat, y: nat, c: nat)
    requires x <= y
    ensures x * c <= y * c
  {
    var g: nat := y - x;
    assert y * c == x * c + g * c;
  }

  /** `a / b` is the `k` with `a == k * b + m` and `0 <= m < b`. */
  lemma DivUnique(a: nat, b: nat, k: nat, m: nat)
    requires b > 0 && a == k * b + m && m < b
    ensures a / b == k
  {
    var d := a / b;
    assert a == d * b + a % b;
    MulGap(d, k, b);
    MulGap(k, d, b);
  }

  /** Multiples of `b` with different factors lie at least `b` apart. */
  lemma MulGap(x: nat, y: nat, b: nat)
    ensures x > y ==> x * b >= y * b + b
  {
    if x > y {
      var g: nat := x - y - 1;
      assert x * b == y * b + b + g * b;
    }
  }

  /** The rows of all lines. */
  function LineTotal(lines: seq<string>, cfg: Config): nat
    requires cfg.lineWidth > 0
  {
    if lines == [] then 0 else LineTotal(lines[..|lines| - 1], cfg) + LineRows(|lines[|lines| - 1]|, cfg)
  }

  /** `calculateLineCountOfDialogueText` as a function of the text. */
  function LineCountOf(text: string, cfg: Config): nat
    requires cfg.lineWidth > 0
  {
    if IsBlank(text) then 0 else LineTotal(Split(text, '\n'), cfg)
  }

  /** Every line takes at least one row, and exactly one unless some line
      is too wide for a row. */
  lemma {:induction false} LineTotalBounds(lines: seq<string>, cfg: Config)
    requires cfg.lineWidth > 0
    ensures LineTotal(lines, cfg) >= |lines|
    ensures LineTotal(lines, cfg) == |lines| <==>
              forall k :: 0 <= k < |lines| ==> |lines[k]| * cfg.charWidth < cfg.lineWidth
  {
    if lines != [] {
      var init := lines[..|lines| - 1];
      LineTotalBounds(init, cfg);
      var last := |lines[|lines| - 1]|;
      assert LineRows(last, cfg) == 1 <==> last * cfg.charWidth < cfg.lineWidth;
      assert forall k :: 0 <= k < |init| ==> init[k] == lines[k];
    }
  }

  lemma {:induction false} LineTotalConcat(xs: seq<string>, ys: seq<string>, cfg: Config)
    requires cfg.lineWidth > 0
    ensures LineTotal(xs + ys, cfg) == LineTotal(xs, cfg) + LineTotal(ys, cfg)
    decreases |ys|
  {
    if ys == [] {
      assert xs + ys == xs;
    } else {
      assert (xs + ys)[..|xs + ys| - 1] == xs + ys[..|ys| - 1];
      LineTotalConcat(xs, ys[..|ys| - 1], cfg);
    }
  }

  /** Blank text takes no row; any other text at least one per line. */
  lemma LineCountAtLeastLines(text: string, cfg: Config)
    requires cfg.lineWidth > 0
    ensures IsBlank(text) ==> LineCountOf(text, cfg) == 0
    ensures !IsBlank(text) ==> LineCountOf(text, cfg) >= Count(text, '\n') + 1
  {
    SplitCount(text, '\n');
    LineTotalBounds(Split(text, '\n'), cfg);
  }

  /** The line counting loop (dist/dialogue-choices.js:165-173). */
  method CalculateLineCount(text: string, cfg: Config) returns (result: nat)
    requires cfg.lineWidth > 0
    ensures result == LineCountOf(text, cfg)
  {
    if IsBlank(text) {
      return 0;
    }
    var lines := Split(text, '\n');
    result := 0;
    var i := 0;
    while i < |lines|
      invariant 0 <= i <= |lines|
      invariant result == LineTotal(lines[..i], cfg)
    {
      assert lines[..i + 1][..i] == lines[..i];
      result := result + |lines[i]| * cfg.charWidth / cfg.lineWidth + 1;
      i := i + 1;
    }
    assert lines[..|lines|] == lines;
  }

  // ---------------------------------------------------------------------
  // sayChoices

  /** A choice: its caption and the result it runs. */
  datatype Choice = Choice(caption: string, result: ChoiceResult)

  /** A request to the host's `say`, with the dialogue style's numeric
      options. */
  datatype SayRequest = SayRequest(text: string, style: map<string, int>)

  const LINES: string := "lines"
  const GLYPH_REVEAL_DELAY: string := "glyphRevealDelay"

  function Min(a: int, b: int): int
  {
    if a < b then a else b
  }

  /** The rows shown: one per choice that has a key. */
  function ChoiceRows(choices: seq<Choice>, cfg: Config): (rows: seq<string>)
    ensures |rows| == Min(|choices|, |cfg.keys|)
  {
    seq(Min(|choices|, |cfg.keys|), i requires 0 <= i < Min(|choices|, |cfg.keys|) =>
      cfg.keys[i].symbol + " " + choices[i].caption)
  }

  /** `k` newline characters. */
  function Newlines(k: nat): (s: string)
    ensures |s| == k && forall i :: 0 <= i < k ==> s[i] == '\n'
  {
    seq(k, i => '\n')
  }

  /** The preamble, a newline and the separation lines; nothing for an
      empty preamble. */
  function PreambleText(preamble: string, cfg: Config): string
  {
    if preamble == "" then "" else preamble + "\n" + Newlines(cfg.separation)
  }

  /** The rows the preamble reserves. */
  function PreambleLines(preamble: string, cfg: Config): nat
    requires cfg.lineWidth > 0
  {
    if preamble == "" then 0 else LineCountOf(preamble, cfg) + cfg.separation
  }

  /** What `sayChoices` says (dist/dialogue-choices.js:138-157): nothing
      for no choices; otherwise the preamble and the rows joined by
      newlines, in the caller's style with `lines` set to the rows reserved
      and the reveal delay set to 0. */
  function ChoicesSaid(preamble: string, choices: seq<Choice>, style: Option<map<string, int>>, extra: int, cfg: Config): Option<SayRequest>
    requires cfg.lineWidth > 0
  {
    if choices == [] then None
    else
      var base := if style.Some? then style.value else map[];
      var lines := PreambleLines(preamble, cfg) + Min(|choices|, |cfg.keys|) + extra;
      Some(SayRequest(PreambleText(preamble, cfg) + Join(ChoiceRows(choices, cfg), '\n'),
                      base[LINES := lines][GLYPH_REVEAL_DELAY := 0]))
  }

  /** The rows read back from the choice text, when no key character and
      no label holds a newline. */
  lemma ChoiceRowsRoundTrip(choices: seq<Choice>, cfg: Config)
    requires choices != [] && cfg.keys != []
    requires forall i :: 0 <= i < |cfg.keys| ==> '\n' !in cfg.keys[i].symbol
    requires forall i :: 0 <= i < |choices| ==> '\n' !in choices[i].caption
    ensures Split(Join(ChoiceRows(choices, cfg), '\n'), '\n') == ChoiceRows(choices, cfg)
  {
    var rows := ChoiceRows(choices, cfg);
    forall k | 0 <= k < |rows| ensures '\n' !in rows[k] {
      assert rows[k] == cfg.keys[k].symbol + " " + choices[k].caption;
    }
    SplitJoin(rows, '\n');
  }

  /** `k` newlines before a text split as `k` empty lines before it. */
  lemma {:induction false} SplitNewlines(k: nat, t: string)
    ensures Split(Newlines(k) + t, '\n') == seq(k, i => "") + Split(t, '\n')
  {
    if k > 0 {
      assert Newlines(k) + t == [] + ['\n'] + (Newlines(k - 1) + t);
      SplitAppend([], Newlines(k - 1) + t, '\n');
      SplitNewlines(k - 1, t);
      assert Split([], '\n') == [[]];
      assert [[]] + seq(k - 1, i => "") == seq(k, i => "");
    } else {
      assert Newlines(k) + t == t;
    }
  }

  lemma EmptyLinesTotal(k: nat, cfg: Config)
    requires cfg.lineWidth > 0
    ensures LineTotal(seq(k, i => ""), cfg) == k
  {
    LineTotalBounds(seq(k, i => ""), cfg);
  }

  /** The rows reserved fit the text exactly: with a non-blank preamble,
      rows that each fit on one line and no extra lines, `lines` is the
      line count of the text said. */
  lemma ReservedLinesFit(preamble: string, choices: seq<Choice>, style: Option<map<string, int>>, cfg: Config)
    requires cfg.lineWidth > 0 && choices != [] && cfg.keys != []
    requires !IsBlank(preamble)
    requires forall i :: 0 <= i < |cfg.keys| ==> '\n' !in cfg.keys[i].symbol
    requires forall i :: 0 <= i < |choices| ==> '\n' !in choices[i].caption
    requires forall i :: 0 <= i < Min(|choices|, |cfg.keys|) ==>
               |cfg.keys[i].symbol + " " + choices[i].caption| * cfg.charWidth < cfg.lineWidth
    ensures var said := ChoicesSaid(preamble, choices, style, 0, cfg).value;
            said.style[LINES] == LineCountOf(said.text, cfg)
  {
    var rows := ChoiceRows(choices, cfg);
    var body := Join(rows, '\n');
    var text := PreambleText(preamble, cfg) + body;
    var blanks := seq(cfg.separation, i => "");
    assert !IsBlank(text) by {
      var j :| 0 <= j < |preamble| && !IsJsWhitespace(preamble[j]);
      assert text[j] == preamble[j];
    }
    assert Split(text, '\n') == Split(preamble, '\n') + (blanks + rows) by {
      assert text == preamble + ['\n'] + (Newlines(cfg.separation) + body);
      SplitAppend(preamble, Newlines(cfg.separation) + body, '\n');
      SplitNewlines(cfg.separation, body);
      ChoiceRowsRoundTrip(choices, cfg);
    }
    assert LineTotal(blanks + rows, cfg) == cfg.separation + |rows| by {
      LineTotalConcat(blanks, rows, cfg);
      EmptyLinesTotal(cfg.separation, cfg);
      LineTotalBounds(rows, cfg);
    }
    LineTotalConcat(Split(preamble, '\n'), blanks + rows, cfg);
  }

  // ---------------------------------------------------------------------
  // Picking a choice

  /** The choice the key picks among the first `n`: the lowest index whose
      key codes include it. */
  function Selected(keys: seq<ChoiceKey>, n: nat, key: string): Option<nat>
  {
    First(n, Picks(keys, key))
  }

  /** Whether the key belongs to the `i`-th choice key. */
  function Picks(keys: seq<ChoiceKey>, key: string): nat -> bool
  {
    (i: nat) => i < |keys| && key in keys[i].codes
  }

  /** One keydown (dist/dialogue-choices.js:222-236): repeats and keys with
      no pending options do nothing; a key of a listed choice clears the
      options and picks that choice's result. */
  function KeydownStep(options: Option<seq<ChoiceResult>>, keys: seq<ChoiceKey>, key: string, repeat: bool)
    : (Option<seq<ChoiceResult>>, Option<ChoiceResult>)
    requires options.Some? ==> |options.value| <= |keys|
  {
    if repeat || options.None? then (options, None)
    else
      var s := Selected(keys, |options.value|, key);
      if s.None? then (options, None) else (None, Some(options.value[s.value]))
  }

  /** The choice picked is the first listed one whose codes include the
      key; with no such choice nothing happens. */
  lemma KeydownPicksLowest(options: seq<ChoiceResult>, keys: seq<ChoiceKey>, key: string)
    requires |options| <= |keys|
    ensures KeydownStep(Some(options), keys, key, false).1.None? <==>
              forall j :: 0 <= j < |options| ==> key !in keys[j].codes
    ensures KeydownStep(Some(options), keys, key, false).1.Some? ==>
              exists i :: 0 <= i < |options| && key in keys[i].codes &&
                          (forall j :: 0 <= j < i ==> key !in keys[j].codes) &&
                          KeydownStep(Some(options), keys, key, false).1 == Some(options[i])
  {
    var p := Picks(keys, key);
    FirstRule(|options|, p);
    var s := First(|options|, p);
    if s.Some? {
      var i := s.value;
      assert p(i);
      forall j | 0 <= j < i ensures key !in keys[j].codes {
        assert !p(j);
      }
      assert KeydownStep(Some(options), keys, key, false).1 == Some(options[i]);
    } else {
      forall j | 0 <= j < |options| ensures key !in keys[j].codes {
        assert !p(j);
      }
    }
  }

  /** A choice fires at most once: after a keydown that picks one, no
      keydown picks another until options are set again. */
  lemma FiresAtMostOnce(options: Option<seq<ChoiceResult>>, keys: seq<ChoiceKey>, key: string, repeat: bool, key2: string, repeat2: bool)
    requires options.Some? ==> |options.value| <= |keys|
    requires KeydownStep(options, keys, key, repeat).1.Some?
    ensures KeydownStep(options, keys, key, repeat).0 == None
    ensures KeydownStep(KeydownStep(options, keys, key, repeat).0, keys, key2, repeat2).1 == None
  {
  }

  /** The playback state the plugin adds: the pending options and the
      event that showed them. */
  class ChoicePlayback {
    const config: Config
    var options: Option<seq<ChoiceResult>>
    var sourceEvent: Option<nat>

    predicate Valid()
      reads this
    {
      config.lineWidth > 0 && (options.Some? ==> |options.value| <= |config.keys|)
    }

    constructor(config: Config)
      requires config.lineWidth > 0
      ensures this.config == config && options == None && sourceEvent == None
      ensures Valid()
    {
      this.config := config;
      options := None;
      sourceEvent := None;
    }

    /** The text loop of `sayChoices` (dist/dialogue-choices.js:146-150):
        the preamble part, then each row, with a newline before all rows
        but the first. */
    static method ChoiceText(preamble: string, choices: seq<Choice>, cfg: Config) returns (text: string)
      ensures text == PreambleText(preamble, cfg) + Join(ChoiceRows(choices, cfg), '\n')
    {
      var count := Min(|choices|, |cfg.keys|);
      text := PreambleText(preamble, cfg);
      ghost var rows := ChoiceRows(choices, cfg);
      var i := 0;
      while i < count
        invariant 0 <= i <= count
        invariant text == PreambleText(preamble, cfg) + Join(rows[..i], '\n')
      {
        var separator := if i > 0 then "\n" else "";
        assert rows[..i + 1] == rows[..i] + [rows[i]];
        if i > 0 {
          JoinSnoc(rows[..i], rows[i], '\n');
        } else {
          assert Join(rows[..1], '\n') == rows[0];
        }
        text := text + separator + cfg.keys[i].symbol + " " + choices[i].caption;
        i := i + 1;
      }
      assert rows[..count] == rows;
    }

    /** `sayChoices` (dist/dialogue-choices.js:138-157): builds the text row
        by row and records the source event. The options are set on the
        next frame by `ArmOptions` with `results`. */
    method SayChoices(preamble: string, choices: seq<Choice>, style: Option<map<string, int>>, extra: int, event: Option<nat>)
      returns (said: Option<SayRequest>, results: seq<ChoiceResult>)
      requires Valid()
      modifies this
      ensures Valid()
      ensures said == ChoicesSaid(preamble, choices, style, extra, config)
      ensures |results| == |choices| && forall i :: 0 <= i < |choices| ==> results[i] == choices[i].result
      ensures options == old(options)
      ensures sourceEvent == if choices == [] then old(sourceEvent) else event
    {
      results := seq(|choices|, i requires 0 <= i < |choices| => choices[i].result);
      if |choices| == 0 {
        return None, results;
      }
      var preambleLines := 0;
      if preamble != "" {
        preambleLines := CalculateLineCount(preamble, config);
        preambleLines := preambleLines + config.separation;
      }
      var count := Min(|choices|, |config.keys|);
      var base := if style.Some? then style.value else map[];
      var text := ChoiceText(preamble, choices, config);
      sourceEvent := event;
      said := Some(SayRequest(text, base[LINES := preambleLines + count + extra][GLYPH_REVEAL_DELAY := 0]));
    }

    /** The deferred `choiceResultOptions` assignment
        (dist/dialogue-choices.js:152-154). */
    method ArmOptions(results: seq<ChoiceResult>)
      requires Valid() && |results| <= |config.keys|
      modifies this
      ensures Valid() && options == Some(results) && sourceEvent == old(sourceEvent)
    {
      options := Some(results);
    }

    /** The `proceed` gate (dist/dialogue-choices.js:241-244): the dialogue
        advances only when no options are pending. */
    method Proceed() returns (advanced: bool)
      ensures advanced <==> options.None?
    {
      advanced := options.None?;
    }

    /** `handleKeydownForChoices` (dist/dialogue-choices.js:222-236): the
        chosen result is cleared from the options before the dialogue
        proceeds and the result runs. */
    method HandleKeydown(key: string, repeat: bool) returns (chosen: Option<ChoiceResult>, advanced: bool)
      requires Valid()
      modifies this
      ensures Valid()
      ensures (options, chosen) == KeydownStep(old(options), config.keys, key, repeat)
      ensures advanced <==> chosen.Some?
      ensures sourceEvent == old(sourceEvent)
    {
      chosen, advanced := None, false;
      if repeat || options.None? {
        return;
      }
      var opts := options.value;
      ghost var p := Picks(config.keys, key);
      var i := 0;
      while i < |opts|
        invariant 0 <= i <= |opts|
        invariant First(i, p).None?
        invariant options == Some(opts) && chosen.None? && !advanced
      {
        if key in config.keys[i].codes {
          assert p(i);
          chosen := Some(opts[i]);
          options := None;
          advanced := Proceed();
          FirstRule(|opts|, p);
          FirstRule(i, p);
          return;
        }
        i := i + 1;
      }
    }
  }
}
