/** Move animations (dist/move-animations.js): an event's facing and moving
    state select one of its tile fields as its graphic; a change of graphic
    is staged in a per-event pending table and committed by a later render
    pass; missing animation fields are filled in from a fallback chain the
    first time an event's move state changes.

    The "smooth move" plugin, when loaded first, provides its own move-state
    update and turns on the move fields and a one-frame swap delay; here its
    presence is the constant `smoothMove`. Tile fields are a map from field
    name to tile id, where an absent name and the id 0 both stand for a
    missing (falsy) field, as `FIELD(event, name, 'tile')` sees them. */
module MoveAnimations {
  import opened Host

  type EventId = nat

  datatype Facing = Unset | Up | Down | Left | Right

  /** An event as this plugin sees it. `currentGraphicName` is the name of
      the field last committed to `graphic` (None before the first commit). */
  datatype MoveEvent = MoveEvent(
    tiles: map<string, nat>,
    facing: Facing,
    isMoving: bool,
    currentGraphicName: Option<string>,
    initialized: bool,
    usesAltTiles: bool)

  /** A staged graphic change, committed when `framesLeft` reaches 0. */
  datatype Pending = Pending(graphicName: string, framesLeft: nat)

  // ---------------------------------------------------------------------
  // Constants chosen at load time

  const IDLE_FIELDS: seq<string> := ["graphic-up", "graphic-left", "graphic-right", "graphic-down"]
  const MOVE_FIELDS: seq<string> := ["graphic-up-move", "graphic-left-move", "graphic-right-move", "graphic-down-move"]
  const ALT_FIELDS: seq<string> := ["graphic-move", "graphic-idle"]

  function UsedFields(smoothMove: bool): seq<string>
  {
    if smoothMove then IDLE_FIELDS + MOVE_FIELDS else IDLE_FIELDS
  }

  function AltFields(smoothMove: bool): seq<string>
  {
    if smoothMove then ALT_FIELDS else []
  }

  function SwapDelay(smoothMove: bool): nat
  {
    if smoothMove then 1 else 0
  }

  // ---------------------------------------------------------------------
  // Field lookup

  /** `FIELD(event, name, 'tile')`, with 0 for a missing field. */
  function FieldTile(tiles: map<string, nat>, name: string): nat
  {
    if name in tiles then tiles[name] else 0
  }

  /** JavaScript's `a || b` on tile ids. */
  function OrElse(a: nat, b: nat): nat
  {
    if a != 0 then a else b
  }

  // ---------------------------------------------------------------------
  // Move state

  function FacingName(f: Facing): string
  {
    match f
    case Unset => "undefined"
    case Up => "up"
    case Down => "down"
    case Left => "left"
    case Right => "right"
  }

  /** The facing the fallback `updateEventsMoveState` derives from a move
      delta; a missing `dx` keeps the old facing. */
  function NextFacing(prev: Facing, dx: Option<int>, dy: int): Facing
  {
    match dx
    case None => prev
    case Some(x) =>
      if x > 0 then Right
      else if x < 0 then Left
      else if dy < 0 then Up
      else Down
  }

  lemma NextFacingRule(prev: Facing, dx: Option<int>, dy: int)
    ensures dx.None? ==> NextFacing(prev, dx, dy) == prev
    ensures dx.Some? ==> NextFacing(prev, dx, dy) != Unset
    ensures dx.Some? && dx.value > 0 ==> NextFacing(prev, dx, dy) == Right
    ensures dx.Some? && dx.value < 0 ==> NextFacing(prev, dx, dy) == Left
    ensures dx == Some(0) ==> NextFacing(prev, dx, dy) == (if dy < 0 then Up else Down)
  {
  }

  /** The name of the tile field the event should show. */
  function GraphicName(ev: MoveEvent): string
  {
    if ev.usesAltTiles then
      "graphic" + (if ev.isMoving then "-move" else "-idle")
    else
      "graphic-" + FacingName(ev.facing) + (if ev.isMoving then "-move" else "")
  }

  predicate EndsWithMove(s: string)
  {
    |s| >= 5 && s[|s| - 5..] == "-move"
  }

  /** The name ends in "-move" exactly when the event is moving, and names
      a field of the list its initialisation fills in once facing is set. */
  lemma EndsWithMoveSuffix(p: string, moving: bool)
    requires |p| >= 4 && p[|p| - 4] != 'm'
    ensures EndsWithMove(p + (if moving then "-move" else "")) <==> moving
  {
    var n := p + (if moving then "-move" else "");
    if moving {
      assert n[|n| - 5..] == "-move";
    } else {
      assert n[|n| - 4] != 'm';
    }
  }

  /** The name ends in "-move" exactly when the event is moving. */
  lemma GraphicNameMoving(ev: MoveEvent)
    ensures EndsWithMove(GraphicName(ev)) <==> ev.isMoving
  {
    if ev.usesAltTiles {
      if ev.isMoving {
        assert GraphicName(ev) == "graphic-move";
        assert EndsWithMove("graphic-move");
      } else {
        assert GraphicName(ev) == "graphic-idle";
        assert "graphic-idle"[8] == 'i';
      }
    } else {
      var p := "graphic-" + FacingName(ev.facing);
      assert GraphicName(ev) == p + (if ev.isMoving then "-move" else "");
      assert p[|p| - 4] != 'm' by {
        match ev.facing
        case Unset => assert p == "graphic-undefined";
        case Up => assert p == "graphic-up";
        case Down => assert p == "graphic-down";
        case Left => assert p == "graphic-left";
        case Right => assert p == "graphic-right";
      }
      EndsWithMoveSuffix(p, ev.isMoving);
    }
  }

  /** Once facing is set, the name is one of the fields initialisation
      fills in. */
  lemma GraphicNameField(ev: MoveEvent)
    ensures ev.usesAltTiles ==> GraphicName(ev) in ALT_FIELDS
    ensures !ev.usesAltTiles && ev.facing != Unset ==>
              GraphicName(ev) in (if ev.isMoving then MOVE_FIELDS else IDLE_FIELDS)
  {
    var fields := if ev.isMoving then MOVE_FIELDS else IDLE_FIELDS;
    if ev.usesAltTiles {
      assert GraphicName(ev) == ALT_FIELDS[if ev.isMoving then 0 else 1];
    } else {
      match ev.facing
      case Unset =>
      case Up => assert GraphicName(ev) == fields[0];
      case Left => assert GraphicName(ev) == fields[1];
      case Right => assert GraphicName(ev) == fields[2];
      case Down => assert GraphicName(ev) == fields[3];
    }
  }

  /** Different move states of a non-alt event select different fields. */
  lemma GraphicNameInjective(a: MoveEvent, b: MoveEvent)
    requires !a.usesAltTiles && !b.usesAltTiles
    requires GraphicName(a) == GraphicName(b)
    ensures a.facing == b.facing && a.isMoving == b.isMoving
  {
    GraphicNameMoving(a);
    GraphicNameMoving(b);
    var fa, fb := FacingName(a.facing), FacingName(b.facing);
    assert GraphicName(a)[8..8 + |fa|] == fa;
    assert GraphicName(b)[8..8 + |fb|] == fb;
    assert |GraphicName(a)| == 8 + |fa| + (if a.isMoving then 5 else 0);
    assert |GraphicName(b)| == 8 + |fb| + (if b.isMoving then 5 else 0);
    assert |fa| == |fb|;
    assert fa == fb;
  }

  // ---------------------------------------------------------------------
  // Staging and committing

  /** The pending table after the move-state hook for `ev` (with id `id`):
      an unchanged graphic cancels any staged change, a changed one
      replaces it. */
  function Staged(pending: map<EventId, Pending>, id: EventId, ev: MoveEvent, delay: nat): map<EventId, Pending>
  {
    var name := GraphicName(ev);
    if ev.currentGraphicName == Some(name) then pending - {id}
    else pending[id := Pending(name, delay)]
  }

  lemma StagedEffect(pending: map<EventId, Pending>, id: EventId, ev: MoveEvent, delay: nat)
    ensures ev.currentGraphicName == Some(GraphicName(ev)) ==> id !in Staged(pending, id, ev, delay)
    ensures ev.currentGraphicName != Some(GraphicName(ev)) ==>
              id in Staged(pending, id, ev, delay) && Staged(pending, id, ev, delay)[id] == Pending(GraphicName(ev), delay)
    ensures forall k :: k != id ==> (k in Staged(pending, id, ev, delay) <==> k in pending)
    ensures forall k :: k != id && k in pending ==> Staged(pending, id, ev, delay)[k] == pending[k]
  {
  }

  /** Committing a staged name: `graphic` takes that field's tile. */
  function CommitOne(ev: MoveEvent, name: string): MoveEvent
  {
    ev.(tiles := ev.tiles["graphic" := FieldTile(ev.tiles, name)], currentGraphicName := Some(name))
  }

  /** An event after one render pass, given the pending table. */
  function CommitDue(ev: MoveEvent, pending: map<EventId, Pending>, id: EventId): MoveEvent
  {
    if id in pending && pending[id].framesLeft == 0 then CommitOne(ev, pending[id].graphicName) else ev
  }

  /** The events after one render pass. */
  function Committed(events: map<EventId, MoveEvent>, pending: map<EventId, Pending>): map<EventId, MoveEvent>
  {
    map id | id in events :: CommitDue(events[id], pending, id)
  }

  /** A pending entry one frame later. */
  function Tick(change: Pending): Pending
    requires change.framesLeft > 0
  {
    Pending(change.graphicName, change.framesLeft - 1)
  }

  /** The pending table after one render pass. */
  function Ticked(pending: map<EventId, Pending>): map<EventId, Pending>
  {
    map id | id in pending && pending[id].framesLeft > 0 :: Tick(pending[id])
  }

  /** `k` render passes. */
  function Renders(events: map<EventId, MoveEvent>, pending: map<EventId, Pending>, k: nat): (map<EventId, MoveEvent>, map<EventId, Pending>)
  {
    if k == 0 then (events, pending)
    else Renders(Committed(events, pending), Ticked(pending), k - 1)
  }

  /** A change staged with delay `d` waits through `d` render passes with
      the event untouched, and is committed by pass `d + 1`. */
  lemma {:induction false} CommitAfterDelay(events: map<EventId, MoveEvent>, pending: map<EventId, Pending>,
                                            id: EventId, name: string, d: nat, k: nat)
    requires id in events && id in pending && pending[id] == Pending(name, d)
    requires k <= d + 1
    ensures id in Renders(events, pending, k).0
    ensures k <= d ==> Renders(events, pending, k).0[id] == events[id]
    ensures k <= d ==> id in Renders(events, pending, k).1 && Renders(events, pending, k).1[id] == Pending(name, d - k)
    ensures k == d + 1 ==> Renders(events, pending, k).0[id] == CommitOne(events[id], name)
    ensures k == d + 1 ==> id !in Renders(events, pending, k).1
    decreases k
  {
    if k > 0 {
      var e1, p1 := Committed(events, pending), Ticked(pending);
      if d == 0 {
        assert k == 1;
        assert Renders(events, pending, k) == Renders(e1, p1, 0);
      } else {
        assert e1[id] == events[id];
        assert p1[id] == Pending(name, d - 1);
        CommitAfterDelay(e1, p1, id, name, d - 1, k - 1);
      }
    }
  }

  // ---------------------------------------------------------------------
  // Defaulting missing fields

  /** The direction `d` when `name` is "graphic-d-move" with no '-' in `d`
      (the regular expression `^graphic-([^-]+)-move$`). */
  function MoveFieldBase(name: string): Option<string>
  {
    if |name| > 13 && name[..8] == "graphic-" && name[|name| - 5..] == "-move" && '-' !in name[8..|name| - 5]
    then Some(name[8..|name| - 5])
    else None
  }

  /** The default the initialisation gives one field. */
  function DefaultField(tiles: map<string, nat>, name: string, graphicTile: nat): map<string, nat>
  {
    if FieldTile(tiles, name) != 0 then tiles
    else match MoveFieldBase(name)
      case Some(d) => tiles[name := FieldTile(tiles, "graphic-" + d)]
      case None => tiles[name := graphicTile]
  }

  /** Defaults for a list of fields, taken in order. */
  function DefaultFields(tiles: map<string, nat>, names: seq<string>, graphicTile: nat): map<string, nat>
    decreases |names|
  {
    if names == [] then tiles else DefaultFields(DefaultField(tiles, names[0], graphicTile), names[1..], graphicTile)
  }

  predicate Distinct(names: seq<string>)
  {
    forall i, j :: 0 <= i < j < |names| ==> names[i] != names[j]
  }

  /** No field of the list falls back to another field of the list. */
  predicate NoBaseIn(names: seq<string>)
  {
    forall i :: 0 <= i < |names| && MoveFieldBase(names[i]).Some? ==>
      "graphic-" + MoveFieldBase(names[i]).value !in names
  }

  lemma DefaultFieldFrame(tiles: map<string, nat>, name: string, graphicTile: nat)
    ensures forall n :: n != name ==> (n in DefaultField(tiles, name, graphicTile) <==> n in tiles)
    ensures forall n :: n != name && n in tiles ==> DefaultField(tiles, name, graphicTile)[n] == tiles[n]
  {
  }

  /** Over fields that do not fall back to each other, each field gets the
      default it would get alone, and every other field is untouched. */
  lemma {:induction false} DefaultFieldsIndependent(tiles: map<string, nat>, names: seq<string>, graphicTile: nat)
    requires Distinct(names) && NoBaseIn(names)
    ensures forall n :: n in names ==>
              FieldTile(DefaultFields(tiles, names, graphicTile), n) == FieldTile(DefaultField(tiles, n, graphicTile), n)
    ensures forall n :: n !in names ==> (n in DefaultFields(tiles, names, graphicTile) <==> n in tiles)
    ensures forall n :: n !in names && n in tiles ==> DefaultFields(tiles, names, graphicTile)[n] == tiles[n]
    decreases |names|
  {
    if names != [] {
      var t1 := DefaultField(tiles, names[0], graphicTile);
      var rest := names[1..];
      assert Distinct(rest);
      assert NoBaseIn(rest) by {
        forall i | 0 <= i < |rest| && MoveFieldBase(rest[i]).Some?
          ensures "graphic-" + MoveFieldBase(rest[i]).value !in rest
        {
          assert rest[i] == names[i + 1];
        }
      }
      DefaultFieldsIndependent(t1, rest, graphicTile);
      DefaultFieldFrame(tiles, names[0], graphicTile);
      forall n | n in rest
        ensures FieldTile(DefaultField(t1, n, graphicTile), n) == FieldTile(DefaultField(tiles, n, graphicTile), n)
      {
        var j :| 0 <= j < |rest| && rest[j] == n;
        assert names[j + 1] == n;
        assert n != names[0];
        match MoveFieldBase(n)
        case Some(d) =>
          assert "graphic-" + d != names[0];
        case None =>
      }
    }
  }

  /** A name of at most 13 characters is never a move field. */
  lemma ShortNotMove(n: string)
    requires |n| <= 13
    ensures MoveFieldBase(n) == None
  {
  }

  lemma MoveFieldBaseOf(d: string)
    requires |d| > 0 && '-' !in d
    ensures MoveFieldBase("graphic-" + d + "-move") == Some(d)
  {
    var n := "graphic-" + d + "-move";
    assert n[..8] == "graphic-";
    assert n[|n| - 5..] == "-move";
    assert n[8..|n| - 5] == d;
  }

  /** The directions, in the order of the field lists. */
  const DIRECTIONS: seq<string> := ["up", "left", "right", "down"]

  /** Field k of the idle and the move list are built from direction k. */
  lemma FieldsAt(k: nat)
    requires k < 4
    ensures IDLE_FIELDS[k] == "graphic-" + DIRECTIONS[k]
    ensures MoveFieldBase(IDLE_FIELDS[k]) == None
    ensures MoveFieldBase(MOVE_FIELDS[k]) == Some(DIRECTIONS[k])
  {
    var d := DIRECTIONS[k];
    assert MOVE_FIELDS[k] == "graphic-" + d + "-move";
    MoveFieldBaseOf(d);
    ShortNotMove(IDLE_FIELDS[k]);
  }

  lemma DirectionsDistinct(i: nat, j: nat)
    requires i < j < |DIRECTIONS|
    ensures DIRECTIONS[i] != DIRECTIONS[j]
  {
    if i == 1 && j == 3 {
      assert DIRECTIONS[i][0] != DIRECTIONS[j][0];
    }
  }

  /** The field lists of this plugin are duplicate-free, none of the idle
      and alternative fields is a move field, and no field of a list falls
      back to another field of the same list. */
  lemma IdleFieldsWellFormed()
    ensures Distinct(IDLE_FIELDS) && NoBaseIn(IDLE_FIELDS)
    ensures Distinct(ALT_FIELDS) && NoBaseIn(ALT_FIELDS)
    ensures forall i :: 0 <= i < |IDLE_FIELDS| ==> MoveFieldBase(IDLE_FIELDS[i]) == None
    ensures forall i :: 0 <= i < |ALT_FIELDS| ==> MoveFieldBase(ALT_FIELDS[i]) == None
  {
    forall i | 0 <= i < |IDLE_FIELDS|
      ensures MoveFieldBase(IDLE_FIELDS[i]) == None
    {
      ShortNotMove(IDLE_FIELDS[i]);
    }
    forall i | 0 <= i < |ALT_FIELDS|
      ensures MoveFieldBase(ALT_FIELDS[i]) == None
    {
      ShortNotMove(ALT_FIELDS[i]);
    }
    forall i, j | 0 <= i < j < |IDLE_FIELDS|
      ensures IDLE_FIELDS[i] != IDLE_FIELDS[j]
    {
      assert IDLE_FIELDS[i][8] != IDLE_FIELDS[j][8];
    }
    assert ALT_FIELDS[0][8] != ALT_FIELDS[1][8];
  }

  /** Every move field falls back to the idle field of its direction, and
      none falls back to a move field. */
  lemma MoveFieldsWellFormed()
    ensures Distinct(MOVE_FIELDS) && NoBaseIn(MOVE_FIELDS)
    ensures forall k :: 0 <= k < |MOVE_FIELDS| ==>
              MoveFieldBase(MOVE_FIELDS[k]).Some? && IDLE_FIELDS[k] == "graphic-" + MoveFieldBase(MOVE_FIELDS[k]).value
  {
    forall k | 0 <= k < |MOVE_FIELDS|
      ensures MoveFieldBase(MOVE_FIELDS[k]) == Some(DIRECTIONS[k])
      ensures IDLE_FIELDS[k] == "graphic-" + DIRECTIONS[k]
      ensures MoveFieldBase(IDLE_FIELDS[k]) == None
    {
      FieldsAt(k);
    }
    forall i, j | 0 <= i < j < |MOVE_FIELDS|
      ensures MOVE_FIELDS[i] != MOVE_FIELDS[j]
    {
      DirectionsDistinct(i, j);
    }
    forall k | 0 <= k < |MOVE_FIELDS|
      ensures IDLE_FIELDS[k] !in MOVE_FIELDS
    {
      NotMoveNotIn(IDLE_FIELDS[k], MOVE_FIELDS);
    }
  }

  /** A name that is no move field is not in a list of move fields. */
  lemma NotMoveNotIn(n: string, fields: seq<string>)
    requires MoveFieldBase(n) == None
    requires forall i :: 0 <= i < |fields| ==> MoveFieldBase(fields[i]).Some?
    ensures n !in fields
  {
  }

  /** Defaults over two lists where a field `m` of the second falls back
      to a field `i` of the first. */
  lemma TwoPhaseDefaults(tiles: map<string, nat>, a: seq<string>, b: seq<string>, graphicTile: nat,
                         i: string, m: string)
    requires Distinct(a) && NoBaseIn(a) && Distinct(b) && NoBaseIn(b)
    requires i in a && i !in b && m in b && m !in a
    requires MoveFieldBase(i) == None && MoveFieldBase(m).Some? && i == "graphic-" + MoveFieldBase(m).value
    ensures FieldTile(DefaultFields(tiles, a + b, graphicTile), i) == OrElse(FieldTile(tiles, i), graphicTile)
    ensures FieldTile(DefaultFields(tiles, a + b, graphicTile), m)
         == OrElse(FieldTile(tiles, m), FieldTile(DefaultFields(tiles, a + b, graphicTile), i))
    ensures forall n :: n !in a + b && n in tiles ==>
              n in DefaultFields(tiles, a + b, graphicTile) && DefaultFields(tiles, a + b, graphicTile)[n] == tiles[n]
  {
    var first := DefaultFields(tiles, a, graphicTile);
    DefaultFieldsConcat(tiles, a, b, graphicTile);
    DefaultFieldsIndependent(tiles, a, graphicTile);
    DefaultFieldsIndependent(first, b, graphicTile);
  }

  /** Without move fields (no smooth move), or with the two alternative
      fields, every missing field of the list gets the `graphic` tile and
      the other fields are untouched. */
  lemma PlainDefaults(tiles: map<string, nat>, graphicTile: nat, fields: seq<string>)
    requires fields == IDLE_FIELDS || fields == ALT_FIELDS
    ensures forall n :: n in fields ==>
              FieldTile(DefaultFields(tiles, fields, graphicTile), n) == OrElse(FieldTile(tiles, n), graphicTile)
    ensures forall n :: n !in fields && n in tiles ==>
              n in DefaultFields(tiles, fields, graphicTile) && DefaultFields(tiles, fields, graphicTile)[n] == tiles[n]
  {
    IdleFieldsWellFormed();
    NoMoveDefaults(tiles, graphicTile, fields);
  }

  /** Over distinct fields none of which is a move field, every missing
      field gets the `graphic` tile and the other fields are untouched. */
  lemma NoMoveDefaults(tiles: map<string, nat>, graphicTile: nat, fields: seq<string>)
    requires Distinct(fields) && NoBaseIn(fields)
    requires forall i :: 0 <= i < |fields| ==> MoveFieldBase(fields[i]) == None
    ensures forall n :: n in fields ==>
              FieldTile(DefaultFields(tiles, fields, graphicTile), n) == OrElse(FieldTile(tiles, n), graphicTile)
    ensures forall n :: n !in fields && n in tiles ==>
              n in DefaultFields(tiles, fields, graphicTile) && DefaultFields(tiles, fields, graphicTile)[n] == tiles[n]
  {
    DefaultFieldsIndependent(tiles, fields, graphicTile);
    forall n | n in fields
      ensures FieldTile(DefaultField(tiles, n, graphicTile), n) == OrElse(FieldTile(tiles, n), graphicTile)
    {
      var i :| 0 <= i < |fields| && fields[i] == n;
    }
  }

  /** With the smooth-move fields: a missing idle field gets the `graphic`
      tile, and a missing move field gets its idle field's tile as already
      defaulted; fields outside the list are untouched. */
  lemma SmoothDefaults(tiles: map<string, nat>, graphicTile: nat, k: nat)
    requires k < 4
    ensures FieldTile(DefaultFields(tiles, UsedFields(true), graphicTile), IDLE_FIELDS[k])
         == OrElse(FieldTile(tiles, IDLE_FIELDS[k]), graphicTile)
    ensures FieldTile(DefaultFields(tiles, UsedFields(true), graphicTile), MOVE_FIELDS[k])
         == OrElse(FieldTile(tiles, MOVE_FIELDS[k]), FieldTile(DefaultFields(tiles, UsedFields(true), graphicTile), IDLE_FIELDS[k]))
    ensures forall n :: n !in UsedFields(true) && n in tiles ==>
              n in DefaultFields(tiles, UsedFields(true), graphicTile) &&
              DefaultFields(tiles, UsedFields(true), graphicTile)[n] == tiles[n]
  {
    IdleFieldsWellFormed();
    MoveFieldsWellFormed();
    PairedDefaults(tiles, IDLE_FIELDS, MOVE_FIELDS, graphicTile, k);
  }

  /** Defaults over a list `a` of plain fields followed by a list `b` of
      move fields, where `b[k]` falls back to `a[k]`. */
  lemma PairedDefaults(tiles: map<string, nat>, a: seq<string>, b: seq<string>, graphicTile: nat, k: nat)
    requires Distinct(a) && NoBaseIn(a) && Distinct(b) && NoBaseIn(b)
    requires |a| == |b| && k < |a|
    requires forall i :: 0 <= i < |a| ==> MoveFieldBase(a[i]) == None
    requires forall i :: 0 <= i < |b| ==> MoveFieldBase(b[i]).Some? && a[i] == "graphic-" + MoveFieldBase(b[i]).value
    ensures FieldTile(DefaultFields(tiles, a + b, graphicTile), a[k]) == OrElse(FieldTile(tiles, a[k]), graphicTile)
    ensures FieldTile(DefaultFields(tiles, a + b, graphicTile), b[k])
         == OrElse(FieldTile(tiles, b[k]), FieldTile(DefaultFields(tiles, a + b, graphicTile), a[k]))
    ensures forall n :: n !in a + b && n in tiles ==>
              n in DefaultFields(tiles, a + b, graphicTile) && DefaultFields(tiles, a + b, graphicTile)[n] == tiles[n]
  {
    TwoPhaseDefaults(tiles, a, b, graphicTile, a[k], b[k]);
  }

  lemma {:induction false} DefaultFieldsConcat(tiles: map<string, nat>, a: seq<string>, b: seq<string>, graphicTile: nat)
    ensures DefaultFields(tiles, a + b, graphicTile) == DefaultFields(DefaultFields(tiles, a, graphicTile), b, graphicTile)
    decreases |a|
  {
    if a != [] {
      assert (a + b)[1..] == a[1..] + b;
      DefaultFieldsConcat(DefaultField(tiles, a[0], graphicTile), a[1..], b, graphicTile);
    } else {
      assert a + b == b;
    }
  }

  /** Whether the event uses the alternative two-field scheme; read before
      any default is written. */
  function UsesAltTiles(tiles: map<string, nat>, smoothMove: bool): bool
  {
    |AltFields(smoothMove)| > 0 && FieldTile(tiles, AltFields(smoothMove)[0]) != 0
  }

  /** The event after `initSmoothMoveAnimationForEvent`. */
  function Defaulted(ev: MoveEvent, smoothMove: bool): MoveEvent
  {
    var alt := UsesAltTiles(ev.tiles, smoothMove);
    var used := if alt then AltFields(smoothMove) else UsedFields(smoothMove);
    ev.(tiles := DefaultFields(ev.tiles, used, FieldTile(ev.tiles, "graphic")), usesAltTiles := alt)
  }

  /** The event after the move-state hook's initialisation step: done at
      most once. */
  function EnsureInitialized(ev: MoveEvent, smoothMove: bool): MoveEvent
  {
    if ev.initialized then ev else Defaulted(ev, smoothMove).(initialized := true)
  }

  lemma InitOnce(ev: MoveEvent, smoothMove: bool)
    ensures EnsureInitialized(ev, smoothMove).initialized
    ensures EnsureInitialized(EnsureInitialized(ev, smoothMove), smoothMove) == EnsureInitialized(ev, smoothMove)
    ensures ev.initialized ==> EnsureInitialized(ev, smoothMove) == ev
  {
  }

  /** A render pass that has handled the entries in `done` and no other. */
  ghost predicate RenderedSoFar(e0: map<EventId, MoveEvent>, p0: map<EventId, Pending>, done: set<EventId>,
                                e: map<EventId, MoveEvent>, p: map<EventId, Pending>)
  {
    && e.Keys == e0.Keys
    && (forall k :: k in e0 ==> e[k] == (if k in done then CommitDue(e0[k], p0, k) else e0[k]))
    && (forall k :: k in p ==> k in p0)
    && (forall k :: k in p0 && k !in done ==> k in p && p[k] == p0[k])
    && (forall k :: k in p0 && k in done ==> (k in p <==> p0[k].framesLeft > 0))
    && (forall k :: k in p0 && k in done && k in p ==> p[k] == Tick(p0[k]))
  }

  /** Handling one more entry of a render pass. */
  lemma RenderOne(e0: map<EventId, MoveEvent>, p0: map<EventId, Pending>, done: set<EventId>,
                  e: map<EventId, MoveEvent>, p: map<EventId, Pending>, id: EventId)
    requires RenderedSoFar(e0, p0, done, e, p) && p0.Keys <= e0.Keys
    requires id in p0 && id !in done
    ensures id in p && p[id] == p0[id] && id in e && e[id] == e0[id]
    ensures p0[id].framesLeft > 0 ==>
              RenderedSoFar(e0, p0, done + {id}, e, p[id := Tick(p0[id])])
    ensures p0[id].framesLeft == 0 ==>
              RenderedSoFar(e0, p0, done + {id}, e[id := CommitOne(e0[id], p0[id].graphicName)], p - {id})
  {
  }

  /** A pass that has handled every entry is one render pass. */
  lemma RenderedAll(e0: map<EventId, MoveEvent>, p0: map<EventId, Pending>,
                    e: map<EventId, MoveEvent>, p: map<EventId, Pending>)
    requires RenderedSoFar(e0, p0, p0.Keys, e, p)
    ensures e == Committed(e0, p0)
    ensures p == Ticked(p0)
  {
    forall k | k in e0
      ensures e[k] == Committed(e0, p0)[k]
    {
      if k !in p0 {
        assert CommitDue(e0[k], p0, k) == e0[k];
      }
    }
  }

  // ---------------------------------------------------------------------
  // The plugin's state

  class MoveAnimator {
    /** Whether the smooth-move plugin was loaded first. */
    const smoothMove: bool
    /** TILE_SWAP_DELAY. */
    const tileSwapDelay: nat
    /** The events of the world, by id. */
    var events: map<EventId, MoveEvent>
    /** pendingGraphicChanges. */
    var pending: map<EventId, Pending>

    ghost predicate Valid()
      reads this
    {
      pending.Keys <= events.Keys && tileSwapDelay == SwapDelay(smoothMove)
    }

    constructor(smoothMove: bool, events: map<EventId, MoveEvent>)
      ensures Valid()
      ensures this.smoothMove == smoothMove && this.events == events && pending == map[]
    {
      this.smoothMove := smoothMove;
      this.tileSwapDelay := if smoothMove then 1 else 0;
      this.events := events;
      this.pending := map[];
    }

    /** The fallback `updateEventsMoveState` installed when smooth move is
        absent: sets the moving flag and derives the facing. */
    method FallbackMoveState(id: EventId, isMoving: bool, dx: Option<int>, dy: int)
      requires Valid() && id in events
      modifies this
      ensures Valid() && pending == old(pending)
      ensures events == old(events)[id := old(events)[id].(isMoving := isMoving,
                                                           facing := NextFacing(old(events)[id].facing, dx, dy))]
    {
      var ev := events[id];
      var facing := ev.facing;
      if dx.Some? {
        if dx.value > 0 {
          facing := Right;
        } else if dx.value < 0 {
          facing := Left;
        } else if dy < 0 {
          facing := Up;
        } else {
          facing := Down;
        }
      }
      events := events[id := ev.(isMoving := isMoving, facing := facing)];
    }

    /** `initSmoothMoveAnimationForEvent`: writes a default into every
        missing field of the event's list. */
    method InitForEvent(id: EventId)
      requires Valid() && id in events
      modifies this
      ensures Valid() && pending == old(pending)
      ensures events == old(events)[id := Defaulted(old(events)[id], smoothMove)]
    {
      var ev := events[id];
      var alt := UsesAltTiles(ev.tiles, smoothMove);
      var used := if alt then AltFields(smoothMove) else UsedFields(smoothMove);
      var graphicTile := FieldTile(ev.tiles, "graphic");
      var tiles: map<string, nat> := ev.tiles;
      for i := 0 to |used|
        invariant DefaultFields(tiles, used[i..], graphicTile) == DefaultFields(ev.tiles, used, graphicTile)
      {
        assert used[i..][1..] == used[i + 1..];
        var name := used[i];
        if FieldTile(tiles, name) == 0 {
          var base := MoveFieldBase(name);
          if base.Some? {
            tiles := tiles[name := FieldTile(tiles, "graphic-" + base.value)];
          } else {
            tiles := tiles[name := graphicTile];
          }
        }
      }
      assert used[|used|..] == [];
      events := events[id := ev.(tiles := tiles, usesAltTiles := alt)];
    }

    /** The hook that runs after every move-state update: initialise the
        event once, then stage or cancel a graphic change. */
    method AfterMoveStateUpdate(id: EventId)
      requires Valid() && id in events
      modifies this
      ensures Valid()
      ensures events == old(events)[id := EnsureInitialized(old(events)[id], smoothMove)]
      ensures pending == Staged(old(pending), id, events[id], tileSwapDelay)
    {
      if !events[id].initialized {
        InitForEvent(id);
        events := events[id := events[id].(initialized := true)];
      }
      StageGraphic(id);
    }

    /** The second half of the hook: the graphic name the event should show
        is staged, or a pending change is dropped when it already shows it. */
    method StageGraphic(id: EventId)
      requires Valid() && id in events
      modifies this
      ensures Valid() && events == old(events)
      ensures pending == Staged(old(pending), id, events[id], tileSwapDelay)
    {
      var ev := events[id];
      var name: string;
      if ev.usesAltTiles {
        name := "graphic" + (if ev.isMoving then "-move" else "-idle");
      } else {
        name := "graphic-" + FacingName(ev.facing) + (if ev.isMoving then "-move" else "");
      }
      assert name == GraphicName(ev);
      if ev.currentGraphicName == Some(name) {
        pending := pending - {id};
        return;
      }
      pending := pending[id := Pending(name, tileSwapDelay)];
    }

    /** The fallback update followed by its hook, as a move without smooth
        move runs them. */
    method UpdateEventsMoveState(id: EventId, isMoving: bool, dx: Option<int>, dy: int)
      requires Valid() && id in events
      modifies this
      ensures Valid()
      ensures var moved := old(events)[id].(isMoving := isMoving, facing := NextFacing(old(events)[id].facing, dx, dy));
              events == old(events)[id := EnsureInitialized(moved, smoothMove)] &&
              pending == Staged(old(pending), id, events[id], tileSwapDelay)
    {
      FallbackMoveState(id, isMoving, dx, dy);
      AfterMoveStateUpdate(id);
    }

    /** The render hook: every pending entry either counts down or is
        committed and removed. */
    method Render()
      requires Valid()
      modifies this
      ensures Valid()
      ensures events == Committed(old(events), old(pending))
      ensures pending == Ticked(old(pending))
    {
      ghost var done: set<EventId> := {};
      var p, e := pending, events;
      var todo := pending.Keys;
      while todo != {}
        invariant done !! todo && done + todo == old(pending).Keys
        invariant RenderedSoFar(old(events), old(pending), done, e, p)
        decreases todo
      {
        var id :| id in todo;
        RenderOne(old(events), old(pending), done, e, p, id);
        var change := p[id];
        if change.framesLeft > 0 {
          var ticked := Pending(change.graphicName, change.framesLeft - 1);
          assert ticked == Tick(old(pending)[id]);
          p := p[id := ticked];
        } else {
          var ev := e[id];
          var tile := FieldTile(ev.tiles, change.graphicName);
          var committed := ev.(tiles := ev.tiles["graphic" := tile], currentGraphicName := Some(change.graphicName));
          assert committed == CommitOne(old(events)[id], old(pending)[id].graphicName);
          e := e[id := committed];
          p := p - {id};
        }
        todo := todo - {id};
        done := done + {id};
      }
      RenderedAll(old(events), old(pending), e, p);
      pending, events := p, e;
    }
  }
}
