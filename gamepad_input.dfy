/** Gamepad input (dist/gamepad-input.js): a table of players, one per
    connected pad, whose per-button `down`/`justDown`/`justUp` flags are
    recomputed from the pads' pressed buttons on every update; queries over
    one player or over all of them; the d-pad as a pair of sums; analog
    thresholds; and the translation of all of it into key events.

    The browser's `navigator.getGamepads()` list is a parameter. Analog
    readings are taken as already normalised (the dead-zone and snap-zone
    arithmetic of `getAxes` is floating point and is not modelled). */
module GamepadInput {
  import opened Host

  /** A browser gamepad object as the plugin reads it. */
  datatype Pad = Pad(index: nat, connected: bool, pressed: seq<bool>, axes: seq<real>)

  /** An entry of the players table. A missing key of a flag map reads as
      `undefined`, which is falsy. */
  datatype Player = Player(
    disabled: bool,
    original: Pad,
    down: map<nat, bool>,
    justDown: map<nat, bool>,
    justUp: map<nat, bool>,
    axesPrev: seq<real>)

  /** The state `getPlayer` answers for an unknown, disconnected or
      disabled player. */
  const NULL_GAMEPAD: Player := Player(true, Pad(0, false, [], []), map[], map[], map[], [])

  // Button indices of the standard mapping.
  const A: nat := 0
  const B: nat := 1
  const X: nat := 2
  const Y: nat := 3
  const BACK: nat := 8
  const START: nat := 9
  const DPAD_UP: nat := 12
  const DPAD_DOWN: nat := 13
  const DPAD_LEFT: nat := 14
  const DPAD_RIGHT: nat := 15

  function Flag(m: map<nat, bool>, b: nat): bool
  {
    b in m && m[b]
  }

  /** Whether the player's pad is connected and the player is enabled. */
  predicate Active(p: Player)
  {
    p.original.connected && !p.disabled
  }

  /** `getPlayer`. */
  function GetPlayer(players: map<nat, Player>, k: nat): (p: Player)
    ensures p == NULL_GAMEPAD || (k in players && Active(players[k]) && p == players[k])
    ensures k in players && Active(players[k]) ==> p == players[k]
  {
    if k in players && Active(players[k]) then players[k] else NULL_GAMEPAD
  }

  lemma NullGamepadIsIdle(b: nat)
    ensures !Flag(NULL_GAMEPAD.down, b) && !Flag(NULL_GAMEPAD.justDown, b) && !Flag(NULL_GAMEPAD.justUp, b)
    ensures !Active(NULL_GAMEPAD)
  {
  }

  // ---------------------------------------------------------------------
  // Button edges

  /** The flags of button `j` after an update that saw it `pressed`. */
  function ButtonStep(p: Player, j: nat, pressed: bool): Player
  {
    if pressed then
      p.(justDown := p.justDown[j := !Flag(p.down, j)], down := p.down[j := true], justUp := p.justUp[j := false])
    else
      p.(justUp := p.justUp[j := Flag(p.down, j)], down := p.down[j := false], justDown := p.justDown[j := false])
  }

  /** The player after the first `n` buttons of its pad were processed. */
  function EdgesUpTo(p: Player, n: nat): Player
    requires n <= |p.original.pressed|
  {
    if n == 0 then p else ButtonStep(EdgesUpTo(p, n - 1), n - 1, p.original.pressed[n - 1])
  }

  lemma {:induction false} EdgesUpToKeepsPad(p: Player, n: nat)
    requires n <= |p.original.pressed|
    ensures EdgesUpTo(p, n).original == p.original && EdgesUpTo(p, n).disabled == p.disabled
    ensures EdgesUpTo(p, n).axesPrev == p.axesPrev
  {
    if n > 0 {
      EdgesUpToKeepsPad(p, n - 1);
    }
  }

  /** One button step sets that button's flags and no other. */
  lemma ButtonStepFlags(p: Player, i: nat, pressed: bool, j: nat)
    ensures var q := ButtonStep(p, i, pressed);
      if i == j then
        && Flag(q.down, j) == pressed
        && Flag(q.justDown, j) == (pressed && !Flag(p.down, j))
        && Flag(q.justUp, j) == (!pressed && Flag(p.down, j))
      else
        && Flag(q.down, j) == Flag(p.down, j)
        && Flag(q.justDown, j) == Flag(p.justDown, j)
        && Flag(q.justUp, j) == Flag(p.justUp, j)
  {
  }

  /** After processing `n` buttons, each of them is down exactly when
      pressed, just down when pressed now and not down before, just up when
      released now and down before; the others keep their flags. */
  lemma {:induction false} EdgesUpToFlags(p: Player, n: nat, j: nat)
    requires n <= |p.original.pressed|
    ensures j < n ==>
      && Flag(EdgesUpTo(p, n).down, j) == p.original.pressed[j]
      && Flag(EdgesUpTo(p, n).justDown, j) == (p.original.pressed[j] && !Flag(p.down, j))
      && Flag(EdgesUpTo(p, n).justUp, j) == (!p.original.pressed[j] && Flag(p.down, j))
    ensures n <= j ==>
      && Flag(EdgesUpTo(p, n).down, j) == Flag(p.down, j)
      && Flag(EdgesUpTo(p, n).justDown, j) == Flag(p.justDown, j)
      && Flag(EdgesUpTo(p, n).justUp, j) == Flag(p.justUp, j)
  {
    if n <= j {
      EdgesUpToLater(p, n, j);
    } else {
      var prev, b := EdgesUpTo(p, n - 1), p.original.pressed[n - 1];
      assert EdgesUpTo(p, n) == ButtonStep(prev, n - 1, b);
      ButtonStepFlags(prev, n - 1, b, j);
      if j == n - 1 {
        EdgesUpToLater(p, n - 1, j);
      } else {
        EdgesUpToFlags(p, n - 1, j);
      }
    }
  }

  /** Buttons at or after `n` are untouched by the first `n` steps. */
  lemma {:induction false} EdgesUpToLater(p: Player, n: nat, j: nat)
    requires n <= |p.original.pressed| && n <= j
    ensures Flag(EdgesUpTo(p, n).down, j) == Flag(p.down, j)
    ensures Flag(EdgesUpTo(p, n).justDown, j) == Flag(p.justDown, j)
    ensures Flag(EdgesUpTo(p, n).justUp, j) == Flag(p.justUp, j)
  {
    if n > 0 {
      var prev, b := EdgesUpTo(p, n - 1), p.original.pressed[n - 1];
      assert EdgesUpTo(p, n) == ButtonStep(prev, n - 1, b);
      ButtonStepFlags(prev, n - 1, b, j);
      EdgesUpToLater(p, n - 1, j);
    }
  }

  /** A player after the button pass of `update`. */
  function Edges(p: Player): Player
  {
    if Active(p) then EdgesUpTo(p, |p.original.pressed|) else p
  }

  /** A button is never both just down and just up after an update. */
  lemma EdgesExclusive(p: Player, j: nat)
    requires Active(p) && j < |p.original.pressed|
    ensures Flag(Edges(p).down, j) == p.original.pressed[j]
    ensures Flag(Edges(p).justDown, j) <==> p.original.pressed[j] && !Flag(p.down, j)
    ensures Flag(Edges(p).justUp, j) <==> !p.original.pressed[j] && Flag(p.down, j)
    ensures !(Flag(Edges(p).justDown, j) && Flag(Edges(p).justUp, j))
  {
    EdgesUpToFlags(p, |p.original.pressed|, j);
  }

  /** A player after the axis snapshot of `update`. */
  function SaveAxes(p: Player): Player
  {
    if Active(p) then p.(axesPrev := p.original.axes) else p
  }

  function SavedAll(players: map<nat, Player>): map<nat, Player>
  {
    map k | k in players :: SaveAxes(players[k])
  }

  function EdgesAll(players: map<nat, Player>): map<nat, Player>
  {
    map k | k in players :: Edges(players[k])
  }

  // ---------------------------------------------------------------------
  // Connections

  function NewPlayer(gp: Pad): Player
  {
    Player(false, gp, map[], map[], map[], [])
  }

  function Disable(p: Player): Player
  {
    p.(disabled := true)
  }

  /** The table after one entry of the browser's pad list. */
  function PollStep(players: map<nat, Player>, entry: Option<Pad>): map<nat, Player>
  {
    match entry
    case None => players
    case Some(gp) =>
      if gp.connected then
        var p := if gp.index in players then players[gp.index].(original := gp) else NewPlayer(gp);
        players[gp.index := p.(disabled := false)]
      else players - {gp.index}
  }

  /** The table after a whole pad list, taken in order. */
  function PollFold(players: map<nat, Player>, gps: seq<Option<Pad>>): map<nat, Player>
    decreases |gps|
  {
    if gps == [] then players else PollFold(PollStep(players, gps[0]), gps[1..])
  }

  function DisableAll(players: map<nat, Player>): map<nat, Player>
  {
    map k | k in players :: Disable(players[k])
  }

  predicate AnyConnected(gps: seq<Option<Pad>>)
  {
    exists i :: 0 <= i < |gps| && gps[i].Some? && gps[i].value.connected
  }

  /** No two pads of the list share an index. */
  predicate DistinctIndices(gps: seq<Option<Pad>>)
  {
    forall i, j :: 0 <= i < j < |gps| && gps[i].Some? && gps[j].Some? ==> gps[i].value.index != gps[j].value.index
  }

  /** Whether the list holds a pad with index `k`. */
  predicate Listed(gps: seq<Option<Pad>>, k: nat)
  {
    exists i :: 0 <= i < |gps| && gps[i].Some? && gps[i].value.index == k
  }

  /** The pad of the list with index `k`. */
  ghost function PadAt(gps: seq<Option<Pad>>, k: nat): (gp: Pad)
    requires Listed(gps, k)
    ensures exists i :: 0 <= i < |gps| && gps[i] == Some(gp) && gp.index == k
  {
    var i :| 0 <= i < |gps| && gps[i].Some? && gps[i].value.index == k;
    gps[i].value
  }

  /** How the pad lists with and without their first entry answer for
      index `k`. */
  lemma ListedTail(gps: seq<Option<Pad>>, k: nat)
    requires DistinctIndices(gps) && gps != []
    ensures DistinctIndices(gps[1..])
    ensures gps[0].Some? && gps[0].value.index == k ==>
              Listed(gps, k) && PadAt(gps, k) == gps[0].value && !Listed(gps[1..], k)
    ensures !(gps[0].Some? && gps[0].value.index == k) ==>
              (Listed(gps, k) <==> Listed(gps[1..], k)) &&
              (Listed(gps, k) ==> PadAt(gps, k) == PadAt(gps[1..], k))
  {
    var rest := gps[1..];
    assert DistinctIndices(rest) by {
      forall i, j | 0 <= i < j < |rest| && rest[i].Some? && rest[j].Some?
        ensures rest[i].value.index != rest[j].value.index
      {
        assert rest[i] == gps[i + 1] && rest[j] == gps[j + 1];
      }
    }
    if gps[0].Some? && gps[0].value.index == k {
      assert Listed(gps, k);
      assert PadAt(gps, k) == gps[0].value by {
        var i :| 0 <= i < |gps| && gps[i] == Some(PadAt(gps, k)) && PadAt(gps, k).index == k;
        assert i == 0;
      }
      assert !Listed(rest, k) by {
        forall i | 0 <= i < |rest| && rest[i].Some?
          ensures rest[i].value.index != k
        {
          assert gps[i + 1] == rest[i];
        }
      }
    } else {
      assert Listed(gps, k) <==> Listed(rest, k) by {
        if Listed(gps, k) {
          var i :| 0 <= i < |gps| && gps[i].Some? && gps[i].value.index == k;
          assert i > 0 && rest[i - 1] == gps[i];
        }
        if Listed(rest, k) {
          var i :| 0 <= i < |rest| && rest[i].Some? && rest[i].value.index == k;
          assert gps[i + 1] == rest[i];
        }
      }
      if Listed(gps, k) {
        assert PadAt(gps, k) == PadAt(rest, k) by {
          var i :| 0 <= i < |gps| && gps[i] == Some(PadAt(gps, k)) && PadAt(gps, k).index == k;
          var i' :| 0 <= i' < |rest| && rest[i'] == Some(PadAt(rest, k)) && PadAt(rest, k).index == k;
          assert gps[i' + 1] == rest[i'];
          assert i == i' + 1;
        }
      }
    }
  }

  /** With pads of distinct indices, the fold decides each key from that
      key's pad alone: a connected pad creates or refreshes an enabled
      player that keeps its button flags, a disconnected pad removes the
      player, and an unlisted key is left as it was. */
  lemma {:induction false} PollFoldPointwise(players: map<nat, Player>, gps: seq<Option<Pad>>, k: nat)
    requires DistinctIndices(gps)
    ensures !Listed(gps, k) ==>
              (k in PollFold(players, gps) <==> k in players) &&
              (k in players ==> PollFold(players, gps)[k] == players[k])
    ensures Listed(gps, k) && !PadAt(gps, k).connected ==> k !in PollFold(players, gps)
    ensures Listed(gps, k) && PadAt(gps, k).connected ==>
              k in PollFold(players, gps) &&
              PollFold(players, gps)[k] ==
                (if k in players then players[k].(original := PadAt(gps, k), disabled := false)
                 else NewPlayer(PadAt(gps, k)))
    decreases |gps|
  {
    if gps != [] {
      ListedTail(gps, k);
      PollFoldPointwise(PollStep(players, gps[0]), gps[1..], k);
    }
  }

  // ---------------------------------------------------------------------
  // Live pad objects

  /** The state that the browser's pad object for index `k` shows now. It
      is the list's first entry with that index. When the list has no such
      entry, it is the stored pad, now reporting itself disconnected. */
  function LivePad(gps: seq<Option<Pad>>, k: nat, stored: Pad): (gp: Pad)
    ensures Listed(gps, k) ==> gp.index == k && exists i :: 0 <= i < |gps| && gps[i] == Some(gp)
    ensures !Listed(gps, k) ==> gp == stored.(connected := false)
    decreases |gps|
  {
    if gps == [] then stored.(connected := false)
    else if gps[0].Some? && gps[0].value.index == k then
      assert gps[0] == Some(gps[0].value);
      gps[0].value
    else
      var gp := LivePad(gps[1..], k, stored);
      assert Listed(gps, k) <==> Listed(gps[1..], k) by {
        if Listed(gps, k) {
          var i :| 0 <= i < |gps| && gps[i].Some? && gps[i].value.index == k;
          assert i > 0 && gps[1..][i - 1] == gps[i];
        }
        if Listed(gps[1..], k) {
          var i :| 0 <= i < |gps[1..]| && gps[1..][i].Some? && gps[1..][i].value.index == k;
          assert gps[i + 1] == gps[1..][i];
        }
      }
      assert Listed(gps[1..], k) ==> exists i :: 0 <= i < |gps| && gps[i] == Some(gp) by {
        if Listed(gps[1..], k) {
          var i :| 0 <= i < |gps[1..]| && gps[1..][i] == Some(gp);
          assert gps[i + 1] == gps[1..][i];
        }
      }
      gp
  }

  /** Without polling, the stored pad of player `k` is the browser's live
      object, and the browser has updated it in place. */
  function Refresh(p: Player, k: nat, gps: seq<Option<Pad>>): Player
  {
    p.(original := LivePad(gps, k, p.original))
  }

  function RefreshedAll(players: map<nat, Player>, gps: seq<Option<Pad>>): map<nat, Player>
  {
    map k | k in players :: Refresh(players[k], k, gps)
  }

  /** Without polling, the axis snapshot and the button pass read the same
      live pad objects. After an update, an active player's pad is the
      live state of its index, its previous axes equal its current ones,
      and each of its buttons is down exactly when the live pad has it
      pressed. The player's disabled flag is unchanged. */
  lemma LiveUpdate(players: map<nat, Player>, gps: seq<Option<Pad>>, k: nat, j: nat)
    requires k in players
    ensures var q := EdgesAll(SavedAll(RefreshedAll(players, gps)))[k];
      && q.disabled == players[k].disabled
      && (Active(q) ==>
            && q.original == LivePad(gps, k, players[k].original)
            && q.axesPrev == q.original.axes
            && (j < |q.original.pressed| ==> Flag(q.down, j) == q.original.pressed[j]))
  {
    var r := Refresh(players[k], k, gps);
    var s := SaveAxes(r);
    assert EdgesAll(SavedAll(RefreshedAll(players, gps)))[k] == Edges(s);
    EdgesUpToKeepsPad(s, |s.original.pressed|);
    if Active(Edges(s)) && j < |s.original.pressed| {
      EdgesExclusive(s, j);
    }
  }

  // ---------------------------------------------------------------------
  // Queries

  datatype Flags = DownFlags | JustDownFlags | JustUpFlags

  function FlagsOf(p: Player, which: Flags): map<nat, bool>
  {
    match which
    case DownFlags => p.down
    case JustDownFlags => p.justDown
    case JustUpFlags => p.justUp
  }

  /** `isDown`, `isJustDown` and `isJustUp`: a missing button throws, a
      missing player means "any known player". */
  function Query(players: map<nat, Player>, which: Flags, btn: Option<nat>, player: Option<nat>): Result<bool>
  {
    match btn
    case None => Err("must specify a button")
    case Some(b) =>
      match player
      case Some(k) => Ok(Flag(FlagsOf(GetPlayer(players, k), which), b))
      case None => Ok(exists k :: k in players && Flag(FlagsOf(GetPlayer(players, k), which), b))
  }

  /** The query throws exactly when the button is missing; over all players
      it holds exactly when it holds for one of them; an inactive player
      answers false. */
  lemma QueryMeaning(players: map<nat, Player>, which: Flags, btn: Option<nat>, player: Option<nat>)
    ensures Query(players, which, btn, player).Err? <==> btn.None?
    ensures btn.Some? && player.None? ==>
              (Query(players, which, btn, None) == Ok(true) <==>
               exists k :: k in players && Query(players, which, btn, Some(k)) == Ok(true))
    ensures btn.Some? && player.Some? && !(player.value in players && Active(players[player.value])) ==>
              Query(players, which, btn, player) == Ok(false)
  {
  }

  /** A just-pressed button is never also just released on the same
      player after an update. */
  lemma QueryAfterUpdate(p: Player, j: nat)
    requires Active(p) && j < |p.original.pressed|
    ensures Query(map[0 := Edges(p)], DownFlags, Some(j), Some(0)) == Ok(p.original.pressed[j])
    ensures !(Query(map[0 := Edges(p)], JustDownFlags, Some(j), Some(0)) == Ok(true) &&
              Query(map[0 := Edges(p)], JustUpFlags, Some(j), Some(0)) == Ok(true))
  {
    EdgesExclusive(p, j);
    EdgesUpToKeepsPad(p, |p.original.pressed|);
  }

  // ---------------------------------------------------------------------
  // D-pad

  datatype Dpad = Dpad(x: int, y: int)

  function Bit(b: bool): int
  {
    if b then 1 else 0
  }

  /** `getDpad` for one player. */
  function PlayerDpad(p: Player): (d: Dpad)
    ensures -1 <= d.x <= 1 && -1 <= d.y <= 1
    ensures d.x == Bit(Flag(p.down, DPAD_RIGHT)) - Bit(Flag(p.down, DPAD_LEFT))
    ensures d.y == Bit(Flag(p.down, DPAD_UP)) - Bit(Flag(p.down, DPAD_DOWN))
  {
    var x := (if Flag(p.down, DPAD_RIGHT) then 1 else 0) + (if Flag(p.down, DPAD_LEFT) then -1 else 0);
    var y := (if Flag(p.down, DPAD_UP) then 1 else 0) + (if Flag(p.down, DPAD_DOWN) then -1 else 0);
    Dpad(x, y)
  }

  /** The componentwise sum of the d-pads of the players in `keys`. */
  ghost function DpadSum(players: map<nat, Player>, keys: set<nat>): Dpad
    decreases keys
  {
    if keys == {} then Dpad(0, 0)
    else
      var k :| k in keys;
      var d, rest := PlayerDpad(GetPlayer(players, k)), DpadSum(players, keys - {k});
      Dpad(d.x + rest.x, d.y + rest.y)
  }

  /** The sum does not depend on the order the players are taken in. */
  lemma {:induction false} DpadSumRemove(players: map<nat, Player>, keys: set<nat>, k: nat)
    requires k in keys
    ensures DpadSum(players, keys).x == PlayerDpad(GetPlayer(players, k)).x + DpadSum(players, keys - {k}).x
    ensures DpadSum(players, keys).y == PlayerDpad(GetPlayer(players, k)).y + DpadSum(players, keys - {k}).y
    decreases keys
  {
    var j :| j in keys && DpadSum(players, keys) ==
      Dpad(PlayerDpad(GetPlayer(players, j)).x + DpadSum(players, keys - {j}).x,
           PlayerDpad(GetPlayer(players, j)).y + DpadSum(players, keys - {j}).y);
    if j != k {
      DpadSumRemove(players, keys - {j}, k);
      DpadSumRemove(players, keys - {k}, j);
      assert keys - {j} - {k} == keys - {k} - {j};
    }
  }

  /** Each component of the sum is bounded by the number of players. */
  lemma {:induction false} DpadSumBounds(players: map<nat, Player>, keys: set<nat>)
    ensures -|keys| <= DpadSum(players, keys).x <= |keys|
    ensures -|keys| <= DpadSum(players, keys).y <= |keys|
    decreases keys
  {
    if keys != {} {
      var k :| k in keys;
      DpadSumRemove(players, keys, k);
      DpadSumBounds(players, keys - {k});
    }
  }

  // ---------------------------------------------------------------------
  // Analog thresholds

  /** `axisPast` on a normalised reading: a zero threshold throws, a
      missing (or zero) direction takes the threshold's sign. */
  function AxisPast(reading: real, threshold: real, direction: Option<real>): Result<bool>
  {
    if threshold == 0.0 then Err("must specify a non-zero threshold")
    else
      var dir := if direction.None? || direction.value == 0.0 then (if threshold > 0.0 then 1.0 else -1.0) else direction.value;
      Ok(if dir < 0.0 then reading < threshold else reading > threshold)
  }

  /** `axisJustPast`: past now and not past at the previous update. */
  function AxisJustPast(now: real, prev: real, threshold: real, direction: Option<real>): Result<bool>
  {
    match AxisPast(now, threshold, direction)
    case Err(e) => Err(e)
    case Ok(n) =>
      if !n then Ok(false)
      else match AxisPast(prev, threshold, direction)
        case Err(e) => Err(e)
        case Ok(p) => Ok(!p)
  }

  lemma AxisPastMeaning(reading: real, threshold: real, direction: Option<real>)
    ensures AxisPast(reading, threshold, direction).Err? <==> threshold == 0.0
    ensures threshold > 0.0 && (direction.None? || direction == Some(0.0)) ==>
              AxisPast(reading, threshold, direction) == Ok(reading > threshold)
    ensures threshold < 0.0 && (direction.None? || direction == Some(0.0)) ==>
              AxisPast(reading, threshold, direction) == Ok(reading < threshold)
  {
  }

  lemma AxisJustPastMeaning(now: real, prev: real, threshold: real, direction: Option<real>)
    requires threshold != 0.0
    ensures AxisJustPast(now, prev, threshold, direction)
         == Ok(AxisPast(now, threshold, direction).value && !AxisPast(prev, threshold, direction).value)
  {
  }

  /** The same reading never just passes a threshold in both directions. */
  lemma AxisJustPastOneWay(now: real, prev: real, threshold: real, dir: real)
    requires threshold != 0.0 && dir != 0.0
    ensures !(AxisJustPast(now, prev, threshold, Some(dir)) == Ok(true) &&
              AxisJustPast(now, prev, threshold, Some(-dir)) == Ok(true))
  {
  }

  // ---------------------------------------------------------------------
  // Key events

  datatype KeyEvent = KeyEvent(name: string, key: string, code: nat)

  /** Normalised readings of one axis, now and at the previous update,
      summed over the players. */
  datatype AxisReading = AxisReading(now: real, prev: real)

  function JustPastNow(r: AxisReading, threshold: real, dir: real): bool
    requires threshold != 0.0
  {
    AxisJustPast(r.now, r.prev, threshold, Some(dir)).value
  }

  /** The key events `move` dispatches for one direction. */
  function Move(players: map<nat, Player>, dpad: nat, face: nat, axis: AxisReading, axis2: AxisReading,
                threshold: real, dir: real, key: string, code: nat): (events: seq<KeyEvent>)
    requires threshold != 0.0
    ensures |events| <= 2
    ensures KeyEvent("keydown", key, code) in events <==>
              Query(players, JustDownFlags, Some(dpad), None) == Ok(true) ||
              Query(players, JustDownFlags, Some(face), None) == Ok(true) ||
              JustPastNow(axis, threshold, dir) || JustPastNow(axis2, threshold, dir)
    ensures KeyEvent("keyup", key, code) in events <==>
              Query(players, JustUpFlags, Some(dpad), None) == Ok(true) ||
              Query(players, JustUpFlags, Some(face), None) == Ok(true) ||
              JustPastNow(axis, threshold, -dir) || JustPastNow(axis2, threshold, -dir)
    ensures |events| == 2 ==> events[0].name == "keydown" && events[1].name == "keyup"
  {
    var down := Query(players, JustDownFlags, Some(dpad), None) == Ok(true) ||
                Query(players, JustDownFlags, Some(face), None) == Ok(true) ||
                JustPastNow(axis, threshold, dir) || JustPastNow(axis2, threshold, dir);
    var up := Query(players, JustUpFlags, Some(dpad), None) == Ok(true) ||
              Query(players, JustUpFlags, Some(face), None) == Ok(true) ||
              JustPastNow(axis, threshold, -dir) || JustPastNow(axis2, threshold, -dir);
    (if down then [KeyEvent("keydown", key, code)] else []) + (if up then [KeyEvent("keyup", key, code)] else [])
  }

  /** The readings of the four axes the plugin uses. */
  datatype Sticks = Sticks(lh: AxisReading, lv: AxisReading, rh: AxisReading, rv: AxisReading)

  /** Everything the hook before a playback update dispatches, in order. */
  function BeforeUpdateEvents(players: map<nat, Player>, sticks: Sticks): seq<KeyEvent>
  {
    var enterDown := Query(players, JustDownFlags, Some(START), None) == Ok(true) ||
                     Query(players, JustDownFlags, Some(BACK), None) == Ok(true);
    var enterUp := Query(players, JustUpFlags, Some(START), None) == Ok(true) ||
                   Query(players, JustUpFlags, Some(BACK), None) == Ok(true);
    Move(players, DPAD_LEFT, X, sticks.lh, sticks.rh, -0.5, -1.0, "ArrowLeft", 37)
    + Move(players, DPAD_RIGHT, B, sticks.lh, sticks.rh, 0.5, 1.0, "ArrowRight", 39)
    + Move(players, DPAD_UP, Y, sticks.lv, sticks.rv, -0.5, -1.0, "ArrowUp", 38)
    + Move(players, DPAD_DOWN, A, sticks.lv, sticks.rv, 0.5, 1.0, "ArrowDown", 40)
    + (if enterDown then [KeyEvent("keydown", "Enter", 13)] else [])
    + (if enterUp then [KeyEvent("keyup", "Enter", 13)] else [])
  }

  /** A reading that has not moved since the previous update. */
  predicate Steady(r: AxisReading)
  {
    r.now == r.prev
  }

  /** A reading that has not moved never just passes a threshold. */
  lemma SteadyNotJustPast(x: real, threshold: real, direction: Option<real>)
    requires threshold != 0.0
    ensures AxisJustPast(x, x, threshold, direction) == Ok(false)
  {
  }

  /** Over an empty player table every button query is false. */
  lemma NoPlayersNoQuery(which: Flags, b: nat)
    ensures Query(map[], which, Some(b), None) == Ok(false)
  {
  }

  /** With no player table and steady sticks, one direction sends nothing. */
  lemma MoveQuiet(dpad: nat, face: nat, axis: AxisReading, axis2: AxisReading,
                  threshold: real, dir: real, key: string, code: nat)
    requires threshold != 0.0 && Steady(axis) && Steady(axis2)
    ensures Move(map[], dpad, face, axis, axis2, threshold, dir, key, code) == []
  {
    NoPlayersNoQuery(JustDownFlags, dpad);
    NoPlayersNoQuery(JustDownFlags, face);
    NoPlayersNoQuery(JustUpFlags, dpad);
    NoPlayersNoQuery(JustUpFlags, face);
    SteadyNotJustPast(axis.now, threshold, Some(dir));
    SteadyNotJustPast(axis2.now, threshold, Some(dir));
    SteadyNotJustPast(axis.now, threshold, Some(-dir));
    SteadyNotJustPast(axis2.now, threshold, Some(-dir));
  }

  /** With no player table and sticks that have not moved since the
      previous update, the hook dispatches nothing. */
  lemma QuietWithoutPlayers(sticks: Sticks)
    requires Steady(sticks.lh) && Steady(sticks.lv) && Steady(sticks.rh) && Steady(sticks.rv)
    ensures BeforeUpdateEvents(map[], sticks) == []
  {
    MoveQuiet(DPAD_LEFT, X, sticks.lh, sticks.rh, -0.5, -1.0, "ArrowLeft", 37);
    MoveQuiet(DPAD_RIGHT, B, sticks.lh, sticks.rh, 0.5, 1.0, "ArrowRight", 39);
    MoveQuiet(DPAD_UP, Y, sticks.lv, sticks.rv, -0.5, -1.0, "ArrowUp", 38);
    MoveQuiet(DPAD_DOWN, A, sticks.lv, sticks.rv, 0.5, 1.0, "ArrowDown", 40);
    NoPlayersNoQuery(JustDownFlags, START);
    NoPlayersNoQuery(JustDownFlags, BACK);
    NoPlayersNoQuery(JustUpFlags, START);
    NoPlayersNoQuery(JustUpFlags, BACK);
  }

  // ---------------------------------------------------------------------
  // The plugin's state

  class Gamepads {
    var players: map<nat, Player>
    var connected: bool
    /** Whether connections are polled on every update (all browsers but
        Firefox, which reports connections with events instead). */
    const pollEveryFrame: bool

    constructor(pollEveryFrame: bool)
      ensures players == map[] && !connected && this.pollEveryFrame == pollEveryFrame
    {
      players := map[];
      connected := false;
      this.pollEveryFrame := pollEveryFrame;
    }

    /** `pollconnections`, given the browser's pad list. */
    method PollConnections(gps: seq<Option<Pad>>)
      modifies this
      ensures players == PollFold(DisableAll(old(players)), gps)
      ensures connected == AnyConnected(gps)
    {
      connected := false;
      DisablePlayers();
      ghost var start := players;
      for i := 0 to |gps|
        invariant PollFold(start, gps) == PollFold(players, gps[i..])
        invariant connected <==> AnyConnected(gps[..i])
      {
        assert gps[i..][1..] == gps[i + 1..];
        assert gps[..i + 1][..i] == gps[..i];
        var entry := gps[i];
        ghost var before := players;
        if entry.Some? {
          var gp := entry.value;
          if gp.connected {
            if gp.index !in players {
              players := players[gp.index := NewPlayer(gp)];
            } else {
              players := players[gp.index := players[gp.index].(original := gp)];
            }
            connected := true;
            players := players[gp.index := players[gp.index].(disabled := false)];
          } else {
            players := players - {gp.index};
          }
        }
        assert players == PollStep(before, entry);
      }
      assert gps[|gps|..] == [];
      assert gps[..|gps|] == gps;
    }

    /** The first step of `pollconnections`: every known player is
        disabled until its pad is seen again. */
    method DisablePlayers()
      modifies this
      ensures players == DisableAll(old(players)) && connected == old(connected)
    {
      var todo := players.Keys;
      ghost var done: set<nat> := {};
      while todo != {}
        invariant done !! todo && done + todo == old(players).Keys && players.Keys == old(players).Keys
        invariant forall k :: k in done ==> players[k] == Disable(old(players)[k])
        invariant forall k :: k in todo ==> players[k] == old(players)[k]
        invariant connected == old(connected)
        decreases todo
      {
        var k :| k in todo;
        players := players[k := players[k].(disabled := true)];
        todo := todo - {k};
        done := done + {k};
      }
    }

    /** `update`: snapshot the axes, poll when polling every frame, then
        recompute every active player's button flags. `gps` is the
        browser's pad list at this frame. Without polling, the stored pads
        are live objects that already show that state. */
    method Update(gps: seq<Option<Pad>>)
      modifies this
      ensures var live := if pollEveryFrame then old(players) else RefreshedAll(old(players), gps);
              var polled := if pollEveryFrame then PollFold(DisableAll(SavedAll(live)), gps)
                            else SavedAll(live);
              players == EdgesAll(polled)
      ensures connected == if pollEveryFrame then AnyConnected(gps) else old(connected)
    {
      if !pollEveryFrame {
        // The stored pads are the browser's live objects: they already
        // show the current state.
        players := RefreshedAll(players, gps);
      }
      SaveAllAxes();
      if pollEveryFrame {
        PollConnections(gps);
      }
      UpdateButtons();
    }

    /** The first pass of `update`: every active player's axes are copied
        to `axesPrev`. */
    method SaveAllAxes()
      modifies this
      ensures players == SavedAll(old(players)) && connected == old(connected)
    {
      var todo := players.Keys;
      ghost var done: set<nat> := {};
      while todo != {}
        invariant done !! todo && done + todo == old(players).Keys && players.Keys == old(players).Keys
        invariant forall k :: k in done ==> players[k] == SaveAxes(old(players)[k])
        invariant forall k :: k in todo ==> players[k] == old(players)[k]
        invariant connected == old(connected)
        decreases todo
      {
        var k :| k in todo;
        var p := GetPlayer(players, k);
        if p != NULL_GAMEPAD {
          players := players[k := p.(axesPrev := p.original.axes)];
        }
        todo := todo - {k};
        done := done + {k};
      }
    }

    /** The last pass of `update`: every active player's button flags are
        recomputed from its pad. */
    method UpdateButtons()
      modifies this
      ensures players == EdgesAll(old(players)) && connected == old(connected)
    {
      var todo := players.Keys;
      ghost var done: set<nat> := {};
      while todo != {}
        invariant done !! todo && done + todo == old(players).Keys && players.Keys == old(players).Keys
        invariant forall k :: k in done ==> players[k] == Edges(old(players)[k])
        invariant forall k :: k in todo ==> players[k] == old(players)[k]
        invariant connected == old(connected)
        decreases todo
      {
        var k :| k in todo;
        var p := players[k];
        if Active(p) {
          p := ButtonEdges(p);
          players := players[k := p];
        }
        todo := todo - {k};
        done := done + {k};
      }
    }

    /** The button loop of `update` for one player. */
    static method ButtonEdges(p0: Player) returns (p: Player)
      ensures p == EdgesUpTo(p0, |p0.original.pressed|)
    {
      p := p0;
      for j := 0 to |p0.original.pressed|
        invariant p == EdgesUpTo(p0, j)
      {
        EdgesUpToKeepsPad(p0, j);
        if p.original.pressed[j] {
          p := p.(justDown := p.justDown[j := !Flag(p.down, j)], down := p.down[j := true], justUp := p.justUp[j := false]);
        } else {
          p := p.(justUp := p.justUp[j := Flag(p.down, j)], down := p.down[j := false], justDown := p.justDown[j := false]);
        }
      }
    }

    /** `getDpad`: one player's d-pad, or the sum over all players. */
    method GetDpad(player: Option<nat>) returns (d: Dpad)
      ensures player.Some? ==> d == PlayerDpad(GetPlayer(players, player.value))
      ensures player.None? ==> d == DpadSum(players, players.Keys)
    {
      if player.Some? {
        var p := GetPlayer(players, player.value);
        var x, y := 0, 0;
        if Flag(p.down, DPAD_RIGHT) { x := x + 1; }
        if Flag(p.down, DPAD_LEFT) { x := x - 1; }
        if Flag(p.down, DPAD_UP) { y := y + 1; }
        if Flag(p.down, DPAD_DOWN) { y := y - 1; }
        return Dpad(x, y);
      }
      var x, y := 0, 0;
      var todo := players.Keys;
      while todo != {}
        invariant todo <= players.Keys
        invariant x + DpadSum(players, todo).x == DpadSum(players, players.Keys).x
        invariant y + DpadSum(players, todo).y == DpadSum(players, players.Keys).y
        decreases todo
      {
        var k :| k in todo;
        DpadSumRemove(players, todo, k);
        var pd := PlayerDpad(GetPlayer(players, k));
        x, y := x + pd.x, y + pd.y;
        todo := todo - {k};
      }
      d := Dpad(x, y);
    }
  }
}
