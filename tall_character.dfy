/**
  Tall character: the event tagged `is-head` is moved before every render
  to the avatar's room, one cell from the avatar in the configured
  direction.
*/
module TallCharacter {
  import opened Host

  /** A direction as a cell offset. */
  datatype Offset = Offset(dx: int, dy: int)

  /** The `directions` table; any other name is not in it. */
  function Lookup(name: string): Option<Offset>
  {
    if name == "up" then Some(Offset(0, -1))
    else if name == "down" then Some(Offset(0, 1))
    else if name == "left" then Some(Offset(-1, 0))
    else if name == "right" then Some(Offset(1, 0))
    else None
  }

  /** The configured direction: the `direction` text, "up" when it is
      empty, and up again when the table has no such name. */
  function Direction(config: string): (d: Offset)
  {
    var found := Lookup(if config == "" then "up" else config);
    if found.Some? then found.value else Offset(0, -1)
  }

  /** One step along a single axis. */
  predicate Unit(d: Offset)
  {
    (d.dx == 0 && (d.dy == 1 || d.dy == -1)) || (d.dy == 0 && (d.dx == 1 || d.dx == -1))
  }

  /** Every direction is a unit step along one axis; the four names give
      four different steps, and every other text (the empty one included)
      gives up. */
  lemma DirectionRule(config: string)
    ensures Unit(Direction(config))
    ensures config == "up" || config == "down" || config == "left" || config == "right" ||
            Direction(config) == Offset(0, -1)
    ensures Direction("up") == Offset(0, -1) && Direction("down") == Offset(0, 1) &&
            Direction("left") == Offset(-1, 0) && Direction("right") == Offset(1, 0)
  {
  }

  /** A room and a cell in it. */
  datatype Location = Location(room: int, x: int, y: int)

  /** Where the head goes: the avatar's room, the avatar's cell plus the
      direction (not kept inside the room's bounds). */
  function HeadLocation(avatar: Location, d: Offset): Location
  {
    Location(avatar.room, avatar.x + d.dx, avatar.y + d.dy)
  }

  /** The event locations after one render hook. */
  function Moved(locations: map<nat, Location>, avatar: nat, head: nat, d: Offset): map<nat, Location>
    requires avatar in locations
  {
    locations[head := HeadLocation(locations[avatar], d)]
  }

  /** The head ends up next to the avatar, in its room, and no other
      event moves; since only the avatar's location is read, doing it again
      changes nothing. */
  lemma MovedRule(locations: map<nat, Location>, avatar: nat, head: nat, d: Offset)
    requires avatar in locations && avatar != head
    ensures var r := Moved(locations, avatar, head, d);
            r.Keys == locations.Keys + {head} && r[avatar] == locations[avatar] &&
            r[head].room == locations[avatar].room &&
            r[head].x - r[avatar].x == d.dx && r[head].y - r[avatar].y == d.dy &&
            (forall e :: e in locations && e != head ==> r[e] == locations[e]) &&
            Moved(r, avatar, head, d) == r
  {
    var r := Moved(locations, avatar, head, d);
    assert r[head := HeadLocation(r[avatar], d)] == r;
  }

  class World {
    var locations: map<nat, Location>

    constructor(locations: map<nat, Location>)
      ensures this.locations == locations
    {
      this.locations := locations;
    }

    /** The render hook: `moveEvent` of the head to its place by the
        avatar. */
    method PlaceHead(avatar: nat, head: nat, d: Offset)
      requires avatar in locations
      modifies this
      ensures locations == Moved(old(locations), avatar, head, d)
    {
      var pos := locations[avatar];
      locations := locations[head := Location(pos.room, pos.x + d.dx, pos.y + d.dy)];
    }
  }
}
