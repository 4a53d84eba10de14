/**
  Event-bound images: an image shown with SHOW_IMAGE can be bound to an
  event, and before every render each bound image is moved to its event's
  cell (cell × TILE_PX plus the offset the image had when it was bound),
  or off the room's right edge when the event is not in the avatar's
  room.  Images are objects the host shares with the bindings, so they are
  a class whose position the plugin assigns in place.
*/
module EventBoundImages {
  import opened Host

  /** A shown image; the plugin writes only its position. */
  class Image {
    var x: int
    var y: int

    constructor(x: int, y: int)
      ensures this.x == x && this.y == y
    {
      this.x := x;
      this.y := y;
    }
  }

  /** Where the host says an event is: its room's id and its cell. */
  datatype Placement = Placement(room: int, x: int, y: int)

  /** A binding: the event, the image it moves and the image's position
      when it was bound. */
  datatype Binding = Binding(event: nat, image: Image, offsetX: int, offsetY: int)

  /** The image position one update gives: in the avatar's room the
      event's cell scaled by TILE_PX plus the offset; elsewhere x is
      ROOM_PX, just off screen, and y stays where it was. */
  function Placed(b: Binding, x: int, y: int, p: Placement, currentRoom: int): (int, int)
  {
    if p.room != currentRoom then (ROOM_PX, y)
    else (p.x * TILE_PX + b.offsetX, p.y * TILE_PX + b.offsetY)
  }

  /** An image in the avatar's room sits at its event's cell plus the
      offset, and the offset can be read back from the position; out of
      the room it is off screen. */
  lemma PlacedRule(b: Binding, x: int, y: int, p: Placement, currentRoom: int)
    ensures var (nx, ny) := Placed(b, x, y, p, currentRoom);
            (p.room == currentRoom ==> nx - p.x * TILE_PX == b.offsetX && ny - p.y * TILE_PX == b.offsetY) &&
            (p.room != currentRoom ==> nx == ROOM_PX && ny == y)
  {
  }

  /** An update reads the stored offset, not the image's position, so
      repeating it for the same placement changes nothing more. */
  lemma PlacedIdempotent(b: Binding, x: int, y: int, p: Placement, currentRoom: int)
    ensures var (nx, ny) := Placed(b, x, y, p, currentRoom);
            Placed(b, nx, ny, p, currentRoom) == (nx, ny)
  {
  }

  /** The image follows its event: two updates in the avatar's room move
      it by exactly the event's displacement in cells, times TILE_PX. */
  lemma PlacedFollows(b: Binding, x: int, y: int, p: Placement, q: Placement, currentRoom: int)
    requires p.room == currentRoom && q.room == currentRoom
    ensures var (px, py) := Placed(b, x, y, p, currentRoom);
            var (qx, qy) := Placed(b, px, py, q, currentRoom);
            qx - px == (q.x - p.x) * TILE_PX && qy - py == (q.y - p.y) * TILE_PX
  {
  }

  /** The images of a set of bindings. */
  function ImagesOf(bindings: map<string, Binding>): set<Image>
  {
    set k | k in bindings :: bindings[k].image
  }

  /** Every bound event has a placement. */
  predicate AllPlaced(bindings: map<string, Binding>, world: map<nat, Placement>)
  {
    forall k :: k in bindings ==> bindings[k].event in world
  }

  class Registry {
    var bindings: map<string, Binding>

    /** Distinct bindings move distinct images. */
    predicate Valid()
      reads this
    {
      forall a, b :: a in bindings && b in bindings && a != b ==> bindings[a].image != bindings[b].image
    }

    /** The `init` hook: no bindings. */
    constructor Init()
      ensures bindings == map[] && Valid()
    {
      bindings := map[];
    }

    /** `updateEventBoundImage`. */
    static method Update(b: Binding, world: map<nat, Placement>, currentRoom: int)
      requires b.event in world
      modifies b.image
      ensures (b.image.x, b.image.y) == Placed(b, old(b.image.x), old(b.image.y), world[b.event], currentRoom)
    {
      var p := world[b.event];
      if p.room != currentRoom {
        b.image.x := ROOM_PX;
        return;
      }
      b.image.x := p.x * TILE_PX + b.offsetX;
      b.image.y := p.y * TILE_PX + b.offsetY;
    }

    /** `bindImageToEvent`: an id the host has no image for is reported
        and nothing changes; otherwise the binding (replacing any earlier
        one for the id) records the image's current position as its offset,
        and the image is placed at once. */
    method Bind(imageId: string, event: nat, images: map<string, Image>, world: map<nat, Placement>,
                currentRoom: int) returns (ok: bool)
      requires Valid() && event in world
      requires imageId in images ==> forall k :: k in bindings && k != imageId ==> bindings[k].image != images[imageId]
      modifies this, if imageId in images then {images[imageId]} else {}
      ensures ok <==> imageId in images
      ensures !ok ==> bindings == old(bindings)
      ensures ok ==> var image := images[imageId];
                     bindings == old(bindings)[imageId := Binding(event, image, old(image.x), old(image.y))] &&
                     (image.x, image.y) == Placed(bindings[imageId], old(image.x), old(image.y), world[event], currentRoom)
      ensures Valid()
    {
      if imageId !in images {
        ok := false;
        return;
      }
      ok := true;
      var image := images[imageId];
      bindings := bindings[imageId := Binding(event, image, image.x, image.y)];
      Update(bindings[imageId], world, currentRoom);
    }

    /** After the host's `hideImage`: only that id's binding goes. */
    method HideImage(imageId: string)
      requires Valid()
      modifies this
      ensures bindings == old(bindings) - {imageId}
      ensures Valid()
    {
      bindings := bindings - {imageId};
    }

    /** The `render` hook: every bound image is updated for the avatar's
        room; images nobody binds are untouched. */
    method Render(world: map<nat, Placement>, currentRoom: int)
      requires Valid() && AllPlaced(bindings, world)
      modifies ImagesOf(bindings)
      ensures forall k :: k in bindings ==>
                var b := bindings[k];
                (b.image.x, b.image.y) == Placed(b, old(b.image.x), old(b.image.y), world[b.event], currentRoom)
    {
      var todo := bindings.Keys;
      while todo != {}
        invariant todo <= bindings.Keys
        invariant forall k :: k in bindings && k !in todo ==>
                    var b := bindings[k];
                    (b.image.x, b.image.y) == Placed(b, old(b.image.x), old(b.image.y), world[b.event], currentRoom)
        invariant forall k :: k in todo ==>
                    bindings[k].image.x == old(bindings[k].image.x) && bindings[k].image.y == old(bindings[k].image.y)
        decreases todo
      {
        var k :| k in todo;
        Update(bindings[k], world, currentRoom);
        todo := todo - {k};
      }
    }
  }
}
