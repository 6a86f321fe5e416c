/**
 * Entity.move: a body moves by (dx * speed, dy * speed), one axis at a time.
 * After each axis the body is tested against every wall and that axis alone
 * is put back to where it started if the body now overlaps one. Bullets skip
 * the wall test: they are removed by the collision pass instead.
 */
module Movement {
  import opened Geometry

  /** The `isinstance(self, Bullet)` test at the top of Entity.move. */
  datatype Kind = Body | Projectile

  /** One axis of a walking body's move: keep the moved rectangle unless it hits a wall. */
  function SettleX(r: Rect, vx: int, walls: seq<Rect>): Rect
  {
    var moved := r.(x := r.x + vx);
    if CollidesAny(moved, walls) then r else moved
  }

  function SettleY(r: Rect, vy: int, walls: seq<Rect>): Rect
  {
    var moved := r.(y := r.y + vy);
    if CollidesAny(moved, walls) then r else moved
  }

  /** Where Entity.move leaves the rectangle. */
  function Moved(r: Rect, speed: int, dx: int, dy: int, walls: seq<Rect>, kind: Kind): Rect
  {
    if kind == Projectile then r.(x := r.x + dx * speed, y := r.y + dy * speed)
    else SettleY(SettleX(r, dx * speed, walls), dy * speed, walls)
  }

  /** Entity.move on the entity's rectangle; the caller stores the result back. */
  method Move(r: Rect, speed: int, dx: int, dy: int, walls: seq<Rect>, kind: Kind)
    returns (moved: Rect)
    ensures moved == Moved(r, speed, dx, dy, walls, kind)
  {
    moved := r;
    if kind == Projectile {
      moved := moved.(x := moved.x + dx * speed);
      moved := moved.(y := moved.y + dy * speed);
      return;
    }
    var startX, startY := r.x, r.y;

    moved := moved.(x := moved.x + dx * speed);
    var hit := SpriteCollideAny(moved, walls);
    if hit {
      moved := moved.(x := startX);
    }

    moved := moved.(y := moved.y + dy * speed);
    hit := SpriteCollideAny(moved, walls);
    if hit {
      moved := moved.(y := startY);
    }
  }

  /**
   * Each axis settles on its own: x is either the full step or exactly the
   * starting x, whichever avoids the walls; y is then decided the same way,
   * testing against the walls at the already settled x. The size never changes.
   */
  lemma {:induction false} MoveSettlesEachAxis(r: Rect, speed: int, dx: int, dy: int, walls: seq<Rect>)
    ensures var m := Moved(r, speed, dx, dy, walls, Body);
            var tryX := r.(x := r.x + dx * speed);
            var nx := if CollidesAny(tryX, walls) then r.x else r.x + dx * speed;
            var tryY := r.(x := nx, y := r.y + dy * speed);
            && m.w == r.w && m.h == r.h
            && m.x == nx
            && m.y == (if CollidesAny(tryY, walls) then r.y else r.y + dy * speed)
  {
  }

  /** A body that overlaps no wall before it moves overlaps no wall after it. */
  lemma {:induction false} MoveKeepsBodyOutOfWalls(r: Rect, speed: int, dx: int, dy: int, walls: seq<Rect>)
    requires !CollidesAny(r, walls)
    ensures !CollidesAny(Moved(r, speed, dx, dy, walls, Body), walls)
  {
    var afterX := SettleX(r, dx * speed, walls);
    assert !CollidesAny(afterX, walls);
  }

  /**
   * The x outcome does not depend on the y step, and a body blocked only
   * horizontally still slides vertically.
   */
  lemma {:induction false} WallSliding(r: Rect, speed: int, dx: int, dy: int, walls: seq<Rect>)
    ensures Moved(r, speed, dx, dy, walls, Body).x == Moved(r, speed, dx, 0, walls, Body).x
    ensures CollidesAny(r.(x := r.x + dx * speed), walls) &&
            !CollidesAny(r.(y := r.y + dy * speed), walls)
            ==> Moved(r, speed, dx, dy, walls, Body) == r.(y := r.y + dy * speed)
  {
    var afterX := SettleX(r, dx * speed, walls);
    assert afterX.y == r.y;
    if dy == 0 {
      assert r.(y := r.y + 0 * speed) == r;
    }
  }

  /** A bullet moves by exactly direction * speed on both axes, walls or not. */
  lemma {:induction false} ProjectileIgnoresWalls(r: Rect, speed: int, dx: int, dy: int, walls: seq<Rect>)
    ensures Moved(r, speed, dx, dy, walls, Projectile) ==
            Rect(r.x + dx * speed, r.y + dy * speed, r.w, r.h)
  {
  }
}
