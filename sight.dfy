/**
 * Enemy._player_in_range: the player is in range when the distance between
 * the two centres is at most `range` and no wall contains any of the sample
 * points taken every 10 units along the segment between them. The sample
 * count is chk_count = int(distance / 10) and the samples are the indices
 * 1 .. chk_count - 2; `pointAt(itr)` stands for the point interpolated at
 * fraction itr / chk_count from the enemy's centre to the player's.
 */
module Sight {
  import opened Geometry
  import opened Wrappers

  /** chk_count: one sample every 10 units; int() truncates, and distances are never negative. */
  function CheckCount(dist: real): int
    requires dist >= 0.0
  {
    (dist / 10.0).Floor
  }

  /** Some wall's rectangle contains the point (Rect.collidepoint). */
  predicate Blocked(p: Point, walls: seq<Rect>)
  {
    exists i :: 0 <= i < |walls| && CollidePoint(walls[i], p)
  }

  /** No sample with index 1 .. n - 2 lies in a wall. */
  predicate ClearLine(n: int, walls: seq<Rect>, pointAt: int -> Point)
  {
    forall itr :: 1 <= itr < n - 1 ==> !Blocked(pointAt(itr), walls)
  }

  predicate InRange(dist: real, range: int, walls: seq<Rect>, pointAt: int -> Point)
    requires dist >= 0.0
  {
    dist <= range as real && ClearLine(CheckCount(dist), walls, pointAt)
  }

  /** The inputs for which the source computes `1 / chk_count` with chk_count == 0. */
  predicate Faults(dist: real, range: int)
    requires dist >= 0.0
  {
    dist <= range as real && CheckCount(dist) == 0
  }

  datatype Fault = ZeroDivisionError

  /**
   * _player_in_range as the source has it: `interval = 1 / chk_count` raises
   * when the player is in range but closer than 10 units.
   */
  method PlayerInRangeAsWritten(dist: real, range: int, walls: seq<Rect>, pointAt: int -> Point)
    returns (r: Result<bool, Fault>)
    requires dist >= 0.0
    ensures r.Err? <==> Faults(dist, range)
    ensures r.Ok? ==> r.value == InRange(dist, range, walls, pointAt)
  {
    if dist <= range as real && CheckCount(dist) == 0 {
      return Err(ZeroDivisionError);
    }
    var seen := PlayerInRange(dist, range, walls, pointAt);
    return Ok(seen);
  }

  /**
   * _player_in_range with the zero sample count guarded: with no room for a
   * sample the line of sight is clear, as it already is for one or two samples.
   */
  method PlayerInRange(dist: real, range: int, walls: seq<Rect>, pointAt: int -> Point)
    returns (seen: bool)
    requires dist >= 0.0
    ensures seen == InRange(dist, range, walls, pointAt)
  {
    if dist <= range as real {
      var chkCount := CheckCount(dist);
      if chkCount == 0 {
        return true;
      }
      var itr := 1;
      while itr < chkCount - 1
        invariant 1 <= itr
        invariant forall k :: 1 <= k < itr && k < chkCount - 1 ==> !Blocked(pointAt(k), walls)
      {
        var point := pointAt(itr);
        var i := 0;
        while i < |walls|
          invariant 0 <= i <= |walls|
          invariant forall j :: 0 <= j < i ==> !CollidePoint(walls[j], point)
        {
          if CollidePoint(walls[i], point) {
            assert Blocked(pointAt(itr), walls);
            return false;
          }
          i := i + 1;
        }
        itr := itr + 1;
      }
      return true;
    }
    return false;
  }

  /**
   * The discrepancy: a player within range and closer than 10 units makes the
   * source raise, where the guarded check reports the player as visible.
   */
  lemma {:induction false} CloseRangeFaults(dist: real, range: int, walls: seq<Rect>, pointAt: int -> Point)
    requires 0.0 <= dist < 10.0 && dist <= range as real
    ensures Faults(dist, range)
    ensures InRange(dist, range, walls, pointAt)
  {
    assert CheckCount(dist) == 0;
  }

  /**
   * When the check as written answers and sees the player, the centres are at
   * least 10 units apart, so the vector to the player that Enemy.update then
   * normalises (entities.py:222-226) is never the zero vector.
   */
  lemma {:induction false} SeenMeansApart(dist: real, range: int, walls: seq<Rect>, pointAt: int -> Point)
    requires dist >= 0.0 && !Faults(dist, range) && InRange(dist, range, walls, pointAt)
    ensures dist >= 10.0
  {
  }

  /**
   * Line of sight does not depend on the range asked about: a player seen
   * within the attack range is seen within any larger range, and a blocked
   * line blocks every range.
   */
  lemma {:induction false} SightIsMonotoneInRange(dist: real, r1: int, r2: int, walls: seq<Rect>, pointAt: int -> Point)
    requires dist >= 0.0 && r1 <= r2
    ensures InRange(dist, r1, walls, pointAt) ==> InRange(dist, r2, walls, pointAt)
    ensures dist <= r1 as real ==> (InRange(dist, r1, walls, pointAt) <==> InRange(dist, r2, walls, pointAt))
  {
  }

  /** A wall over the middle sample hides the player at every range. */
  lemma {:induction false} MidpointWallBlocks(dist: real, range: int, walls: seq<Rect>, pointAt: int -> Point)
    requires dist >= 0.0 && CheckCount(dist) >= 3
    requires Blocked(pointAt(CheckCount(dist) / 2), walls)
    ensures !InRange(dist, range, walls, pointAt)
  {
    var mid := CheckCount(dist) / 2;
    assert 1 <= mid < CheckCount(dist) - 1;
  }
}
