/**
 * levels.py: the fixed list of levels and the counter that walks through
 * them. Level.load is file I/O and is not part of this model; the game takes
 * the loaded grid as an input instead.
 */
module Levels {
  /** A level: its display name and the file its grid is read from. */
  datatype Level = Level(name: string, filename: string)

  /** The three levels, in the order they are played. */
  const LEVELS: seq<Level> := [
    Level("Network", "level1 - network.level"),
    Level("Harddrive", "level2 - harddrive.level"),
    Level("CPU", "level3 - cpu.level")
  ]

  /** What the game loop does once the enemy group is empty (game.py:649-654). */
  datatype Progress = Next(level: int) | Won

  /** The cleared-level branch: WIN on the final level, otherwise the next level. */
  function AfterClear(current: int, count: int): Progress
  {
    if current == count - 1 then Won else Next(current + 1)
  }

  /** k levels cleared one after the other, starting at level `current`. */
  function Clears(current: int, count: int, k: nat): Progress
  {
    if k == 0 then Next(current)
    else
      match Clears(current, count, k - 1)
      case Won => Won
      case Next(level) => AfterClear(level, count)
  }

  /**
   * Progression: from level c of n, the next n - 1 - c clears each move one
   * level on, the one after that is the win, and every level reached is a
   * valid index into the list.
   */
  lemma {:induction false} ClearsReachWin(current: int, count: int, k: nat)
    requires 0 <= current < count
    ensures k <= count - 1 - current ==> Clears(current, count, k) == Next(current + k)
    ensures k > count - 1 - current ==> Clears(current, count, k) == Won
    ensures Clears(current, count, k).Next? ==> 0 <= Clears(current, count, k).level < count
  {
    if k > 0 {
      ClearsReachWin(current, count, k - 1);
    }
  }

  class LevelManager {
    var currentLevel: int
    const levels: seq<Level>

    /** LevelManager(): the first level of the three. */
    constructor ()
      ensures currentLevel == 0 && levels == LEVELS
      ensures [levels[0].name, levels[1].name, levels[2].name] == ["Network", "Harddrive", "CPU"]
    {
      currentLevel := 0;
      levels := LEVELS;
    }

    /** is_final_level: no level comes after the current one; among the game's three levels that is CPU. */
    predicate IsFinalLevel()
      reads this`currentLevel
      ensures levels == LEVELS ==> (IsFinalLevel() <==> currentLevel == 2 && levels[currentLevel].name == "CPU")
    {
      currentLevel == |levels| - 1
    }

    /** get_level: the current level; the index must be in the list. */
    function GetLevel(): (level: Level)
      reads this`currentLevel
      requires 0 <= currentLevel < |levels|
      ensures level in levels
      ensures IsFinalLevel() ==> level == levels[|levels| - 1]
      ensures currentLevel == 0 ==> level == levels[0]
    {
      levels[currentLevel]
    }

    /** next_level: one level on, nothing else changes. */
    method NextLevel()
      modifies this`currentLevel
      ensures currentLevel == old(currentLevel) + 1
    {
      currentLevel := currentLevel + 1;
    }
  }

  /**
   * A fresh manager walks through Network, Harddrive and CPU: two clears
   * reach the final level and the third is the win.
   */
  lemma {:induction false} ThreeLevelsToWin()
    ensures Clears(0, |LEVELS|, 1) == Next(1) && LEVELS[1].name == "Harddrive"
    ensures Clears(0, |LEVELS|, 2) == Next(2) && LEVELS[2].name == "CPU"
    ensures Clears(0, |LEVELS|, 3) == Won
  {
    ClearsReachWin(0, |LEVELS|, 3);
    ClearsReachWin(0, |LEVELS|, 2);
    ClearsReachWin(0, |LEVELS|, 1);
  }
}
