/**
 * The fixed pizzeria map: the twelve locations, the tells an animatronic can
 * give off, the hand-written adjacency table and the 5x9 display grid.
 */
module Rooms {
  import opened Options

  datatype Location =
    | ShowStage
    | DiningAreaL
    | DiningAreaR
    | DiningAreaC
    | Restrooms
    | Kitchen
    | Arcade
    | SecurityOfficeStaticR
    | SecurityOfficeStaticL
    | SecurityOfficeAttack
    | HallwayL
    | HallwayR

  /** The two rooms directly outside the office doors. */
  predicate IsStaticOffice(l: Location) {
    l == SecurityOfficeStaticL || l == SecurityOfficeStaticR
  }

  datatype Tell = Laughing | Noise | Footsteps | Static | Visual | Breathing {
    /** The one-letter code the camera view prints for the tell. */
    function Letter(): (s: string)
      ensures |s| == 1
    {
      match this
      case Laughing => "l"
      case Noise => "n"
      case Footsteps => "f"
      case Static => "s"
      case Visual => "v"
      case Breathing => "b"
    }
  }

  /** Distinct tells are printed with distinct letters. */
  lemma LettersDistinct(t: Tell, u: Tell)
    ensures t.Letter() == u.Letter() <==> t == u
  {
  }

  /** The hand-written adjacency table, in the order the source pushes the rooms. */
  function Neighbours(l: Location): (r: seq<Location>)
    ensures 1 <= |r| <= 4
  {
    match l
    case HallwayL => [Restrooms, SecurityOfficeStaticL]
    case HallwayR => [Kitchen, SecurityOfficeStaticR]
    case ShowStage => [DiningAreaC]
    case DiningAreaL => [Arcade, DiningAreaC]
    case DiningAreaC => [DiningAreaL, DiningAreaR, ShowStage, Restrooms]
    case DiningAreaR => [DiningAreaC, Kitchen]
    case Restrooms => [DiningAreaC, HallwayL, Arcade]
    case Kitchen => [DiningAreaR, HallwayR]
    case Arcade => [Restrooms, DiningAreaL, HallwayL]
    case SecurityOfficeStaticR => [SecurityOfficeAttack]
    case SecurityOfficeStaticL => [SecurityOfficeAttack]
    case SecurityOfficeAttack => [l]
  }

  /**
   * The attack room is a trap: its only exit is itself, the two static office
   * rooms lead only into it, and no other room leads into it.
   */
  lemma AttackRoomIsGuarded(l: Location)
    ensures Neighbours(SecurityOfficeAttack) == [SecurityOfficeAttack]
    ensures IsStaticOffice(l) ==> Neighbours(l) == [SecurityOfficeAttack]
    ensures SecurityOfficeAttack in Neighbours(l) <==> IsStaticOffice(l) || l == SecurityOfficeAttack
  {
  }

  /** The number of moves from a room to the attack room along the shortest route. */
  function Level(l: Location): nat {
    match l
    case SecurityOfficeAttack => 0
    case SecurityOfficeStaticL => 1
    case SecurityOfficeStaticR => 1
    case HallwayL => 2
    case HallwayR => 2
    case Kitchen => 3
    case Restrooms => 3
    case Arcade => 3
    case DiningAreaL => 4
    case DiningAreaC => 4
    case DiningAreaR => 4
    case ShowStage => 5
  }

  /**
   * Level is the graph distance to the attack room: one move lowers it by at
   * most one, and every other room has a neighbour one step closer.
   */
  lemma LevelIsDistance(l: Location, n: Location)
    ensures Level(l) == 0 <==> l == SecurityOfficeAttack
    ensures n in Neighbours(l) ==> Level(l) <= Level(n) + 1
    ensures l != SecurityOfficeAttack ==>
      exists k :: 0 <= k < |Neighbours(l)| && Level(Neighbours(l)[k]) + 1 == Level(l)
  {
    if l != SecurityOfficeAttack {
      var k := match l
        case SecurityOfficeStaticL | SecurityOfficeStaticR | ShowStage | DiningAreaL => 0
        case HallwayL | HallwayR | Kitchen | Restrooms | DiningAreaR => 1
        case Arcade => 2
        case DiningAreaC => 3
        case _ => 0;
      assert Level(Neighbours(l)[k]) + 1 == Level(l);
    }
  }

  /** The display grid of the office map, five rows of nine cells, row by row. */
  const Grid: seq<seq<Option<Location>>> := [
    [None, None, None, Some(ShowStage), Some(ShowStage), Some(ShowStage), None, None, None],
    [None, None, Some(Arcade), Some(DiningAreaL), Some(DiningAreaC), Some(DiningAreaR), Some(Kitchen), None, None],
    [None, None, Some(Restrooms), Some(Restrooms), Some(Restrooms), Some(Restrooms), Some(HallwayR), None, None],
    [None, None, Some(HallwayL), None, None, None, Some(HallwayR), None, None],
    [None, None, Some(HallwayL), Some(SecurityOfficeStaticR), Some(SecurityOfficeAttack),
     Some(SecurityOfficeStaticR), Some(HallwayR), None, None]
  ]

  ghost predicate OnGrid(l: Location) {
    exists r, c :: 0 <= r < |Grid| && 0 <= c < |Grid[r]| && Grid[r][c] == Some(l)
  }

  /** No cell before (row, col) in row-major order holds l. */
  ghost predicate NoneBefore(l: Location, row: nat, col: nat) {
    forall r, c :: 0 <= r < |Grid| && 0 <= c < |Grid[r]| && (r < row || (r == row && c < col)) ==>
      Grid[r][c] != Some(l)
  }

  /**
   * Row-major search of the grid: the first cell that holds l, or (0, 0) when
   * no cell does.
   */
  method FindLocation(l: Location) returns (row: nat, col: nat)
    ensures OnGrid(l) ==> row < |Grid| && col < |Grid[row]| && Grid[row][col] == Some(l) && NoneBefore(l, row, col)
    ensures !OnGrid(l) ==> row == 0 && col == 0
  {
    var i := 0;
    while i < |Grid|
      invariant 0 <= i <= |Grid|
      invariant NoneBefore(l, i, 0)
    {
      var j := 0;
      while j < |Grid[i]|
        invariant 0 <= j <= |Grid[i]|
        invariant NoneBefore(l, i, j)
      {
        if Grid[i][j] == Some(l) {
          return i, j;
        }
        j := j + 1;
      }
      i := i + 1;
    }
    return 0, 0;
  }

  /**
   * The grid holds the right static office room twice and the left one not at
   * all, so the search for the left one falls back to (0, 0).
   */
  lemma LeftStaticOfficeIsOffGrid()
    ensures !OnGrid(SecurityOfficeStaticL)
    ensures OnGrid(SecurityOfficeStaticR) && OnGrid(SecurityOfficeAttack)
  {
    assert Grid[4][3] == Some(SecurityOfficeStaticR);
    assert Grid[4][4] == Some(SecurityOfficeAttack);
  }
}
