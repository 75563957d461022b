/**
 * One animatronic: where it is, how aggressive it is, and the tell it gives
 * off, and the per-tick movement rule with its door checks and tell overrides.
 */
module Animatronics {
  import opened Rooms

  /** The state of one animatronic, as a value. */
  datatype Snapshot = Snapshot(name: string, location: Location, difficulty: nat, tell: Tell)

  /**
   * The random draws of one move: the movement roll in [0, 20), the index of
   * the neighbour to try, and the tell roll in [0, 5).
   */
  datatype MoveRoll = MoveRoll(movement: int, pick: int, tell: int)

  predicate RollFits(r: MoveRoll, adjacent: seq<Location>) {
    0 <= r.movement < 20 && 0 <= r.pick < |adjacent| && 0 <= r.tell < 5
  }

  /** A static office room behind a closed door pushes its occupant back into the hallway. */
  function Ejected(l: Location, rightDoorClosed: bool, leftDoorClosed: bool): Location {
    if rightDoorClosed && l == SecurityOfficeStaticR then HallwayR
    else if leftDoorClosed && l == SecurityOfficeStaticL then HallwayL
    else l
  }

  /** A closed door keeps animatronics out of the static office room behind it. */
  predicate Blocked(dest: Location, rightDoorClosed: bool, leftDoorClosed: bool) {
    (dest == SecurityOfficeStaticR && rightDoorClosed) || (dest == SecurityOfficeStaticL && leftDoorClosed)
  }

  /** The tell a roll selects before the overrides; anything past 4 reads as Visual. */
  function RawTell(roll: int): Tell {
    match roll
    case 0 => Laughing
    case 1 => Noise
    case 2 => Footsteps
    case 3 => Static
    case _ => Visual
  }

  /** The tell after a committed move to dest, with the overrides applied in order. */
  function TellFor(name: string, dest: Location, roll: int): Tell {
    var raw := RawTell(roll);
    var swapped :=
      if name == "Freddy" && raw == Noise then Laughing
      else if raw == Laughing then Noise
      else raw;
    var kitchen := if name == "Chica" && dest == Kitchen && roll > 2 then Static else swapped;
    if IsStaticOffice(dest) then Breathing else kitchen
  }

  /**
   * One move tick on a value: ejection, the movement roll against the
   * difficulty, the neighbour pick, the closed-door check, and the new tell.
   */
  function Moved(s: Snapshot, adjacent: seq<Location>, rightDoorClosed: bool, leftDoorClosed: bool, r: MoveRoll): Snapshot
    requires RollFits(r, adjacent)
  {
    var here := Ejected(s.location, rightDoorClosed, leftDoorClosed);
    if r.movement > s.difficulty then s.(location := here)
    else
      var dest := adjacent[r.pick];
      if Blocked(dest, rightDoorClosed, leftDoorClosed) then s.(location := here)
      else s.(location := dest, tell := TellFor(s.name, dest, r.tell))
  }

  /**
   * Where a move can end: in the start room, in the hallway a closed door
   * ejected it to, or in one of the given neighbours. A roll above the
   * difficulty, or a pick of a static office room behind a closed door, moves
   * it only by ejection and leaves the tell alone; otherwise it lands on the
   * picked neighbour with the tell the overrides give. Name and difficulty
   * never change.
   */
  lemma MoveOutcomes(s: Snapshot, adjacent: seq<Location>, rdc: bool, ldc: bool, r: MoveRoll)
    requires RollFits(r, adjacent)
    ensures var m := Moved(s, adjacent, rdc, ldc, r);
      && m.name == s.name && m.difficulty == s.difficulty
      && (m.location == s.location || m.location == Ejected(s.location, rdc, ldc) || m.location in adjacent)
      && (r.movement > s.difficulty || Blocked(adjacent[r.pick], rdc, ldc) ==>
            m.location == Ejected(s.location, rdc, ldc) && m.tell == s.tell)
      && (r.movement <= s.difficulty && !Blocked(adjacent[r.pick], rdc, ldc) ==>
            m.location == adjacent[r.pick] && m.tell == TellFor(s.name, adjacent[r.pick], r.tell))
  {
  }

  /** Ejection sends an occupant of a static office room behind a closed door to its hallway. */
  lemma EjectionTargets(l: Location, rdc: bool, ldc: bool)
    ensures rdc && l == SecurityOfficeStaticR ==> Ejected(l, rdc, ldc) == HallwayR
    ensures ldc && l == SecurityOfficeStaticL ==> Ejected(l, rdc, ldc) == HallwayL
    ensures !(rdc && l == SecurityOfficeStaticR) && !(ldc && l == SecurityOfficeStaticL) ==> Ejected(l, rdc, ldc) == l
    ensures !Blocked(Ejected(l, rdc, ldc), rdc, ldc)
  {
  }

  /**
   * The tell override chain: a static office room always gives Breathing;
   * elsewhere Freddy swaps Noise and Laughing, everybody else turns Laughing
   * into Noise, and Chica in the kitchen on a roll of 3 or 4 gives Static.
   */
  lemma TellOverrides(name: string, dest: Location, roll: int)
    requires 0 <= roll < 5
    ensures IsStaticOffice(dest) ==> TellFor(name, dest, roll) == Breathing
    ensures name != "Freddy" ==> TellFor(name, dest, roll) != Laughing
    ensures name == "Freddy" && !IsStaticOffice(dest) ==>
      (RawTell(roll) == Noise ==> TellFor(name, dest, roll) == Laughing) &&
      (RawTell(roll) == Laughing ==> TellFor(name, dest, roll) == Noise)
    ensures name == "Chica" && dest == Kitchen && (roll == 3 || roll == 4) ==> TellFor(name, dest, roll) == Static
    ensures (!IsStaticOffice(dest) && !(name == "Chica" && dest == Kitchen && roll > 2) &&
             RawTell(roll) != Laughing && RawTell(roll) != Noise) ==> TellFor(name, dest, roll) == RawTell(roll)
    ensures (name != "Freddy" && !IsStaticOffice(dest) && !(name == "Chica" && dest == Kitchen && roll > 2) &&
             (RawTell(roll) == Laughing || RawTell(roll) == Noise)) ==> TellFor(name, dest, roll) == Noise
  {
  }

  /** An animatronic other than Freddy that does not show Laughing never starts to. */
  lemma NonFreddyNeverLaughs(s: Snapshot, adjacent: seq<Location>, rdc: bool, ldc: bool, r: MoveRoll)
    requires RollFits(r, adjacent)
    requires s.name != "Freddy" && s.tell != Laughing
    ensures Moved(s, adjacent, rdc, ldc, r).tell != Laughing
  {
    TellOverrides(s.name, adjacent[r.pick], r.tell);
  }

  /**
   * Moving along the real adjacency table brings an animatronic at most one
   * step closer to the attack room per tick; ejection only moves it away.
   */
  lemma MoveClosesAtMostOneStep(s: Snapshot, rdc: bool, ldc: bool, r: MoveRoll)
    requires RollFits(r, Neighbours(s.location))
    ensures Level(s.location) <= Level(Moved(s, Neighbours(s.location), rdc, ldc, r).location) + 1
  {
    var m := Moved(s, Neighbours(s.location), rdc, ldc, r);
    if m.location in Neighbours(s.location) {
      LevelIsDistance(s.location, m.location);
    }
  }

  /**
   * The neighbours are looked up before the ejection: an animatronic in the
   * right static office room whose door is closed is pushed out to the
   * hallway and then, if its roll succeeds, walks straight into the attack
   * room through the closed door.
   */
  lemma EjectedStillAttacks(s: Snapshot, ldc: bool, r: MoveRoll)
    requires s.location == SecurityOfficeStaticR
    requires RollFits(r, Neighbours(s.location)) && r.movement <= s.difficulty
    ensures Moved(s, Neighbours(s.location), true, ldc, r).location == SecurityOfficeAttack
  {
  }

  class Animatronic {
    const name: string
    var location: Location
    var difficulty: nat
    var tell: Tell

    function Snap(): Snapshot
      reads this
    {
      Snapshot(name, location, difficulty, tell)
    }

    /** A new animatronic shows Visual, and its difficulty (a byte) is capped at 20. */
    constructor (name: string, location: Location, difficulty: nat)
      requires difficulty < 256
      ensures this.name == name && this.location == location && tell == Visual
      ensures this.difficulty <= 20
      ensures difficulty <= 20 ==> this.difficulty == difficulty
      ensures difficulty > 20 ==> this.difficulty == 20
    {
      this.name := name;
      this.location := location;
      this.difficulty := if difficulty < 20 then difficulty else 20;
      this.tell := Visual;
    }

    /**
     * The rooms reachable in one move from the current location: one to four
     * of them, only the attack room from the attack room or a static office
     * room, and the attack room from nowhere else.
     */
    function FindAdjacentRoom(): (r: seq<Location>)
      reads this
      ensures r == Neighbours(location) && 1 <= |r| <= 4
      ensures location == SecurityOfficeAttack || IsStaticOffice(location) ==> r == [SecurityOfficeAttack]
      ensures SecurityOfficeAttack in r <==> location == SecurityOfficeAttack || IsStaticOffice(location)
    {
      AttackRoomIsGuarded(location);
      Neighbours(location)
    }

    method MoveTick(adjacent: seq<Location>, rightDoorClosed: bool, leftDoorClosed: bool, r: MoveRoll)
      requires RollFits(r, adjacent)
      modifies this
      ensures Snap() == Moved(old(Snap()), adjacent, rightDoorClosed, leftDoorClosed, r)
    {
      if rightDoorClosed && location == SecurityOfficeStaticR {
        location := HallwayR;
      }
      if leftDoorClosed && location == SecurityOfficeStaticL {
        location := HallwayL;
      }
      if r.movement <= difficulty {
        var dest := adjacent[r.pick];
        if dest == SecurityOfficeStaticR && rightDoorClosed {
          return;
        }
        if dest == SecurityOfficeStaticL && leftDoorClosed {
          return;
        }
        location := dest;
        match r.tell {
          case 0 => tell := Laughing;
          case 1 => tell := Noise;
          case 2 => tell := Footsteps;
          case 3 => tell := Static;
          case _ => tell := Visual;  // 4, and the unreachable fallback
        }
        if name == "Freddy" && tell == Noise {
          tell := Laughing;
        } else if tell == Laughing {
          tell := Noise;
        }
        if name == "Chica" && location == Kitchen && r.tell > 2 {
          tell := Static;
        }
        if location == SecurityOfficeStaticL || location == SecurityOfficeStaticR {
          tell := Breathing;
        }
      }
    }
  }
}
