/**
 * The office map: door and light switches, the roster of animatronics, and
 * the death flag; one map tick moves every animatronic in roster order.
 */
module Office {
  import opened Rooms
  import opened Animatronics

  /** The placeholder killer name of a night nobody has died in. */
  const NoKiller := "MissingNo."

  /** The state of each animatronic of the roster, in roster order. */
  function Snaps(roster: seq<Animatronic>): (r: seq<Snapshot>)
    reads set a | a in roster
    ensures |r| == |roster| && forall k :: 0 <= k < |roster| ==> r[k] == roster[k].Snap()
  {
    if roster == [] then []
    else Snaps(roster[..|roster| - 1]) + [roster[|roster| - 1].Snap()]
  }

  /** Every animatronic has a neighbour pick within its current room's neighbour list. */
  predicate RollsFit(roster: seq<Snapshot>, rolls: seq<MoveRoll>) {
    |rolls| == |roster| &&
    forall k :: 0 <= k < |roster| ==> RollFits(rolls[k], Neighbours(roster[k].location))
  }

  /** Every animatronic makes its own move from its own room's neighbours. */
  function TickAll(roster: seq<Snapshot>, rdc: bool, ldc: bool, rolls: seq<MoveRoll>): (r: seq<Snapshot>)
    requires RollsFit(roster, rolls)
    ensures |r| == |roster|
    ensures forall k :: 0 <= k < |roster| ==> r[k] == Moved(roster[k], Neighbours(roster[k].location), rdc, ldc, rolls[k])
  {
    if roster == [] then []
    else
      var n := |roster| - 1;
      TickAll(roster[..n], rdc, ldc, rolls[..n]) + [Moved(roster[n], Neighbours(roster[n].location), rdc, ldc, rolls[n])]
  }

  /** A pass over the roster that finds somebody in the attack room. */
  predicate SomeoneAttacks(roster: seq<Snapshot>) {
    roster != [] &&
    (roster[|roster| - 1].location == SecurityOfficeAttack || SomeoneAttacks(roster[..|roster| - 1]))
  }

  /** The pass finds an attacker exactly when some member of the roster is in the attack room. */
  lemma {:induction false} AttackerIsInRoom(roster: seq<Snapshot>)
    ensures SomeoneAttacks(roster) <==> exists k :: 0 <= k < |roster| && roster[k].location == SecurityOfficeAttack
  {
    if roster != [] {
      var n := |roster| - 1;
      var front := roster[..n];
      AttackerIsInRoom(front);
      assert forall k :: 0 <= k < n ==> front[k] == roster[k];
      if !SomeoneAttacks(roster) {
        forall k | 0 <= k < |roster| ensures roster[k].location != SecurityOfficeAttack {
          if k < n {
            assert front[k] == roster[k];
          }
        }
      }
    }
  }

  /** The killer a pass over the roster records: each one found in the attack room overwrites it. */
  function KillerAfter(killer: string, roster: seq<Snapshot>): string {
    if roster == [] then killer
    else if roster[|roster| - 1].location == SecurityOfficeAttack then roster[|roster| - 1].name
    else KillerAfter(killer, roster[..|roster| - 1])
  }

  /** A pass that finds nobody in the attack room keeps the previous killer. */
  lemma {:induction false} NoAttackerKeepsKiller(killer: string, roster: seq<Snapshot>)
    requires !SomeoneAttacks(roster)
    ensures KillerAfter(killer, roster) == killer
  {
    if roster != [] {
      NoAttackerKeepsKiller(killer, roster[..|roster| - 1]);
    }
  }

  /**
   * The recorded killer is the last animatronic in roster order that is in
   * the attack room.
   */
  lemma {:induction false} KillerIsLastAttacker(killer: string, roster: seq<Snapshot>, k: nat)
    requires k < |roster| && roster[k].location == SecurityOfficeAttack
    requires forall j :: k < j < |roster| ==> roster[j].location != SecurityOfficeAttack
    ensures KillerAfter(killer, roster) == roster[k].name
  {
    var n := |roster| - 1;
    if k < n {
      var front := roster[..n];
      assert front[k] == roster[k];
      assert forall j :: k < j < |front| ==> front[j] == roster[j];
      KillerIsLastAttacker(killer, front, k);
    }
  }

  /** Appending one more animatronic to a pass over the roster. */
  lemma PassAppend(killer: string, done: seq<Snapshot>, x: Snapshot)
    ensures SomeoneAttacks(done + [x]) <==> SomeoneAttacks(done) || x.location == SecurityOfficeAttack
    ensures KillerAfter(killer, done + [x]) ==
      if x.location == SecurityOfficeAttack then x.name else KillerAfter(killer, done)
  {
    assert (done + [x])[..|done|] == done;
  }

  /** Only Freddy ever shows Laughing. */
  ghost predicate OnlyFreddyLaughs(roster: seq<Snapshot>) {
    forall k :: 0 <= k < |roster| && roster[k].name != "Freddy" ==> roster[k].tell != Laughing
  }

  lemma TickKeepsLaughterToFreddy(roster: seq<Snapshot>, rdc: bool, ldc: bool, rolls: seq<MoveRoll>)
    requires RollsFit(roster, rolls) && OnlyFreddyLaughs(roster)
    ensures OnlyFreddyLaughs(TickAll(roster, rdc, ldc, rolls))
  {
    var after := TickAll(roster, rdc, ldc, rolls);
    forall k | 0 <= k < |roster| && after[k].name != "Freddy" ensures after[k].tell != Laughing {
      MoveOutcomes(roster[k], Neighbours(roster[k].location), rdc, ldc, rolls[k]);
      NonFreddyNeverLaughs(roster[k], Neighbours(roster[k].location), rdc, ldc, rolls[k]);
    }
  }

  /** Every member of the roster is at least n moves from the attack room. */
  ghost predicate AllAtLeast(roster: seq<Snapshot>, n: int) {
    forall k :: 0 <= k < |roster| ==> Level(roster[k].location) >= n
  }

  /** A map tick brings each animatronic at most one step closer to the attack room. */
  lemma TickClosesAtMostOneStep(roster: seq<Snapshot>, rdc: bool, ldc: bool, rolls: seq<MoveRoll>, n: int)
    requires RollsFit(roster, rolls) && AllAtLeast(roster, n)
    ensures AllAtLeast(TickAll(roster, rdc, ldc, rolls), n - 1)
  {
    var after := TickAll(roster, rdc, ldc, rolls);
    forall k | 0 <= k < |roster| ensures Level(after[k].location) >= n - 1 {
      MoveClosesAtMostOneStep(roster[k], rdc, ldc, rolls[k]);
    }
  }

  /**
   * A night starts with everybody on the show stage, five moves from the
   * attack room; over a run of map ticks nobody reaches the attack room
   * before the fifth tick.
   */
  lemma {:induction false} NoAttackBeforeFifthTick(run: seq<seq<Snapshot>>, rdc: seq<bool>, ldc: seq<bool>, rolls: seq<seq<MoveRoll>>)
    requires |run| >= 1 && |rdc| == |ldc| == |rolls| == |run| - 1
    requires forall k :: 0 <= k < |run[0]| ==> run[0][k].location == ShowStage
    requires forall j :: 0 <= j < |run| - 1 ==>
      RollsFit(run[j], rolls[j]) && run[j + 1] == TickAll(run[j], rdc[j], ldc[j], rolls[j])
    ensures AllAtLeast(run[|run| - 1], 6 - |run|)
    ensures |run| <= 5 ==> !SomeoneAttacks(run[|run| - 1])
  {
    var n := |run| - 1;
    if n == 0 {
      assert AllAtLeast(run[0], 5);
    } else {
      NoAttackBeforeFifthTick(run[..n], rdc[..n - 1], ldc[..n - 1], rolls[..n - 1]);
      assert run[..n][n - 1] == run[n - 1];
      TickClosesAtMostOneStep(run[n - 1], rdc[n - 1], ldc[n - 1], rolls[n - 1], 6 - n);
    }
    if |run| <= 5 {
      OutsideAttackRoom(run[n]);
    }
  }

  lemma OutsideAttackRoom(roster: seq<Snapshot>)
    requires AllAtLeast(roster, 1)
    ensures !SomeoneAttacks(roster)
  {
    AttackerIsInRoom(roster);
  }

  /** A roster whose members are in the listed states has exactly those snapshots. */
  lemma RosterIs(roster: seq<Animatronic>, states: seq<Snapshot>)
    requires |states| == |roster| && forall k :: 0 <= k < |roster| ==> states[k] == roster[k].Snap()
    ensures Snaps(roster) == states
  {
  }

  /** States that are each roster member's own move are the tick of the whole roster. */
  lemma TickAllIs(roster: seq<Snapshot>, rdc: bool, ldc: bool, rolls: seq<MoveRoll>, states: seq<Snapshot>)
    requires RollsFit(roster, rolls) && |states| == |roster|
    requires forall k :: 0 <= k < |roster| ==> states[k] == Moved(roster[k], Neighbours(roster[k].location), rdc, ldc, rolls[k])
    ensures TickAll(roster, rdc, ldc, rolls) == states
  {
  }

  /** No animatronic appears twice in the roster. */
  ghost predicate Distinct(roster: seq<Animatronic>) {
    forall i, j :: 0 <= i < j < |roster| ==> roster[i] != roster[j]
  }

  lemma DistinctAt(roster: seq<Animatronic>, i: nat)
    requires Distinct(roster) && i < |roster|
    ensures forall k :: 0 <= k < |roster| && k != i ==> roster[k] != roster[i]
  {
  }

  class Map {
    var leftDoorClosed: bool
    var rightDoorClosed: bool
    var leftLightOn: bool
    var rightLightOn: bool
    var anims: seq<Animatronic>
    var isDead: bool
    var killer: string

    /** The roster owns its animatronics: no animatronic appears twice. */
    ghost predicate Valid()
      reads this
    {
      Distinct(anims)
    }

    function Members(): set<Animatronic>
      reads this
    {
      set a | a in anims
    }

    function Roster(): seq<Snapshot>
      reads this, Members()
    {
      Snaps(anims)
    }

    constructor ()
      ensures Valid()
      ensures !leftDoorClosed && !rightDoorClosed && !leftLightOn && !rightLightOn
      ensures anims == [] && !isDead && killer == NoKiller
    {
      leftDoorClosed, rightDoorClosed := false, false;
      leftLightOn, rightLightOn := false, false;
      anims := [];
      isDead := false;
      killer := NoKiller;
    }

    /** Dusk: switches off, nobody dead, everybody back on the stage showing Visual; difficulties kept. */
    method NightReset()
      requires Valid()
      modifies this, Members()
      ensures Valid() && anims == old(anims)
      ensures !leftDoorClosed && !rightDoorClosed && !leftLightOn && !rightLightOn
      ensures !isDead && killer == NoKiller
      ensures forall k :: 0 <= k < |anims| ==>
        anims[k].Snap() == old(anims[k].Snap()).(location := ShowStage, tell := Visual)
    {
      leftDoorClosed := false;
      rightDoorClosed := false;
      leftLightOn := false;
      rightLightOn := false;
      isDead := false;
      killer := NoKiller;
      var i := 0;
      while i < |anims|
        invariant 0 <= i <= |anims| && anims == old(anims)
        invariant !leftDoorClosed && !rightDoorClosed && !leftLightOn && !rightLightOn
        invariant !isDead && killer == NoKiller
        invariant forall k :: 0 <= k < i ==>
          anims[k].Snap() == old(anims[k].Snap()).(location := ShowStage, tell := Visual)
        invariant forall k :: i <= k < |anims| ==> anims[k].Snap() == old(anims[k].Snap())
      {
        anims[i].location := ShowStage;
        anims[i].tell := Visual;
        i := i + 1;
      }
    }

    /**
     * The rooms reachable in one move from l, from the same table the
     * animatronics use: one to four of them, only the attack room from the
     * attack room or a static office room, and the attack room from nowhere else.
     */
    function FindAdjacentRoom(l: Location): (r: seq<Location>)
      ensures r == Neighbours(l) && 1 <= |r| <= 4
      ensures l == SecurityOfficeAttack || IsStaticOffice(l) ==> r == [SecurityOfficeAttack]
      ensures SecurityOfficeAttack in r <==> l == SecurityOfficeAttack || IsStaticOffice(l)
    {
      AttackRoomIsGuarded(l);
      Neighbours(l)
    }

    /**
     * One map tick: each animatronic in roster order moves with its own
     * rolls; whoever ends in the attack room kills the player, the last such
     * one being recorded as the killer. Doors, lights and a death already
     * recorded are left alone.
     */
    method MapTick(rolls: seq<MoveRoll>)
      requires Valid() && RollsFit(Roster(), rolls)
      modifies this, Members()
      ensures Valid() && anims == old(anims)
      ensures leftDoorClosed == old(leftDoorClosed) && rightDoorClosed == old(rightDoorClosed)
      ensures leftLightOn == old(leftLightOn) && rightLightOn == old(rightLightOn)
      ensures Roster() == TickAll(old(Roster()), rightDoorClosed, leftDoorClosed, rolls)
      ensures isDead == (old(isDead) || SomeoneAttacks(Roster()))
      ensures killer == KillerAfter(old(killer), Roster())
    {
      ghost var before := Roster();
      ghost var done: seq<Snapshot> := [];
      var roster, rdc, ldc := anims, rightDoorClosed, leftDoorClosed;
      var i := 0;
      while i < |roster|
        invariant 0 <= i <= |roster| && anims == roster
        invariant leftDoorClosed == ldc && rightDoorClosed == rdc
        invariant leftLightOn == old(leftLightOn) && rightLightOn == old(rightLightOn)
        invariant |done| == i
        invariant forall k :: 0 <= k < i ==> done[k] == Moved(before[k], Neighbours(before[k].location), rdc, ldc, rolls[k])
        invariant forall k :: 0 <= k < |roster| ==> roster[k].Snap() == if k < i then done[k] else before[k]
        invariant isDead == (old(isDead) || SomeoneAttacks(done))
        invariant killer == KillerAfter(old(killer), done)
      {
        DistinctAt(roster, i);
        MoveOne(roster[i], rolls[i], old(isDead), old(killer), done);
        done := done + [roster[i].Snap()];
        i := i + 1;
      }
      RosterIs(anims, done);
      TickAllIs(before, rdc, ldc, rolls, done);
    }

    /**
     * One animatronic's part of a map tick: it moves with the current door
     * positions, and if it ends in the attack room the player is dead and it
     * is recorded as the killer.
     */
    method MoveOne(anim: Animatronic, r: MoveRoll, ghost dead0: bool, ghost killer0: string, ghost done: seq<Snapshot>)
      requires RollFits(r, Neighbours(anim.location))
      requires isDead == (dead0 || SomeoneAttacks(done)) && killer == KillerAfter(killer0, done)
      modifies this`isDead, this`killer, anim
      ensures anim.Snap() == Moved(old(anim.Snap()), Neighbours(old(anim.location)), rightDoorClosed, leftDoorClosed, r)
      ensures isDead == (dead0 || SomeoneAttacks(done + [anim.Snap()]))
      ensures killer == KillerAfter(killer0, done + [anim.Snap()])
      ensures isDead == (old(isDead) || anim.location == SecurityOfficeAttack)
      ensures killer == if anim.location == SecurityOfficeAttack then anim.name else old(killer)
    {
      PassAppend(killer0, done, Moved(anim.Snap(), Neighbours(anim.location), rightDoorClosed, leftDoorClosed, r));
      var locations := anim.FindAdjacentRoom();
      anim.MoveTick(locations, rightDoorClosed, leftDoorClosed, r);
      if anim.location == SecurityOfficeAttack {
        isDead := true;
        killer := anim.name;
      }
    }

    /** Between nights each difficulty rises by its own roll of 1 or 2, with no cap. */
    method RaiseDifficulty(bumps: seq<int>)
      requires Valid() && |bumps| == |anims|
      requires forall k :: 0 <= k < |anims| ==> 1 <= bumps[k] < 3 && anims[k].difficulty + bumps[k] < 256
      modifies Members()
      ensures forall k :: 0 <= k < |anims| ==>
        anims[k].Snap() == old(anims[k].Snap()).(difficulty := old(anims[k].difficulty) + bumps[k])
    {
      var i := 0;
      while i < |anims|
        invariant 0 <= i <= |anims|
        invariant forall k :: 0 <= k < i ==>
          anims[k].Snap() == old(anims[k].Snap()).(difficulty := old(anims[k].difficulty) + bumps[k])
        invariant forall k :: i <= k < |anims| ==> anims[k].Snap() == old(anims[k].Snap())
      {
        anims[i].difficulty := anims[i].difficulty + bumps[i];
        i := i + 1;
      }
    }
  }
}
