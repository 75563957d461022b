/**
 * The night loop around the office: the clock, the player's command for the
 * turn, the battery's drain at the end of the turn, the power-out that a flat
 * battery causes, and Freddy's blackout escalation.
 */
module NightLoop {
  import opened Rooms
  import opened Power
  import opened Animatronics
  import opened Office

  /** A night runs from midnight to six, in minutes, a quarter of an hour per turn. */
  const StartTime: nat := 0
  const EndTime: nat := 6 * 60
  const TickRate: nat := 15

  /** Minutes since midnight shown as hours and minutes. */
  function DisplayTime(time: nat): (r: (nat, nat))
    ensures r.0 * 60 + r.1 == time && r.1 < 60
  {
    (time / 60, time % 60)
  }

  /** The shown time is the only hours-and-minutes reading of the clock. */
  lemma DisplayTimeUnique(time: nat, hours: nat, minutes: nat)
    requires hours * 60 + minutes == time && minutes < 60
    ensures DisplayTime(time) == (hours, minutes)
  {
  }

  /** The clock after n turns of a night: each turn that ends alive adds TickRate to it. */
  function ClockAfter(n: nat): nat {
    if n == 0 then StartTime else ClockAfter(n - 1) + TickRate
  }

  /**
   * A night nobody dies in is survived on its 24th turn and not before: the
   * clock after n turns is n quarters of an hour, and it first reaches the
   * end of the night at n = 24.
   */
  lemma {:induction false} NightLastsTwentyFourTurns(n: nat)
    ensures ClockAfter(n) == n * TickRate
    ensures ClockAfter(n) >= EndTime <==> n >= 24
  {
    if n > 0 {
      NightLastsTwentyFourTurns(n - 1);
    }
  }

  /** What the blackout block makes happen in one turn. */
  datatype Escalation = Quiet | Warning(stage: nat) | Silence

  /** Stages 0 to 5 are the six warnings; every later stage is the silence that kills. */
  function EscalationAt(stage: nat): Escalation {
    if stage <= 5 then Warning(stage) else Silence
  }

  /**
   * One turn of the blackout counter: it acts, and advances by exactly one,
   * only while the battery is offline and Freddy stands in the right hallway.
   */
  function Escalate(stage: nat, offline: bool, freddyInHallway: bool): (Escalation, nat) {
    if offline && freddyInHallway then (EscalationAt(stage), stage + 1) else (Quiet, stage)
  }

  /** The escalations of n consecutive dark turns with Freddy kept in the right hallway. */
  function DarkTurns(stage: nat, n: nat): (r: seq<Escalation>)
    ensures |r| == n
    decreases n
  {
    if n == 0 then [] else [Escalate(stage, true, true).0] + DarkTurns(Escalate(stage, true, true).1, n - 1)
  }

  /** The k-th dark turn acts at stage + k. */
  lemma {:induction false} DarkTurnStage(stage: nat, n: nat, k: nat)
    requires k < n
    ensures DarkTurns(stage, n)[k] == EscalationAt(stage + k)
    decreases k
  {
    if k > 0 {
      DarkTurnStage(stage + 1, n - 1, k - 1);
    }
  }

  /**
   * From the start of a blackout, the first six dark turns are the warnings
   * 0 to 5 in order, and the seventh and every later one is the silence.
   */
  lemma SilenceOnSeventhDarkTurn(n: nat)
    ensures forall k :: 0 <= k < n ==>
      DarkTurns(0, n)[k] == (if k < 6 then Warning(k) else Silence)
  {
    forall k | 0 <= k < n
      ensures DarkTurns(0, n)[k] == (if k < 6 then Warning(k) else Silence)
    {
      DarkTurnStage(0, n, k);
    }
  }

  /** The power level after this turn's drain. */
  function DrainedPower(c: Charge, rolls: seq<int>): int
    requires |rolls| == |c.draws|
  {
    if c.online then Drain(c.power, c.draws, rolls) else c.power
  }

  /**
   * The battery at the end of a turn: the draws drain, the camera stops,
   * and a battery drained to exactly 0 shuts down.
   */
  function Settled(c: Charge, rolls: seq<int>): Charge
    requires |rolls| == |c.draws|
  {
    var p := DrainedPower(c, rolls);
    if p == 0 then Charge(-1, [], false)
    else Charge(p, if c.online then Without(c.draws, PowerDraw.Camera) else c.draws, c.online)
  }

  /**
   * The end of a turn keeps the battery well formed: the level stays in
   * [-6, 100], the camera never draws into the next turn, and the level
   * never rests at 0.
   */
  lemma SettledValid(c: Charge, rolls: seq<int>)
    requires ChargeValid(c) && |rolls| == |c.draws|
    ensures ChargeValid(Settled(c, rolls))
    ensures PowerDraw.Camera !in Settled(c, rolls).draws
    ensures Settled(c, rolls).power != 0
    ensures Settled(c, rolls).power <= Max(c.power, 0)
  {
    DrainBounds(c.power, c.draws, rolls);
    if c.online {
      WithoutSpec(c.draws, PowerDraw.Camera);
    }
  }

  /** A blackout is for good: an offline battery stays exactly as it is. */
  lemma BlackoutIsFinal(c: Charge, rolls: seq<int>)
    requires ChargeValid(c) && !c.online && |rolls| == |c.draws|
    ensures Settled(c, rolls) == c
  {
  }

  /**
   * A battery at or below 0 whose draws trigger is set to exactly 0 by the
   * drain and so shuts down in the same turn.
   */
  lemma EmptyBatteryShutsDown(c: Charge, rolls: seq<int>)
    requires ChargeValid(c) && c.online && c.power <= 0 && |rolls| == |c.draws|
    requires SomeTrigger(c.draws, rolls)
    ensures Settled(c, rolls) == Charge(-1, [], false)
  {
    NonPositiveSettlesAtZero(c.power, c.draws, rolls);
  }

  /** How a turn ends. */
  datatype Outcome = Dead | Survived | Continue

  /** A command the player gives for the turn. */
  datatype Command = LeftDoor | LeftLight | RightDoor | RightLight | Camera | Sit

  /** The draws after a command that leaves its switch on (or off). */
  function Requested(c: Command, draws: seq<PowerDraw>, on: bool): seq<PowerDraw> {
    match c
    case LeftDoor => if on then With(draws, Doors) else Without(draws, Doors)
    case RightDoor => if on then With(draws, Doors) else Without(draws, Doors)
    case LeftLight => if on then With(draws, Lights) else Without(draws, Lights)
    case RightLight => if on then With(draws, Lights) else Without(draws, Lights)
    case Camera => With(draws, PowerDraw.Camera)
    case Sit => draws
  }

  /**
   * Both doors share the one Doors draw: with both doors closed, opening one
   * of them stops the Doors draw although the other door is still closed.
   */
  lemma OpeningOneDoorStopsBoth(draws: seq<PowerDraw>)
    requires NoDuplicates(draws)
    ensures Doors !in Requested(LeftDoor, Requested(RightDoor, Requested(LeftDoor, draws, true), true), false)
  {
    WithSpec(draws, Doors);
    WithoutSpec(With(draws, Doors), Doors);
  }

  class Night {
    var battery: Battery
    const office: Map
    var time: nat
    /** How many blackout turns Freddy has stood in the right hallway. */
    var stage: nat
    var night: nat

    ghost predicate Valid()
      reads this, battery, office
    {
      battery.Valid() && office.Valid() && |office.anims| >= 1
    }

    function Freddy(): Animatronic
      requires |office.anims| >= 1
      reads this, office
    {
      office.anims[0]
    }

    function Charged(): Charge
      reads this, battery
    {
      Charge(battery.power, battery.draws, battery.online)
    }

    /**
     * A new game: Freddy, Bonnie and Chica on the show stage (the game picks
     * difficulties 5, 3 and 3), each difficulty capped at 20, and the first
     * night.
     */
    constructor (freddy: nat, bonnie: nat, chica: nat)
      requires freddy < 256 && bonnie < 256 && chica < 256
      ensures Valid() && fresh(battery) && fresh(office) && fresh(office.Members())
      ensures Charged() == Charge(100, [], true)
      ensures |office.anims| == 3 && night == 1 && time == StartTime && stage == 0
      ensures office.anims[0].Snap() == Snapshot("Freddy", ShowStage, if freddy < 20 then freddy else 20, Visual)
      ensures office.anims[1].Snap() == Snapshot("Bonnie", ShowStage, if bonnie < 20 then bonnie else 20, Visual)
      ensures office.anims[2].Snap() == Snapshot("Chica", ShowStage, if chica < 20 then chica else 20, Visual)
    {
      battery := new Battery();
      var m := new Map();
      var f := new Animatronic("Freddy", ShowStage, freddy);
      var b := new Animatronic("Bonnie", ShowStage, bonnie);
      var c := new Animatronic("Chica", ShowStage, chica);
      m.anims := [f, b, c];
      office := m;
      time := StartTime;
      stage := 0;
      night := 1;
    }

    /** Dusk: the clock at midnight, a fresh full battery, the counter at 0 and the office reset. */
    method Dusk()
      requires Valid()
      modifies this, office, office.Members()
      ensures Valid() && fresh(battery) && Charged() == Charge(100, [], true)
      ensures time == StartTime && stage == 0 && night == old(night)
      ensures office.anims == old(office.anims) && !office.isDead && office.killer == NoKiller
      ensures !office.leftDoorClosed && !office.rightDoorClosed && !office.leftLightOn && !office.rightLightOn
      ensures forall k :: 0 <= k < |office.anims| ==>
        office.anims[k].Snap() == old(office.anims[k].Snap()).(location := ShowStage, tell := Visual)
    {
      time := StartTime;
      battery := new Battery();
      stage := 0;
      office.NightReset();
    }

    /**
     * A custom night: a new roster of Freddy, Bonnie and Chica with the
     * player's difficulties (5, 3 and 3 where the input does not parse), each
     * capped at 20, then dusk. The night count is left as it is.
     */
    method CustomNight(freddy: nat, bonnie: nat, chica: nat)
      requires Valid() && freddy < 256 && bonnie < 256 && chica < 256
      modifies this, office
      ensures Valid() && fresh(battery) && fresh(office.Members()) && Charged() == Charge(100, [], true)
      ensures |office.anims| == 3 && night == old(night) && time == StartTime && stage == 0
      ensures !office.isDead && office.killer == NoKiller
      ensures !office.leftDoorClosed && !office.rightDoorClosed && !office.leftLightOn && !office.rightLightOn
      ensures office.anims[0].Snap() == Snapshot("Freddy", ShowStage, if freddy < 20 then freddy else 20, Visual)
      ensures office.anims[1].Snap() == Snapshot("Bonnie", ShowStage, if bonnie < 20 then bonnie else 20, Visual)
      ensures office.anims[2].Snap() == Snapshot("Chica", ShowStage, if chica < 20 then chica else 20, Visual)
    {
      var f := new Animatronic("Freddy", ShowStage, freddy);
      var b := new Animatronic("Bonnie", ShowStage, bonnie);
      var c := new Animatronic("Chica", ShowStage, chica);
      office.anims := [f, b, c];
      Dusk();
    }

    /**
     * The player's command: a door or light command flips its switch and
     * then asks for or stops that switch's draw, the camera asks for its
     * draw, and sit does nothing. While the battery is offline only sit is
     * accepted; any other command is refused and changes nothing.
     */
    method ApplyCommand(c: Command) returns (accepted: bool)
      requires Valid()
      modifies battery, office
      ensures Valid() && office.anims == old(office.anims)
      ensures office.isDead == old(office.isDead) && office.killer == old(office.killer)
      ensures accepted == (old(battery.online) || c == Sit)
      ensures office.leftDoorClosed == (old(office.leftDoorClosed) != (accepted && c == LeftDoor))
      ensures office.rightDoorClosed == (old(office.rightDoorClosed) != (accepted && c == RightDoor))
      ensures office.leftLightOn == (old(office.leftLightOn) != (accepted && c == LeftLight))
      ensures office.rightLightOn == (old(office.rightLightOn) != (accepted && c == RightLight))
      ensures battery.power == old(battery.power) && battery.online == old(battery.online)
      ensures battery.draws == if !accepted then old(battery.draws) else
        Requested(c, old(battery.draws),
          match c
          case LeftDoor => office.leftDoorClosed
          case RightDoor => office.rightDoorClosed
          case LeftLight => office.leftLightOn
          case RightLight => office.rightLightOn
          case _ => true)
    {
      if !battery.online && c != Sit {
        return false;
      }
      accepted := true;
      match c
      case LeftDoor =>
        office.leftDoorClosed := !office.leftDoorClosed;
        if office.leftDoorClosed { battery.AddPowerDraw(Doors); } else { battery.RemovePowerDraw(Doors); }
      case LeftLight =>
        office.leftLightOn := !office.leftLightOn;
        if office.leftLightOn { battery.AddPowerDraw(Lights); } else { battery.RemovePowerDraw(Lights); }
      case RightDoor =>
        office.rightDoorClosed := !office.rightDoorClosed;
        if office.rightDoorClosed { battery.AddPowerDraw(Doors); } else { battery.RemovePowerDraw(Doors); }
      case RightLight =>
        office.rightLightOn := !office.rightLightOn;
        if office.rightLightOn { battery.AddPowerDraw(Lights); } else { battery.RemovePowerDraw(Lights); }
      case Camera =>
        battery.AddPowerDraw(PowerDraw.Camera);
      case Sit =>
    }

    /**
     * The power-out: the battery shuts down, both doors open, both lights go
     * off and Freddy is put in the right hallway.
     */
    method PowerOut()
      requires Valid()
      modifies battery, office, office.anims[0]
      ensures Valid() && office.anims == old(office.anims)
      ensures Charged() == Charge(-1, [], false)
      ensures !office.leftDoorClosed && !office.rightDoorClosed && !office.leftLightOn && !office.rightLightOn
      ensures office.isDead == old(office.isDead) && office.killer == old(office.killer)
      ensures Freddy().Snap() == old(Freddy().Snap()).(location := HallwayR)
    {
      battery.Shutdown();
      office.leftDoorClosed := false;
      office.rightDoorClosed := false;
      office.leftLightOn := false;
      office.rightLightOn := false;
      office.anims[0].location := HallwayR;
    }

    /**
     * Freddy's blackout step: while the battery is offline and Freddy is in
     * the right hallway the counter gives its warning and advances; at the
     * silence Freddy enters the attack room and kills the player.
     */
    method Blackout() returns (e: Escalation)
      requires Valid()
      modifies this`stage, office`isDead, office`killer, office.anims[0]
      ensures Valid()
      ensures (e, stage) == Escalate(old(stage), !battery.online, old(Freddy().location) == HallwayR)
      ensures office.isDead == (old(office.isDead) || e == Silence)
      ensures office.killer == if e == Silence then "Freddy" else old(office.killer)
      ensures Freddy().Snap() ==
        if e == Silence then old(Freddy().Snap()).(location := SecurityOfficeAttack) else old(Freddy().Snap())
    {
      e := Quiet;
      if !battery.online && office.anims[0].location == HallwayR {
        e := EscalationAt(stage);
        if e == Silence {
          office.anims[0].location := SecurityOfficeAttack;
          office.killer := "Freddy";
          office.isDead := true;
        }
        stage := stage + 1;
      }
    }

    /**
     * The end of a turn before the office tick: the battery drains and the
     * camera stops, a flat battery causes the power-out, Freddy's blackout
     * step runs, and then the player is found dead, the night is survived
     * (the clock reaching six) or the night goes on.
     */
    method EndTurn(rolls: seq<int>) returns (outcome: Outcome, e: Escalation)
      requires Valid() && |rolls| == |battery.draws|
      requires forall k :: 0 <= k < |rolls| ==> 1 <= rolls[k] < 20
      modifies this, battery, office, office.anims[0]
      ensures Valid() && battery == old(battery) && office.anims == old(office.anims)
      ensures Charged() == Settled(old(Charged()), rolls)
      ensures var flat := DrainedPower(old(Charged()), rolls) == 0;
        (office.leftDoorClosed, office.rightDoorClosed, office.leftLightOn, office.rightLightOn) ==
          if flat then (false, false, false, false)
          else old((office.leftDoorClosed, office.rightDoorClosed, office.leftLightOn, office.rightLightOn))
      ensures var flat := DrainedPower(old(Charged()), rolls) == 0;
        (e, stage) == Escalate(old(stage), !battery.online, flat || old(Freddy().location) == HallwayR)
      ensures Freddy().Snap() ==
        if e == Silence then old(Freddy().Snap()).(location := SecurityOfficeAttack)
        else if DrainedPower(old(Charged()), rolls) == 0 then old(Freddy().Snap()).(location := HallwayR)
        else old(Freddy().Snap())
      ensures office.isDead == (old(office.isDead) || e == Silence)
      ensures office.killer == if e == Silence then "Freddy" else old(office.killer)
      ensures outcome == if office.isDead then Dead else if old(time) + TickRate >= EndTime then Survived else Continue
      ensures time == if office.isDead then old(time) else old(time) + TickRate
      ensures night == if outcome == Survived then old(night) + 1 else old(night)
    {
      battery.UpdatePower(rolls);
      battery.RemovePowerDraw(PowerDraw.Camera);
      if battery.power == 0 {
        PowerOut();
      }
      e := Blackout();
      if office.isDead {
        return Dead, e;
      }
      time := time + TickRate;
      if time >= EndTime {
        night := night + 1;
        return Survived, e;
      }
      outcome := Continue;
    }

    /**
     * Between nights: a dead player ends the game; after the fifth night the
     * game is won and the night count starts over; otherwise every
     * difficulty rises by its own roll of 1 or 2.
     */
    method BetweenNights(bumps: seq<int>) returns (over: bool)
      requires Valid() && |bumps| == |office.anims|
      requires forall k :: 0 <= k < |office.anims| ==> 1 <= bumps[k] < 3 && office.anims[k].difficulty + bumps[k] < 256
      modifies this`night, office.Members()
      ensures over == (office.isDead || old(night) > 5)
      ensures night == if !office.isDead && old(night) > 5 then 1 else old(night)
      ensures forall k :: 0 <= k < |office.anims| ==>
        office.anims[k].Snap() ==
          if over then old(office.anims[k].Snap())
          else old(office.anims[k].Snap()).(difficulty := old(office.anims[k].difficulty) + bumps[k])
    {
      if office.isDead {
        return true;
      }
      if night > 5 {
        night := 1;
        return true;
      }
      office.RaiseDifficulty(bumps);
      over := false;
    }
  }
}
