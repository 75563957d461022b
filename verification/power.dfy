/**
 * The office battery: a power level, the list of systems currently drawing
 * power (each kind at most once) and an online flag that a blackout clears
 * for good.
 */
module Power {
  import opened Options

  datatype PowerDraw = Camera | Lights | Doors {
    /** The power one triggered drain of this system costs. */
    function Cost(): (c: int)
      ensures 2 <= c <= 7
    {
      match this
      case Camera => 2
      case Lights => 4
      case Doors => 7
    }

    /** The enum discriminant, in declaration order. */
    function Ordinal(): nat {
      match this
      case Camera => 0
      case Lights => 1
      case Doors => 2
    }

    /** A drain roll triggers this system's drain when twice its ordinal is at most the roll. */
    predicate Triggers(roll: int) {
      2 * Ordinal() <= roll
    }
  }

  /**
   * On the rolls the battery draws, from 1 to 19, the camera always drains,
   * the lights drain from 2 up and the doors from 4 up; so a costlier system
   * drains at most as often as a cheaper one: on any roll where a costlier
   * draw triggers, every cheaper one does too.
   */
  lemma TriggerThresholds(a: PowerDraw, b: PowerDraw, roll: int)
    requires 1 <= roll < 20
    ensures Camera.Triggers(roll)
    ensures Lights.Triggers(roll) <==> 2 <= roll
    ensures Doors.Triggers(roll) <==> 4 <= roll
    ensures a.Cost() <= b.Cost() && b.Triggers(roll) ==> a.Triggers(roll)
  {
  }

  function Max(a: int, b: int): int {
    if a < b then b else a
  }

  /**
   * The effect of one draw on the power level: a triggered drain subtracts the
   * cost while the level is positive, and otherwise sets the level to 0.
   */
  function Step(power: int, d: PowerDraw, roll: int): int {
    if d.Triggers(roll) then
      if power > 0 then power - d.Cost() else 0
    else power
  }

  /** The power level after the draws are applied in list order, one roll each. */
  function Drain(power: int, draws: seq<PowerDraw>, rolls: seq<int>): int
    requires |rolls| == |draws|
    decreases |draws|
  {
    if draws == [] then power
    else Step(Drain(power, draws[..|draws| - 1], rolls[..|rolls| - 1]), draws[|draws| - 1], rolls[|rolls| - 1])
  }

  /** Some draw in the list triggers on its roll. */
  ghost predicate SomeTrigger(draws: seq<PowerDraw>, rolls: seq<int>)
    requires |rolls| == |draws|
  {
    exists i :: 0 <= i < |draws| && draws[i].Triggers(rolls[i])
  }

  /**
   * Draining keeps the level within [-6, 100] and never raises it above the
   * larger of its old value and 0: a positive level only goes down, and a
   * level at or below 0 can only be lifted back to 0.
   */
  lemma {:induction false} DrainBounds(power: int, draws: seq<PowerDraw>, rolls: seq<int>)
    requires |rolls| == |draws|
    requires -6 <= power <= 100
    ensures -6 <= Drain(power, draws, rolls) <= 100
    ensures Drain(power, draws, rolls) <= Max(power, 0)
  {
    if draws != [] {
      DrainBounds(power, draws[..|draws| - 1], rolls[..|rolls| - 1]);
    }
  }

  /**
   * From a positive level, a tick in which some draw triggers takes off at
   * least the cheapest cost, 2, or empties the battery.
   */
  lemma {:induction false} TriggeredDrainLowers(power: int, draws: seq<PowerDraw>, rolls: seq<int>)
    requires |rolls| == |draws|
    requires power > 0 && SomeTrigger(draws, rolls)
    ensures Drain(power, draws, rolls) <= Max(power - 2, 0)
  {
    var n := |draws| - 1;
    if draws[n].Triggers(rolls[n]) {
      UntriggeredLevelHolds(power, draws[..n], rolls[..n]);
    } else {
      SomeTriggerInPrefix(draws, rolls);
      TriggeredDrainLowers(power, draws[..n], rolls[..n]);
    }
  }

  /** A trigger that is not the last draw's lies in the prefix without it. */
  lemma SomeTriggerInPrefix(draws: seq<PowerDraw>, rolls: seq<int>)
    requires |rolls| == |draws| && SomeTrigger(draws, rolls)
    requires !draws[|draws| - 1].Triggers(rolls[|rolls| - 1])
    ensures SomeTrigger(draws[..|draws| - 1], rolls[..|rolls| - 1])
  {
    var i :| 0 <= i < |draws| && draws[i].Triggers(rolls[i]);
    assert draws[..|draws| - 1][i] == draws[i];
  }

  /**
   * Draining never raises a positive level, and leaves it exactly as it is
   * when no draw triggers.
   */
  lemma {:induction false} UntriggeredLevelHolds(power: int, draws: seq<PowerDraw>, rolls: seq<int>)
    requires |rolls| == |draws|
    requires power > 0
    ensures Drain(power, draws, rolls) <= power
    ensures !SomeTrigger(draws, rolls) ==> Drain(power, draws, rolls) == power
  {
    if draws != [] {
      UntriggeredLevelHolds(power, draws[..|draws| - 1], rolls[..|rolls| - 1]);
      TriggerSplit(draws, rolls);
    }
  }

  /**
   * From a level at or below 0, draining leaves the level alone when nothing
   * triggers and sets it to exactly 0 as soon as anything does.
   */
  lemma {:induction false} NonPositiveSettlesAtZero(power: int, draws: seq<PowerDraw>, rolls: seq<int>)
    requires |rolls| == |draws|
    requires power <= 0
    ensures Drain(power, draws, rolls) == if SomeTrigger(draws, rolls) then 0 else power
  {
    if draws != [] {
      var n := |draws| - 1;
      NonPositiveSettlesAtZero(power, draws[..n], rolls[..n]);
      TriggerSplit(draws, rolls);
    }
  }

  /** Some draw triggers exactly when one in the prefix does or the last one does. */
  lemma TriggerSplit(draws: seq<PowerDraw>, rolls: seq<int>)
    requires |rolls| == |draws| && draws != []
    ensures SomeTrigger(draws, rolls) <==>
      SomeTrigger(draws[..|draws| - 1], rolls[..|rolls| - 1]) || draws[|draws| - 1].Triggers(rolls[|rolls| - 1])
  {
    var n := |draws| - 1;
    if SomeTrigger(draws[..n], rolls[..n]) {
      var i :| 0 <= i < n && draws[..n][i].Triggers(rolls[..n][i]);
      assert draws[i] == draws[..n][i] && rolls[i] == rolls[..n][i];
    }
    if SomeTrigger(draws, rolls) && !draws[n].Triggers(rolls[n]) {
      SomeTriggerInPrefix(draws, rolls);
    }
  }

  predicate NoDuplicates(draws: seq<PowerDraw>) {
    forall i, j :: 0 <= i < j < |draws| ==> draws[i] != draws[j]
  }

  /** The list with d appended unless it is already there. */
  function With(draws: seq<PowerDraw>, d: PowerDraw): seq<PowerDraw> {
    if d in draws then draws else draws + [d]
  }

  /** The index of the first occurrence of d. */
  function IndexOf(draws: seq<PowerDraw>, d: PowerDraw): (i: nat)
    requires d in draws
    ensures i < |draws| && draws[i] == d && d !in draws[..i]
  {
    if draws[0] == d then 0
    else
      var i := 1 + IndexOf(draws[1..], d);
      assert draws[..i] == [draws[0]] + draws[1..][..i - 1];
      i
  }

  /** The list with the first occurrence of d taken out, the rest in order. */
  function Without(draws: seq<PowerDraw>, d: PowerDraw): seq<PowerDraw> {
    if d in draws then
      var i := IndexOf(draws, d);
      draws[..i] + draws[i + 1..]
    else draws
  }

  /**
   * Adding is idempotent and keeps each kind at most once: the old list is
   * kept as a prefix, and d is in the result.
   */
  lemma WithSpec(draws: seq<PowerDraw>, d: PowerDraw)
    requires NoDuplicates(draws)
    ensures NoDuplicates(With(draws, d))
    ensures d in With(draws, d) && With(With(draws, d), d) == With(draws, d)
    ensures With(draws, d)[..|draws|] == draws
    ensures forall e :: e in With(draws, d) <==> e in draws || e == d
  {
  }

  /** Any first occurrence of d is the one IndexOf finds. */
  lemma IndexOfUnique(draws: seq<PowerDraw>, d: PowerDraw, i: nat)
    requires i < |draws| && draws[i] == d && d !in draws[..i]
    ensures IndexOf(draws, d) == i
  {
    var j := IndexOf(draws, d);
    assert forall k :: 0 <= k < i ==> draws[..i][k] == draws[k];
    assert forall k :: 0 <= k < j ==> draws[..j][k] == draws[k];
  }

  /** Deleting one position of a list without duplicates leaves no duplicates and loses that element. */
  lemma DeleteAt(draws: seq<PowerDraw>, i: nat)
    requires NoDuplicates(draws) && i < |draws|
    ensures NoDuplicates(draws[..i] + draws[i + 1..])
    ensures draws[i] !in draws[..i] + draws[i + 1..]
    ensures forall e :: e != draws[i] ==> (e in draws[..i] + draws[i + 1..] <==> e in draws)
  {
    var r := draws[..i] + draws[i + 1..];
    assert |r| == |draws| - 1;
    assert forall k :: 0 <= k < |r| ==> r[k] == draws[if k < i then k else k + 1];
    assert draws == draws[..i] + [draws[i]] + draws[i + 1..];
  }

  /**
   * Removing takes out exactly the one occurrence of d: no d is left, every
   * other kind stays, and the multiset loses one d.
   */
  lemma WithoutSpec(draws: seq<PowerDraw>, d: PowerDraw)
    requires NoDuplicates(draws)
    ensures NoDuplicates(Without(draws, d))
    ensures d !in Without(draws, d)
    ensures forall e :: e != d ==> (e in Without(draws, d) <==> e in draws)
    ensures multiset(Without(draws, d)) == multiset(draws) - multiset{d}
    ensures Without(Without(draws, d), d) == Without(draws, d)
  {
    if d in draws {
      var i := IndexOf(draws, d);
      DeleteAt(draws, i);
      WithoutMultiset(draws, i);
    } else {
      assert multiset(draws)[d] == 0;
    }
  }

  lemma WithoutMultiset(draws: seq<PowerDraw>, i: nat)
    requires i < |draws|
    ensures multiset(draws[..i] + draws[i + 1..]) == multiset(draws) - multiset{draws[i]}
  {
    assert draws == draws[..i] + [draws[i]] + draws[i + 1..];
  }

  /** A list without duplicates holds at most the three kinds. */
  lemma {:induction false} AtMostThreeDraws(draws: seq<PowerDraw>)
    requires NoDuplicates(draws)
    ensures |draws| <= 3
  {
    DistinctCount(draws);
    var kinds := set d | d in draws;
    var all := {Camera, Lights, Doors};
    assert all == kinds + (all - kinds);
    assert kinds * (all - kinds) == {};
  }

  lemma {:induction false} DistinctCount(draws: seq<PowerDraw>)
    requires NoDuplicates(draws)
    ensures |set d | d in draws| == |draws|
  {
    if draws != [] {
      DistinctCount(draws[1..]);
      assert (set d | d in draws) == {draws[0]} + (set d | d in draws[1..]);
      assert draws[0] !in draws[1..];
    }
  }

  /** Linear search for the first position of d. */
  method Position(draws: seq<PowerDraw>, d: PowerDraw) returns (index: Option<nat>)
    ensures index.Some? <==> d in draws
    ensures index.Some? ==> index.value < |draws| && draws[index.value] == d && d !in draws[..index.value]
  {
    var i := 0;
    while i < |draws|
      invariant 0 <= i <= |draws|
      invariant d !in draws[..i]
    {
      if draws[i] == d {
        return Some(i);
      }
      assert draws[..i + 1] == draws[..i] + [draws[i]];
      i := i + 1;
    }
    assert draws[..i] == draws;
    return None;
  }

  /** A battery's state as a value: power level, active draws, online flag. */
  datatype Charge = Charge(power: int, draws: seq<PowerDraw>, online: bool)

  /**
   * A well-formed battery: the level stays within [-6, 100] (so within the
   * source's i8), each kind is drawn at most once, and an offline battery is
   * frozen at -1 with no draws.
   */
  predicate ChargeValid(c: Charge) {
    -6 <= c.power <= 100 && NoDuplicates(c.draws) && (!c.online ==> c.power == -1 && c.draws == [])
  }

  class Battery {
    var power: int
    var draws: seq<PowerDraw>
    var online: bool

    /** The battery's state is well formed, as a value. */
    ghost predicate Valid()
      reads this
    {
      ChargeValid(Charge(power, draws, online))
    }

    constructor ()
      ensures Valid()
      ensures power == 100 && draws == [] && online
    {
      power := 100;
      draws := [];
      online := true;
    }

    method AddPowerDraw(d: PowerDraw)
      requires Valid()
      modifies this
      ensures Valid()
      ensures power == old(power) && online == old(online)
      ensures draws == if old(online) then With(old(draws), d) else old(draws)
    {
      if !online {
        return;
      }
      var index := Position(draws, d);
      match index {
        case Some(_) =>
        case None =>
          draws := draws + [d];
      }
      WithSpec(old(draws), d);
    }

    method RemovePowerDraw(d: PowerDraw)
      requires Valid()
      modifies this
      ensures Valid()
      ensures power == old(power) && online == old(online)
      ensures draws == if old(online) then Without(old(draws), d) else old(draws)
    {
      if !online {
        return;
      }
      var index := Position(draws, d);
      match index {
        case Some(i) =>
          IndexOfUnique(draws, d, i);
          DeleteAt(draws, i);
          draws := draws[..i] + draws[i + 1..];
        case None =>
      }
    }

    /** One drain roll in [1, 20) per active draw, in list order. */
    method UpdatePower(rolls: seq<int>)
      requires Valid()
      requires |rolls| == |draws|
      requires forall i :: 0 <= i < |rolls| ==> 1 <= rolls[i] < 20
      modifies this
      ensures Valid()
      ensures draws == old(draws) && online == old(online)
      ensures power == if old(online) then Drain(old(power), old(draws), rolls) else old(power)
    {
      if !online {
        return;
      }
      for i := 0 to |draws|
        invariant draws == old(draws) && online && |rolls| == |draws|
        invariant power == Drain(old(power), draws[..i], rolls[..i])
      {
        assert draws[..i + 1][..i] == draws[..i] && rolls[..i + 1][..i] == rolls[..i];
        var d := draws[i];
        if d.Triggers(rolls[i]) {
          if power > 0 {
            power := power - d.Cost();
          } else {
            power := 0;
          }
        }
      }
      assert draws[..|draws|] == draws && rolls[..|rolls|] == rolls;
      DrainBounds(old(power), draws, rolls);
    }

    /** Power out: the level drops to the -1 marker, all draws go and the battery stays offline. */
    method Shutdown()
      requires Valid()
      modifies this
      ensures Valid()
      ensures power == -1 && draws == [] && !online
    {
      power := -1;
      draws := [];
      online := false;
    }
  }
}
