# Five Nights at Freddy's in a terminal — a verified Dafny model of its simulation core

The game is a turn-based survival game. The player guards an office with a
left and a right door and a left and a right light, on a battery that drains
while systems run. Three animatronics, Freddy, Bonnie and Chica, wander a
fixed graph of twelve rooms towards the office. Each turn the player gives one
command (toggle a door or a light, look at the camera, or sit). The battery
then drains, a flat battery blacks the office out, Freddy's blackout
countdown runs, the clock advances a quarter of an hour, and every
animatronic makes its move. A night is survived at six o'clock (360 minutes),
and a game is won after five nights.

This project models that core in Dafny and proves what it promises:

- `rooms.dfy` (module `Rooms`): the twelve locations, the six tells with the
  letters the camera view shows, the hand-written adjacency table, and the
  5x9 display grid with its row-major search.
- `power.dfy` (module `Power`): the three kinds of power draw with their
  costs and drain thresholds, and the `Battery` class. Its draw list holds
  each kind at most once. Adding and removing a draw are idempotent, the
  drain is random per draw, and the shutdown is permanent. The drain is
  specified by the function `Drain`; the list updates by `With` and
  `Without`.
- `animatronic.dfy` (module `Animatronics`): the `Animatronic` class. Its
  constructor caps the difficulty at 20. Its `MoveTick` runs the door
  ejection, the movement roll against the difficulty, the neighbour pick,
  the closed-door check and the tell override chain. It is specified by the
  value function `Moved`.
- `office.dfy` (module `Office`): the `Map` class, holding the switches, the
  roster, the death flag and the killer. It has the per-night reset, the
  map tick that moves the roster in order and records a death (specified by
  `TickAll` and `KillerAfter`), and the between-nights difficulty rise.
- `night.dfy` (module `NightLoop`): the parts of the night loop in `main`.
  These are the clock and `display_time`, the effect of an already-parsed
  command, the end of a turn (drain, camera off, power-out, Freddy's
  blackout escalation, death and survival), the start of a new game, a custom
  night, dusk, and the step between nights. The end of a turn is specified
  by the value functions `Settled` and `Escalate`.

Every random number the game draws becomes an explicit parameter with the
range the game draws it from:
- a movement roll in [0, 20);
- a neighbour index in [0, number of neighbours);
- a tell roll in [0, 5);
- one drain roll in [1, 20) per active draw;
- one difficulty bump in [1, 3) per animatronic between nights.

Fixed-width integers are modelled as `int`/`nat`: the power level (an `i8`),
difficulties (`u8`), the clock (`u32`) and the blackout counter (`u8`). The
power level is proved to stay within [-6, 100]. A difficulty fed to the
constructor or bumped between nights must stay below 256; the game never gets
near that.

The model follows the code where the code is surprising:
- A drain at or below 0 sets the power to 0 rather than lowering it, so a
  negative level can rise back to 0. The true bound is
  `new power <= max(old power, 0)`, not "never increases" (`DrainBounds`).
- The level can pass 0 without hitting it. Only a level of exactly 0 at the
  end of a turn shuts the battery down.
- A costlier system does not drain more often than a cheaper one; it drains
  less often. The doors (cost 7) drain only on rolls from 4 up, while the
  camera (cost 2) drains on every roll (`TriggerThresholds`).
- Both doors share the one `Doors` draw. Opening either door stops the draw
  while the other door may still be closed.
- `map_tick` computes the neighbours before the door ejection. An
  animatronic pushed out of the right static office room can still walk into
  the attack room in the same tick.
- The killer recorded by a map tick is the last animatronic in roster order
  that stands in the attack room.
- The display grid holds the right static office room twice and the left
  one not at all, so searching it for the left one falls back to (0, 0).

## Model

| member | source | states |
|---|---|---|
| Rooms.Tell.Letter | src/main.rs:31-42 | each tell is shown as a one-letter code |
| Rooms.LettersDistinct | src/main.rs:31-42 | two tells have the same letter exactly when they are the same tell |
| Rooms.Neighbours | src/main.rs:154-221 | every room has between one and four neighbours (the table itself is the body) |
| Rooms.AttackRoomIsGuarded | src/main.rs:169-218 | the attack room's only neighbour is itself; both static office rooms lead only to the attack room; a room leads to the attack room exactly when it is a static office room or the attack room |
| Rooms.LevelIsDistance | src/main.rs:169-218 | `Level` is the distance to the attack room: it is 0 only there, one move lowers it by at most one, and every other room has a neighbour one step closer |
| Rooms.FindLocation | src/main.rs:496-510 | when the room is on the grid, the result is its first cell in row-major order; otherwise it is (0, 0) |
| Rooms.LeftStaticOfficeIsOffGrid | src/main.rs:325-381 | the grid has no cell for the left static office room, but has cells for the right one and the attack room |
| Power.PowerDraw.Cost | src/main.rs:51-59 | a triggered drain costs between 2 and 7 |
| Power.TriggerThresholds | src/main.rs:116-118 | on a roll in [1, 20) the camera always drains, lights from 2 and doors from 4; a costlier system drains at most as often as a cheaper one: on any roll where a costlier draw triggers, every cheaper one does too |
| Power.DrainBounds | src/main.rs:110-126 | draining keeps the level in [-6, 100] and never above max(old level, 0) |
| Power.TriggeredDrainLowers | src/main.rs:116-124 | from a positive level, a turn in which some draw triggers lowers the level by at least 2, or down to 0 |
| Power.UntriggeredLevelHolds | src/main.rs:116-124 | draining never raises a positive level, and leaves it exactly as it is when no draw triggers |
| Power.NonPositiveSettlesAtZero | src/main.rs:119-123 | from a level at or below 0, the level stays unless a draw triggers, and then it becomes exactly 0 |
| Power.IndexOf | src/main.rs:87 | the position found holds the draw and no earlier position does |
| Power.WithSpec | src/main.rs:82-94 | adding keeps the list free of duplicates, keeps the old list as a prefix, contains the added kind and nothing new besides it, and adding again changes nothing |
| Power.WithoutSpec | src/main.rs:96-108 | removing keeps the list free of duplicates, leaves no occurrence of the kind, keeps every other kind, takes exactly one element out of the multiset, and removing again changes nothing |
| Power.AtMostThreeDraws | src/main.rs:82-94 | a duplicate-free draw list holds at most three draws |
| Power.Position | src/main.rs:87 | the linear search finds a position exactly when the draw is in the list, and then finds the first one |
| Power.Battery.constructor | src/main.rs:74-80 | a new battery is at 100, with no draws, online |
| Power.Battery.AddPowerDraw | src/main.rs:82-94 | offline nothing changes; online the draw list becomes `With(draws, d)`; the level and flag never change |
| Power.Battery.RemovePowerDraw | src/main.rs:96-108 | offline nothing changes; online the draw list becomes `Without(draws, d)`; the level and flag never change |
| Power.Battery.UpdatePower | src/main.rs:110-126 | offline nothing changes; online the level becomes `Drain(level, draws, rolls)`, drawn one roll per draw in list order; the list and flag stay |
| Power.Battery.Shutdown | src/main.rs:128-132 | the level is -1, the list is empty and the battery is offline |
| Animatronics.MoveOutcomes | src/main.rs:229-305 | a move ends in the start room, the ejection hallway or a given neighbour; a failed roll or a blocked pick moves only by ejection and keeps the tell; otherwise it lands on the pick with the overridden tell; name and difficulty never change |
| Animatronics.EjectionTargets | src/main.rs:229-235 | a closed right (left) door pushes the right (left) static office room's occupant to the right (left) hallway; otherwise nobody moves; the result is never behind a closed door |
| Animatronics.TellOverrides | src/main.rs:269-305 | the static office rooms give Breathing; only Freddy can show Laughing; Freddy swaps Noise and Laughing; everybody else shows Noise for a raw Laughing or Noise; Chica in the kitchen on 3 or 4 shows Static; other rolls keep their raw tell |
| Animatronics.NonFreddyNeverLaughs | src/main.rs:291-295 | a move never makes an animatronic other than Freddy start to show Laughing |
| Animatronics.MoveClosesAtMostOneStep | src/main.rs:223-308 | one move along the table brings an animatronic at most one step closer to the attack room |
| Animatronics.EjectedStillAttacks | src/main.rs:408-410 | an animatronic in the right static office room whose door is closed, and whose roll succeeds, still ends in the attack room |
| Animatronics.Animatronic.constructor | src/main.rs:143-152 | name and location as given, tell Visual, difficulty min(d, 20) |
| Animatronics.Animatronic.FindAdjacentRoom | src/main.rs:154-221 | one to four neighbours of the current room; from the attack room or a static office room the only one is the attack room, and no other room leads there |
| Animatronics.Animatronic.MoveTick | src/main.rs:223-308 | the new state is `Moved` of the old state, neighbours, doors and rolls |
| Office.TickAll | src/main.rs:407-425 | each member makes its own move from its own room's neighbours, with the same doors |
| Office.AttackerIsInRoom | src/main.rs:411-414 | the pass finds an attacker exactly when some member stands in the attack room |
| Office.NoAttackerKeepsKiller | src/main.rs:411-414 | a pass that finds nobody in the attack room keeps the previous killer |
| Office.KillerIsLastAttacker | src/main.rs:411-414 | the recorded killer is the last member in roster order that stands in the attack room |
| Office.TickKeepsLaughterToFreddy | src/main.rs:407-425 | if only Freddy shows Laughing before a map tick, the same holds after it |
| Office.TickClosesAtMostOneStep | src/main.rs:407-425 | a map tick brings every member at most one step closer to the attack room |
| Office.NoAttackBeforeFifthTick | src/main.rs:407-425 | from a roster all on the show stage, nobody is in the attack room after four map ticks, whatever the doors and rolls |
| Office.Map.constructor | src/main.rs:323-390 | switches off, empty roster, nobody dead, killer "MissingNo." |
| Office.Map.NightReset | src/main.rs:392-405 | switches off, nobody dead, killer "MissingNo.", everybody on the show stage showing Visual, difficulties and roster kept |
| Office.Map.FindAdjacentRoom | src/main.rs:427-494 | the same table as the animatronic's own: one to four neighbours; from the attack room or a static office room the only one is the attack room, and no other room leads there |
| Office.Map.MoveOne | src/main.rs:408-415 | one member moves with the current doors; the player is then dead exactly when they already were or this member ends in the attack room, and the killer becomes this member's name in that case and is kept otherwise; the same in terms of the pass so far |
| Office.Map.MapTick | src/main.rs:407-425 | the roster becomes `TickAll` of the old roster; the death flag is set when somebody attacks and never cleared; the killer is `KillerAfter` the pass; switches and roster membership are unchanged |
| Office.Map.RaiseDifficulty | src/main.rs:927-930 | each difficulty rises by its own bump, with no cap; nothing else changes |
| NightLoop.DisplayTime | src/main.rs:1168-1172 | hours * 60 + minutes is the time and minutes are below 60 |
| NightLoop.DisplayTimeUnique | src/main.rs:1168-1172 | that reading is the only one with minutes below 60 |
| NightLoop.NightLastsTwentyFourTurns | src/main.rs:909-915 | after n turns of adding 15 minutes from midnight the clock is at 15n, and it reaches the end of the night exactly from the 24th turn |
| NightLoop.DarkTurnStage | src/main.rs:866-898 | the k-th consecutive dark turn acts at counter stage + k |
| NightLoop.SilenceOnSeventhDarkTurn | src/main.rs:869-896 | from a counter of 0, the first six dark turns are warnings 0 to 5 in order, and the seventh and every later one is the silence that kills |
| NightLoop.SettledValid | src/main.rs:853-864 | the end of a turn keeps the battery well formed, leaves no camera draw and never leaves the level at 0 |
| NightLoop.BlackoutIsFinal | src/main.rs:110-113 | an offline battery is unchanged by the end of a turn |
| NightLoop.EmptyBatteryShutsDown | src/main.rs:853-858 | an online battery at or below 0 whose draws trigger shuts down that turn |
| NightLoop.OpeningOneDoorStopsBoth | src/main.rs:791-817 | both doors share the one door draw: after closing the left door and then the right one, opening the left door leaves no door draw although the right door is still closed |
| NightLoop.Night.constructor | src/main.rs:746-757 | a new game: Freddy, Bonnie and Chica on the show stage in that order, with the given difficulties capped at 20 and tell Visual; full battery; first night |
| NightLoop.Night.CustomNight | src/main.rs:934-993 | a fresh roster of Freddy, Bonnie and Chica with the given difficulties capped at 20, on the show stage showing Visual; then dusk (full battery, midnight, counter 0, office reset); the night count is kept |
| NightLoop.Night.Dusk | src/main.rs:762-765 | the clock at midnight, a new full battery, counter 0, the map reset |
| NightLoop.Night.ApplyCommand | src/main.rs:788-850 | offline only sit is accepted and nothing changes; a door or light command flips its switch and then asks for (switch on) or stops (switch off) its draw; the camera asks for its draw; level and flag unchanged |
| NightLoop.Night.PowerOut | src/main.rs:856-864 | battery shut down, doors open, lights off, Freddy in the right hallway |
| NightLoop.Night.Blackout | src/main.rs:866-899 | the warning or silence and new counter are `Escalate` of the counter, the battery flag and Freddy's room; the silence kills with killer "Freddy" and Freddy in the attack room |
| NightLoop.Night.EndTurn | src/main.rs:853-915 | the battery becomes `Settled`; a flat battery clears the switches and puts Freddy in the right hallway; the blackout step runs on the resulting state, and its silence puts Freddy in the attack room; the outcome is death, survival at 360 minutes with the night count raised, or the clock advanced by 15 |
| NightLoop.Night.BetweenNights | src/main.rs:919-930 | a dead player or a sixth night ends the game (the latter resets the night count to 1); otherwise every difficulty rises by its bump |

## Left out

- `Map::display_map` (src/main.rs:522-715) is left out: it renders the map as text by string replacement and prints it.
- Every `println!` message is left out: the status lines, the sighting notices in `map_tick` and the escalation texts. The escalation stage is returned as an `Escalation` value instead.
- Reading commands from stdin is left out, together with the menu loops and the custom night's `parse::<u8>`. The already-parsed command is modelled (`Command`), and so are the difficulties the parse yields. Entering an unknown command only re-prompts.
- `distance_from_office_attack` (src/main.rs:512-520) is left out: it uses f64 square roots and is never called. `Level` stands in for the distance, as the graph distance.
- `rand::thread_rng` is left out; every draw is a parameter with its range as a precondition.
- Night.EndTurn: does not run the closing `map.map_tick()` of the turn (src/main.rs:917). That tick's rolls must fit the rooms the animatronics are in after the power-out and the blackout step, so the driver calls `Map.MapTick` separately when the outcome is `Continue`.
- The outer loops that chain the turns and the nights are left out; their single steps are modelled. A custom night is played for one night only and is not followed by the step between nights; that choice belongs to the left-out menu loop.
- Animatronics.Animatronic.constructor: requires a difficulty below 256, the range of the source's `u8`.
- Office.Map.RaiseDifficulty: requires every bumped difficulty to stay below 256. The source's `u8` addition would overflow past that; starting from at most 20 with at most five bumps of 2, the game stays far below it.
- The roster is a sequence of distinct `Animatronic` objects, which matches the source's owned `Vec<Animatronic>`. The model needs the roster to be non-empty where the source indexes `anim_states[0]`.
