# Tingo: the virtual pet's game-state machine

Tingo is a browser virtual pet. A penguin has five needs: hunger, happiness,
hygiene, energy and health. A five-second timer ages the pet. While the pet is
awake, the timer also lowers hunger, happiness and energy. While it sleeps,
only energy changes, and it rises. The timer never touches hygiene or health.
The pet grows from `EGG` to `BABY`, `CHILD` and `ADULT`. When hunger or health
is at or below 5, a random draw can kill it, and `DEAD` is a terminal state. The
player feeds, plays with, cleans, heals, pets the pet and turns its light on
or off. When the page opens, a saved game is caught up with the decay it
suffered while closed.

This project models that state machine in Dafny and proves properties of it.

- `wrappers.dfy`: `Option`. It stands for a save that is missing or fails to
  parse, and for an action id that names no action.
- `types.dfy` (module `Types`): `GrowthStage`, `PetStats`, `ActionType` and
  `GameState`; the stage order `Rank`; the action ids.
- `constants.dfy` (module `Constants`): `INITIAL_STATS`, `MENU_ACTIONS`,
  `STAGE_THRESHOLDS` and the facts about them.
- `game.dfy` (module `Game`): the pure reducers.
  - `Load` / `CatchUp`: the load-time initializer.
  - `TickStats` / `NextStage` / `Tick`: the interval callback's reducer.
  - `Dispatch` / `HandleAction`: the state updates of `handleAction`.
  - `Pet`: the rate-limited petting update.
- `trace.dfy` (module `Trace`): the game as the page drives it. `Step` applies
  one event (timer tick, menu action or pet) and `Run` folds a sequence of
  them. Induction lemmas say what holds after any sequence of events.
- `app.dfy` (module `AppDriver`): class `App`. Its fields are the component
  state `gameState` and the ref `lastInteractionTime`. Its constructor and its
  methods `Tick`, `HandleAction` and `HandlePetting` replace them the way the
  React state and the ref are replaced.

Modelling choices:
- Numbers are exact `real`s, so 0.4, 0.2, 0.1, 1.5 and 0.001 are exact.
- Timestamps are `int` milliseconds.
- `Math.random()` is the `draw` parameter. Death needs `draw > 0.995`.
- The answer to the "restart?" dialog is the `confirmed` parameter.
- The parsed save is an `Option<GameState>`.

Facts the proofs bring out:
- Nothing in the core ever raises `poopCount` or sets `isSick`
  (`Trace.RunNeverSickensOrSoils`).
- When the stage fits the age (`Game.StageFitsAge`), it only moves forward.
  Without that fit, the one way to move back is an `ADULT` whose new age is
  in [0.5, 2.0): it becomes a `CHILD`. An `ADULT` whose new age is below 0.5
  stays `ADULT` (`Game.TickDemotesOnlyYoungAdults`).
  From a start that fits, which includes every default or reset state, the
  fit is kept (`Trace.RunMovesForward`). A loaded save keeps the stage and age
  it was saved with, so a save that does not fit may stay out of fit for many
  ticks. Age never decreases without a reset, fit or not
  (`Trace.RunNeverYounger`).
- The bounds on load are guaranteed only when the save's timestamp is not in
  the future. With the clock set back, hours are negative. The catch-up then
  raises hunger, happiness, hygiene and an awake pet's energy, and lowers a
  sleeping pet's energy. Hunger and awake energy can pass 100, and sleeping
  energy can fall below 0 (`Game.LoadFutureSaveOverfills`). App.tsx does
  not guard against this.

## Model

| member | source | states |
|---|---|---|
| `Types.RankStrictOrder` | types.ts:2 | the stage order used by the forward-only facts is strict: two stages have the same position only if they are the same stage, and `DEAD` is the unique stage at the top, above every other |
| `Types.ParseAction` | App.tsx:192-249 | an id maps to an action exactly when it is that action's string; any other id maps to none |
| `Types.ParseActionId` | types.ts:15 | each of the six action ids parses to its own action, so no two actions share an id |
| `Constants.InitialStatsInRange` | constants.tsx:2-11 | hunger 50, happiness 50, hygiene 100, energy 100 and health 100 all lie in [0, 100] |
| `Constants.InitialAgeBeforeHatching` | constants.tsx:8 | the initial age 0 is below the BABY threshold, so a fresh pet is consistent with EGG |
| `Constants.ThresholdsIncreasing` | constants.tsx:22-26 | 0 < BABY 0.01 < CHILD 0.5 < ADULT 2.0 |
| `Constants.MenuActionsAreActionTypes` | constants.tsx:13-20 | the dock has six entries with pairwise distinct ids; each id parses to an action, and each action has an entry |
| `Game.DefaultState` | App.tsx:42-51 | the default record is INITIAL_STATS, EGG, awake, not sick, no droppings, action index 0, named "TINGO", stamped `now`; it is in bounds and its stage fits its age |
| `Game.HoursBetween` | App.tsx:23-24 | elapsed hours are non-negative exactly when the save is not newer than `now` |
| `Game.CatchUp` | App.tsx:27-37 | hunger, happiness and hygiene fall by 12h, 8h and 4h, each floored at 0; energy rises by 20h capped at 100 when asleep, or falls by 6h floored at 0 when awake; nothing else changes but `lastUpdate := now`; bounds hold whenever h >= 0 |
| `Game.Load` | App.tsx:17-52 | no save gives the default state; a DEAD save comes back unchanged, `lastUpdate` included; a living save is caught up; stage and age are kept; the stage fit and the bounds carry over when h >= 0 |
| `Game.LoadTwoHoursScenario` | App.tsx:23-34 | an awake save from two hours ago loses 24 hunger, 16 happiness, 8 hygiene and 12 energy, each floored at 0 |
| `Game.CatchUpAdditive` | App.tsx:27-37 | catching up to t1 and then to t2 equals catching up to t2 in one go |
| `Game.LoadFutureSaveOverfills` | App.tsx:23-34 | a save stamped two hours in the future loads with hunger 124 and, awake, energy 112; asleep with energy 10 it loads with energy -30; so the bounds on load are guaranteed only for a save not newer than `now` |
| `Game.NextStage` | App.tsx:163-166 | age >= 2.0 gives ADULT; age in [0.5, 2.0) gives CHILD; age in [0.01, 0.5) gives BABY from EGG and otherwise keeps the stage; below 0.01 the stage is kept; BABY is entered only from EGG |
| `Game.TickStats` | App.tsx:154-162 | awake: hunger, happiness and energy fall by 0.4, 0.2 and 0.1, each floored at 0; asleep: only energy changes, rising by 1.5 capped at 100; age rises by exactly 0.001; the other stats are unchanged; the three stats stay in range |
| `Game.Tick` | App.tsx:152-173 | a DEAD state is returned unchanged; otherwise the stats are ticked, `lastUpdate := now` and all other fields are kept; the result is DEAD exactly when the pet was dead or post-decay hunger or health is <= 5 and the draw exceeds 0.995; otherwise the stage is the age promotion; bounds are preserved |
| `Game.TickMovesForward` | App.tsx:162-169 | a stage that fits the age still fits after the tick; the stage never moves back, and rises by at most one step unless the pet dies |
| `Game.TickDemotesOnlyYoungAdults` | App.tsx:163-166 | a tick lowers the stage exactly when an ADULT whose new age is in [0.5, 2.0) becomes a CHILD |
| `Game.Dispatch` | App.tsx:178-249 | while DEAD every action is a no-op except a confirmed STATS, which gives exactly the default state; FOOD and PLAY do nothing while sleeping; awake, FOOD raises hunger by 25 capped at 100, and PLAY raises happiness by 20 capped at 100 and lowers energy by 10 floored at 0; LIGHT toggles only `isSleeping`; CLEAN sets droppings to 0 and hygiene to 100; HEAL clears sickness and sets health to 100; STATS while alive changes nothing; the other fields are untouched; bounds and stage fit are preserved |
| `Game.HandleAction` | App.tsx:178-192 | an unknown id changes nothing; while DEAD only a confirmed "STATS" resets; a known id takes that action's effect |
| `Game.LightTwiceIsIdentity` | App.tsx:208-215 | switching the light twice gives back the same state, alive or dead |
| `Game.CleanHealIdempotent` | App.tsx:231-248 | cleaning twice equals cleaning once; healing twice equals healing once |
| `Game.FeedScenario` | App.tsx:193-206 | feeding an awake pet at hunger 90 gives hunger 100, not 115 |
| `Game.Pet` | App.tsx:252-265 | a pet is accepted only for a living, awake pet more than 600 ms after the last accepted one; if accepted, happiness rises by 3 capped at 100 and `now` is recorded, with nothing else changed; otherwise nothing changes |
| `Game.PetCooldown` | App.tsx:255-262 | a second pet within 600 ms of an accepted one has no effect |
| `Trace.Step` | App.tsx:150-265 | one event keeps the bounds and the stage fit; only a pet changes the last interaction time; a DEAD state ignores every event but a confirmed reset; with the fit and no reset, the stage never falls |
| `Trace.RunKeepsBounds` | App.tsx:150-265 | after any sequence of ticks, actions and pets, the five needs stay in [0, 100] |
| `Trace.RunFrozenWhileDead` | App.tsx:153 | a DEAD session stays exactly as it is under any sequence of events without a confirmed reset |
| `Trace.RunMovesForward` | App.tsx:162-169 | without a reset, a session whose stage fits its age keeps the fit and never moves to an earlier stage |
| `Trace.RunNeverYounger` | App.tsx:162 | without a reset, the age never decreases over any sequence of events, whether or not the stage fits the age |
| `Trace.RunAppend` | App.tsx:150-265 | running two sequences of events one after the other equals running their concatenation |
| `Trace.ResetThenFeedScenario` | App.tsx:153-249 | a loaded DEAD save ignores a tick and a meal; a confirmed STATS gives the default state; two meals then raise hunger from 50 to 75 and then to 100, not 125 |
| `Trace.RunNeverSickensOrSoils` | App.tsx:178-265 | no sequence of events makes the pet sick, and `poopCount` is either unchanged or 0 |
| `AppDriver.App.constructor` | App.tsx:17-52 | the component state starts as `Load(saved, now)` and the pet cooldown ref starts at 0 |
| `AppDriver.App.Tick` | App.tsx:150-176 | the state is replaced by the tick reducer's result; the ref is untouched; bounds and stage fit are kept and the stage never falls |
| `AppDriver.App.HandleAction` | App.tsx:178-250 | the state is replaced by the action reducer's result; a DEAD pet changes only on a confirmed STATS |
| `AppDriver.App.HandlePetting` | App.tsx:252-265 | the early return and the 600 ms guard implement exactly `Pet`; a rejected pet touches neither field |

## Left out

- The flavour text from the remote text-generation call (`updateThoughts`). It is a network client with a fallback string and holds no game state.
- Audio (`playSound`). It only calls the Web Audio API.
- Persistence I/O. The model does not cover `localStorage` reads and writes or `JSON.parse` / `JSON.stringify`. A save that parses is modelled as a well-typed `GameState`. A save with missing or mistyped fields, and the NaN arithmetic those would cause, is not modelled.
- Timers and animation flags: `setInterval`, `setTimeout` and `isInteracting`. The model does not enforce the 5000 ms period, so the tick takes `now` as a free parameter. The last-write-wins races between overlapping timeouts touch only these flags.
- Particles (`addParticles`). They are cosmetic, with random positions and removal by timer.
- Hit-testing for drag and drop (`onDragStart`, `onMouseUp`). It depends on DOM geometry. A drop hands the dragged id to `handleAction`, which is modelled.
- The `setMessage` texts and the rendering components (`PenguinCharacter`, `StatsBar`).
- Stale closure: `handleAction` and `handlePetting` check the DEAD and sleeping flags on the state of the last render, while the reducers read the latest state. The model uses one state for both, as happens when no update is pending.
- Floating point. The model uses exact reals. In App.tsx, summing 0.001 steps is rounded, so the tick that crosses a threshold can differ by one.
- The probability of the death draw. The draw is an input, and nothing is said about its distribution.
- `GameState.selectedActionIndex`, `PetStats.level` and `PetStats.careScore` are carried along. No modelled operation reads them.
