/** The game-state machine of the pet (App.tsx): the load-time catch-up, the
    periodic tick, the menu actions and petting, each as a pure reducer from
    the old state to the new one. Wall-clock times are milliseconds; the
    random draw of the death check and the player's answer to the reset
    dialog are parameters. */
module Game {
  import opened Wrappers
  import opened Types
  import opened Constants

  const DEFAULT_NAME: string := "TINGO"
  const STAT_MAX: real := 100.0

  // Per-tick rates.
  const TICK_HUNGER_DECAY: real := 0.4
  const TICK_HAPPINESS_DECAY: real := 0.2
  const TICK_ENERGY_DECAY: real := 0.1
  const TICK_ENERGY_RESTORE: real := 1.5
  const TICK_AGE_STEP: real := 0.001

  // The death check: a stat at or below CRITICAL_LEVEL, and a draw above DEATH_DRAW.
  const CRITICAL_LEVEL: real := 5.0
  const DEATH_DRAW: real := 0.995

  // Hourly rates of the catch-up applied to a loaded save.
  const MS_PER_HOUR: int := 3600000
  const HOURLY_HUNGER_DECAY: real := 12.0
  const HOURLY_HAPPINESS_DECAY: real := 8.0
  const HOURLY_HYGIENE_DECAY: real := 4.0
  const HOURLY_ENERGY_DECAY: real := 6.0
  const HOURLY_ENERGY_RESTORE: real := 20.0

  // Effects of the actions.
  const FOOD_HUNGER_GAIN: real := 25.0
  const PLAY_HAPPINESS_GAIN: real := 20.0
  const PLAY_ENERGY_COST: real := 10.0
  const PET_HAPPINESS_GAIN: real := 3.0
  const PET_COOLDOWN_MS: int := 600

  function Max(a: real, b: real): real { if a >= b then a else b }
  function Min(a: real, b: real): real { if a <= b then a else b }

  /** `after` is `before` lowered by `d`, but never below 0: the least
      non-negative value that is at least `before - d`. */
  predicate FallsFloored(before: real, after: real, d: real)
  {
    after >= 0.0 && after >= before - d && (after == 0.0 || after == before - d)
  }

  /** `after` is `before` raised by `d`, but never above 100: the greatest
      value up to 100 that is at most `before + d`. */
  predicate RisesCapped(before: real, after: real, d: real)
  {
    after <= STAT_MAX && after <= before + d && (after == STAT_MAX || after == before + d)
  }

  predicate InRange(x: real) { 0.0 <= x <= STAT_MAX }

  /** The five needs shown as bars all lie in [0, 100]. */
  predicate Bounded(s: GameState)
  {
    InRange(s.stats.hunger) && InRange(s.stats.happiness) && InRange(s.stats.hygiene)
    && InRange(s.stats.energy) && InRange(s.stats.health)
  }

  /** The stage a living pet of the given age has reached on the way
      EGG, BABY, CHILD, ADULT. The default state satisfies it and every
      step keeps it; a loaded save keeps whatever fit it had. */
  predicate StageFitsAge(stage: GrowthStage, age: real)
  {
    match stage
    case EGG => age < STAGE_THRESHOLDS.baby
    case BABY => STAGE_THRESHOLDS.baby <= age < STAGE_THRESHOLDS.child
    case CHILD => STAGE_THRESHOLDS.child <= age < STAGE_THRESHOLDS.adult
    case ADULT => STAGE_THRESHOLDS.adult <= age
    case DEAD => true
  }

  predicate Fits(s: GameState) { StageFitsAge(s.stage, s.stats.age) }

  /** The fresh record a new game or a reset starts from. */
  function DefaultState(now: int): (r: GameState)
    ensures Bounded(r) && Fits(r)
    ensures r.stage == EGG && !r.isSleeping && !r.isSick && r.poopCount == 0
    ensures r.stats == INITIAL_STATS && r.selectedActionIndex == 0 && r.lastUpdate == now
    ensures r.name == DEFAULT_NAME
  {
    GameState(
      stats := INITIAL_STATS,
      name := DEFAULT_NAME,
      stage := EGG,
      isSleeping := false,
      isSick := false,
      poopCount := 0,
      lastUpdate := now,
      selectedActionIndex := 0)
  }

  // ---------------------------------------------------------------- load

  /** Hours elapsed between two millisecond timestamps. */
  function HoursBetween(from: int, to: int): (h: real)
    ensures from <= to <==> h >= 0.0
  {
    (to - from) as real / MS_PER_HOUR as real
  }

  /** The decay a living pet suffered while the page was closed, extrapolated
      from the save's timestamp to `now`. Only the four decaying stats change,
      and the timestamp becomes `now`. */
  function CatchUp(p: GameState, now: int): (r: GameState)
    ensures var h := HoursBetween(p.lastUpdate, now);
      FallsFloored(p.stats.hunger, r.stats.hunger, h * HOURLY_HUNGER_DECAY)
      && FallsFloored(p.stats.happiness, r.stats.happiness, h * HOURLY_HAPPINESS_DECAY)
      && FallsFloored(p.stats.hygiene, r.stats.hygiene, h * HOURLY_HYGIENE_DECAY)
      && (if p.isSleeping then RisesCapped(p.stats.energy, r.stats.energy, h * HOURLY_ENERGY_RESTORE)
          else FallsFloored(p.stats.energy, r.stats.energy, h * HOURLY_ENERGY_DECAY))
    ensures r.stats == p.stats.(hunger := r.stats.hunger, happiness := r.stats.happiness,
                                hygiene := r.stats.hygiene, energy := r.stats.energy)
    ensures r == p.(stats := r.stats, lastUpdate := now)
    ensures p.lastUpdate <= now && Bounded(p) ==> Bounded(r)
  {
    var hours := HoursBetween(p.lastUpdate, now);
    var st := p.stats;
    p.(stats := st.(
         hunger := Max(0.0, st.hunger - hours * HOURLY_HUNGER_DECAY),
         happiness := Max(0.0, st.happiness - hours * HOURLY_HAPPINESS_DECAY),
         hygiene := Max(0.0, st.hygiene - hours * HOURLY_HYGIENE_DECAY),
         energy := if p.isSleeping then Min(STAT_MAX, st.energy + hours * HOURLY_ENERGY_RESTORE)
                   else Max(0.0, st.energy - hours * HOURLY_ENERGY_DECAY)),
       lastUpdate := now)
  }

  /** The state the game starts in. `saved` is the parsed save, `None` when
      there is none or it does not parse. A dead pet's save is kept as it is,
      timestamp included; a living pet's save is caught up to `now`. */
  function Load(saved: Option<GameState>, now: int): (r: GameState)
    ensures saved.None? ==> r == DefaultState(now)
    ensures saved.Some? && saved.value.stage == DEAD ==> r == saved.value
    ensures saved.Some? && saved.value.stage != DEAD ==> r == CatchUp(saved.value, now)
    ensures saved.Some? ==> r.stage == saved.value.stage && r.stats.age == saved.value.stats.age
    ensures (saved.Some? ==> Fits(saved.value)) ==> Fits(r)
    ensures (saved.Some? ==> saved.value.lastUpdate <= now && Bounded(saved.value)) ==> Bounded(r)
  {
    match saved
    case None => DefaultState(now)
    case Some(p) => if p.stage == DEAD then p else CatchUp(p, now)
  }

  /** Catching up is independent of how the elapsed time is split: a save
      caught up to `t1` and then to `t2` equals the save caught up to `t2`. */
  lemma CatchUpAdditive(p: GameState, t1: int, t2: int)
    requires p.lastUpdate <= t1 <= t2
    ensures CatchUp(CatchUp(p, t1), t2) == CatchUp(p, t2)
  {
  }

  /** A save of an awake pet written two hours ago loses 24 hunger, 16
      happiness, 8 hygiene and 12 energy, each floored at 0. */
  lemma LoadTwoHoursScenario(p: GameState, now: int)
    requires p.stage != DEAD && !p.isSleeping && p.lastUpdate == now - 2 * MS_PER_HOUR
    ensures var r := Load(Some(p), now);
      r.stats.hunger == Max(0.0, p.stats.hunger - 24.0)
      && r.stats.happiness == Max(0.0, p.stats.happiness - 16.0)
      && r.stats.hygiene == Max(0.0, p.stats.hygiene - 8.0)
      && r.stats.energy == Max(0.0, p.stats.energy - 12.0)
  {
  }

  /** A save whose timestamp lies in the future (the clock was set back)
      makes the catch-up raise hunger and an awake pet's energy beyond 100,
      and push a sleeping pet's energy below 0: the bounds on loaded stats
      are guaranteed only for a save not newer than `now`. */
  lemma LoadFutureSaveOverfills()
    ensures var p := DefaultState(2 * MS_PER_HOUR).(stats := INITIAL_STATS.(hunger := 100.0));
      Load(Some(p), 0).stats.hunger == 124.0 && Load(Some(p), 0).stats.energy == 112.0
    ensures var p := DefaultState(2 * MS_PER_HOUR).(stats := INITIAL_STATS.(energy := 10.0), isSleeping := true);
      Load(Some(p), 0).stats.energy == -30.0
  {
  }

  // ---------------------------------------------------------------- tick

  /** The stage a living pet is promoted to once its age is `age`. */
  function NextStage(prev: GrowthStage, age: real): (g: GrowthStage)
    requires prev != DEAD
    ensures g != DEAD
    ensures age >= STAGE_THRESHOLDS.adult ==> g == ADULT
    ensures STAGE_THRESHOLDS.child <= age < STAGE_THRESHOLDS.adult ==> g == CHILD
    ensures STAGE_THRESHOLDS.baby <= age < STAGE_THRESHOLDS.child ==> g == (if prev == EGG then BABY else prev)
    ensures age < STAGE_THRESHOLDS.baby ==> g == prev
    ensures g == BABY ==> prev == EGG || prev == BABY
  {
    if age >= STAGE_THRESHOLDS.adult then ADULT
    else if age >= STAGE_THRESHOLDS.child then CHILD
    else if age >= STAGE_THRESHOLDS.baby && prev == EGG then BABY
    else prev
  }

  /** The needs a pet is about to die of. */
  predicate Critical(st: PetStats)
  {
    st.hunger <= CRITICAL_LEVEL || st.health <= CRITICAL_LEVEL
  }

  /** The stats after one period of the game clock: an awake pet gets
      hungrier, sadder and more tired, a sleeping one only regains energy,
      and the pet ages by one step either way. */
  function TickStats(st: PetStats, sleeping: bool): (r: PetStats)
    ensures r == st.(hunger := r.hunger, happiness := r.happiness, energy := r.energy, age := r.age)
    ensures r.age == st.age + TICK_AGE_STEP
    ensures !sleeping ==>
      FallsFloored(st.hunger, r.hunger, TICK_HUNGER_DECAY)
      && FallsFloored(st.happiness, r.happiness, TICK_HAPPINESS_DECAY)
      && FallsFloored(st.energy, r.energy, TICK_ENERGY_DECAY)
    ensures sleeping ==>
      r.hunger == st.hunger && r.happiness == st.happiness
      && RisesCapped(st.energy, r.energy, TICK_ENERGY_RESTORE)
    ensures InRange(st.hunger) && InRange(st.happiness) && InRange(st.energy) ==>
      InRange(r.hunger) && InRange(r.happiness) && InRange(r.energy)
  {
    var decayed :=
      if !sleeping then
        st.(hunger := Max(0.0, st.hunger - TICK_HUNGER_DECAY),
            happiness := Max(0.0, st.happiness - TICK_HAPPINESS_DECAY),
            energy := Max(0.0, st.energy - TICK_ENERGY_DECAY))
      else
        st.(energy := Min(STAT_MAX, st.energy + TICK_ENERGY_RESTORE));
    decayed.(age := decayed.age + TICK_AGE_STEP)
  }

  /** One period of the game clock, at time `now`, with random draw `draw`
      in [0, 1). A dead pet is left exactly as it is; a living one has its
      stats ticked, is promoted by age, may die when a need is critical, and
      is stamped with `now`. */
  function Tick(s: GameState, now: int, draw: real): (r: GameState)
    ensures s.stage == DEAD ==> r == s
    ensures s.stage != DEAD ==>
      r == s.(stats := TickStats(s.stats, s.isSleeping), stage := r.stage, lastUpdate := now)
    ensures r.stage == DEAD <==> s.stage == DEAD || (Critical(r.stats) && draw > DEATH_DRAW)
    ensures s.stage != DEAD && r.stage != DEAD ==> r.stage == NextStage(s.stage, r.stats.age)
    ensures Bounded(s) ==> Bounded(r)
  {
    if s.stage == DEAD then s
    else
      var st := TickStats(s.stats, s.isSleeping);
      var stage := if Critical(st) && draw > DEATH_DRAW then DEAD else NextStage(s.stage, st.age);
      s.(stats := st, stage := stage, lastUpdate := now)
  }

  /** With its stage fitting its age, a pet only moves forward: the tick keeps
      the fit, never lowers the stage, and promotes by at most one stage
      unless the pet dies. */
  lemma TickMovesForward(s: GameState, now: int, draw: real)
    ensures var r := Tick(s, now, draw);
      Fits(s) ==>
        Fits(r) && Rank(s.stage) <= Rank(r.stage)
        && (r.stage == DEAD || Rank(r.stage) <= Rank(s.stage) + 1)
  {
  }

  /** Without the fit, the one way a tick can demote is an adult whose new
      age is in [0.5, 2.0) and that is not killed: it becomes a child again.
      An adult whose new age is below 0.5 stays an adult. */
  lemma TickDemotesOnlyYoungAdults(s: GameState, now: int, draw: real)
    ensures var r := Tick(s, now, draw);
      Rank(r.stage) < Rank(s.stage) <==>
        s.stage == ADULT && r.stage == CHILD
        && STAGE_THRESHOLDS.child <= s.stats.age + TICK_AGE_STEP < STAGE_THRESHOLDS.adult
  {
  }

  // ------------------------------------------------------------- actions

  /** A menu action taken on state `s` at time `now`; `confirmed` is the
      player's answer to the reset dialog, asked only for STATS on a dead pet. */
  function Dispatch(s: GameState, a: ActionType, confirmed: bool, now: int): (r: GameState)
    ensures s.stage == DEAD ==> r == (if a == STATS && confirmed then DefaultState(now) else s)
    ensures s.stage != DEAD && a == FOOD ==>
      if s.isSleeping then r == s
      else RisesCapped(s.stats.hunger, r.stats.hunger, FOOD_HUNGER_GAIN)
           && r == s.(stats := s.stats.(hunger := r.stats.hunger))
    ensures s.stage != DEAD && a == PLAY ==>
      if s.isSleeping then r == s
      else RisesCapped(s.stats.happiness, r.stats.happiness, PLAY_HAPPINESS_GAIN)
           && FallsFloored(s.stats.energy, r.stats.energy, PLAY_ENERGY_COST)
           && r == s.(stats := s.stats.(happiness := r.stats.happiness, energy := r.stats.energy))
    ensures s.stage != DEAD && a == LIGHT ==> r == s.(isSleeping := !s.isSleeping)
    ensures s.stage != DEAD && a == CLEAN ==> r == s.(poopCount := 0, stats := s.stats.(hygiene := STAT_MAX))
    ensures s.stage != DEAD && a == HEAL ==> r == s.(isSick := false, stats := s.stats.(health := STAT_MAX))
    ensures s.stage != DEAD && a == STATS ==> r == s
    ensures Bounded(s) ==> Bounded(r)
    ensures Fits(s) ==> Fits(r)
  {
    if s.stage == DEAD then
      if a == STATS && confirmed then DefaultState(now) else s
    else
      match a
      case FOOD =>
        if s.isSleeping then s
        else s.(stats := s.stats.(hunger := Min(STAT_MAX, s.stats.hunger + FOOD_HUNGER_GAIN)))
      case LIGHT => s.(isSleeping := !s.isSleeping)
      case PLAY =>
        if s.isSleeping then s
        else s.(stats := s.stats.(happiness := Min(STAT_MAX, s.stats.happiness + PLAY_HAPPINESS_GAIN),
                                  energy := Max(0.0, s.stats.energy - PLAY_ENERGY_COST)))
      case CLEAN => s.(poopCount := 0, stats := s.stats.(hygiene := STAT_MAX))
      case HEAL => s.(isSick := false, stats := s.stats.(health := STAT_MAX))
      case STATS => s
  }

  /** The action handler as the dock calls it, with the action's string id;
      an id that names no action changes nothing. */
  function HandleAction(s: GameState, id: string, confirmed: bool, now: int): (r: GameState)
    ensures ParseAction(id).None? ==> r == s
    ensures s.stage == DEAD ==> r == (if id == ActionId(STATS) && confirmed then DefaultState(now) else s)
    ensures forall a: ActionType :: id == ActionId(a) ==> r == Dispatch(s, a, confirmed, now)
  {
    match ParseAction(id)
    case None => s
    case Some(a) => Dispatch(s, a, confirmed, now)
  }

  /** Switching the light twice returns to the same state, dead or alive. */
  lemma LightTwiceIsIdentity(s: GameState, c1: bool, c2: bool, n1: int, n2: int)
    ensures Dispatch(Dispatch(s, LIGHT, c1, n1), LIGHT, c2, n2) == s
  {
  }

  /** Cleaning and healing are idempotent. */
  lemma CleanHealIdempotent(s: GameState, c1: bool, c2: bool, n1: int, n2: int)
    ensures Dispatch(Dispatch(s, CLEAN, c1, n1), CLEAN, c2, n2) == Dispatch(s, CLEAN, c1, n1)
    ensures Dispatch(Dispatch(s, HEAL, c1, n1), HEAL, c2, n2) == Dispatch(s, HEAL, c1, n1)
  {
  }

  /** Feeding a pet at 90 hunger fills it to 100, not 115. */
  lemma FeedScenario(s: GameState, now: int)
    requires s.stage != DEAD && !s.isSleeping && s.stats.hunger == 90.0
    ensures Dispatch(s, FOOD, false, now).stats.hunger == 100.0
  {
  }

  // ------------------------------------------------------------- petting

  /** The game state together with the time of the last accepted pet. */
  datatype Session = Session(game: GameState, lastInteractionTime: int)

  /** A pet is accepted from a living, awake pet more than 600 ms after the
      last accepted one. */
  predicate PetAccepted(w: Session, now: int)
  {
    w.game.stage != DEAD && !w.game.isSleeping && now - w.lastInteractionTime > PET_COOLDOWN_MS
  }

  /** Petting the pet at time `now`. */
  function Pet(w: Session, now: int): (r: Session)
    ensures PetAccepted(w, now) ==>
      r.lastInteractionTime == now
      && RisesCapped(w.game.stats.happiness, r.game.stats.happiness, PET_HAPPINESS_GAIN)
      && r.game == w.game.(stats := w.game.stats.(happiness := r.game.stats.happiness))
    ensures !PetAccepted(w, now) ==> r == w
    ensures Bounded(w.game) ==> Bounded(r.game)
    ensures Fits(w.game) ==> Fits(r.game)
  {
    if PetAccepted(w, now) then
      var st := w.game.stats;
      Session(w.game.(stats := st.(happiness := Min(STAT_MAX, st.happiness + PET_HAPPINESS_GAIN))), now)
    else w
  }

  /** A second pet within 600 ms of an accepted one has no effect. */
  lemma PetCooldown(w: Session, t1: int, t2: int)
    requires PetAccepted(w, t1) && t2 <= t1 + PET_COOLDOWN_MS
    ensures Pet(Pet(w, t1), t2) == Pet(w, t1)
  {
  }
}
