/** The records of the virtual pet's game state (types.ts). */
module Types {
  import opened Wrappers

  /** The life stages of the pet, in the order it passes through them. */
  datatype GrowthStage = EGG | BABY | CHILD | ADULT | DEAD

  /** The pet's needs and counters. The game's numbers are modelled as
      exact reals (no floating-point rounding). */
  datatype PetStats = PetStats(
    hunger: real,
    happiness: real,
    hygiene: real,
    energy: real,
    health: real,
    age: real,
    level: real,
    careScore: real)

  /** The menu actions the player can trigger. */
  datatype ActionType = FOOD | LIGHT | PLAY | CLEAN | HEAL | STATS

  /** The whole game state; `lastUpdate` is a wall-clock time in milliseconds. */
  datatype GameState = GameState(
    stats: PetStats,
    name: string,
    stage: GrowthStage,
    isSleeping: bool,
    isSick: bool,
    poopCount: int,
    lastUpdate: int,
    selectedActionIndex: int)

  /** Position of a stage in the life cycle; `DEAD` comes last. */
  function Rank(g: GrowthStage): nat
  {
    match g
    case EGG => 0
    case BABY => 1
    case CHILD => 2
    case ADULT => 3
    case DEAD => 4
  }

  /** `Rank` is a strict order of the stages: no two stages share a
      position, and `DEAD` is the one stage at the top, above every other. */
  lemma RankStrictOrder(a: GrowthStage, b: GrowthStage)
    ensures Rank(a) == Rank(b) <==> a == b
    ensures Rank(a) <= Rank(DEAD)
    ensures Rank(a) == Rank(DEAD) <==> a == DEAD
  {
  }

  /** The string by which App.tsx names an action. */
  function ActionId(a: ActionType): string
  {
    match a
    case FOOD => "FOOD"
    case LIGHT => "LIGHT"
    case PLAY => "PLAY"
    case CLEAN => "CLEAN"
    case HEAL => "HEAL"
    case STATS => "STATS"
  }

  /** The action a string id names, if any; handleAction in App.tsx switches on the id
      string and ignores ids it does not know. */
  function ParseAction(id: string): (r: Option<ActionType>)
    ensures r.Some? ==> ActionId(r.value) == id
    ensures r.None? <==> forall a: ActionType :: ActionId(a) != id
  {
    if id == "FOOD" then Some(FOOD)
    else if id == "LIGHT" then Some(LIGHT)
    else if id == "PLAY" then Some(PLAY)
    else if id == "CLEAN" then Some(CLEAN)
    else if id == "HEAL" then Some(HEAL)
    else if id == "STATS" then Some(STATS)
    else None
  }

  /** Every action's id parses back to that action, so ids are pairwise distinct. */
  lemma ParseActionId(a: ActionType)
    ensures ParseAction(ActionId(a)) == Some(a)
    ensures forall b: ActionType :: ActionId(b) == ActionId(a) ==> b == a
  {
  }
}
