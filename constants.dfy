/** The tuning constants of the game (constants.tsx). */
module Constants {
  import opened Types

  /** The stats a fresh pet starts with. */
  const INITIAL_STATS: PetStats := PetStats(
    hunger := 50.0,
    happiness := 50.0,
    hygiene := 100.0,
    energy := 100.0,
    health := 100.0,
    age := 0.0,
    level := 1.0,
    careScore := 0.0)

  /** One entry of the action dock: its id, icon and caption (`label` in constants.tsx). */
  datatype MenuAction = MenuAction(id: string, icon: string, caption: string)

  const MENU_ACTIONS: seq<MenuAction> := [
    MenuAction("FOOD", "\U{1F35A}", "COMER"),
    MenuAction("LIGHT", "\U{1F4A1}", "LUZ"),
    MenuAction("PLAY", "\U{26BD}", "BRINCAR"),
    MenuAction("CLEAN", "\U{1F9FC}", "LIMPAR"),
    MenuAction("HEAL", "\U{1F489}", "CURAR"),
    MenuAction("STATS", "\U{1F4CB}", "STATUS")
  ]

  /** The ages (in game years) at which the pet is promoted. */
  datatype StageThresholds = StageThresholds(baby: real, child: real, adult: real)

  const STAGE_THRESHOLDS: StageThresholds := StageThresholds(baby := 0.01, child := 0.5, adult := 2.0)

  /** Every bounded initial stat lies in [0, 100]. */
  lemma InitialStatsInRange()
    ensures 0.0 <= INITIAL_STATS.hunger <= 100.0
    ensures 0.0 <= INITIAL_STATS.happiness <= 100.0
    ensures 0.0 <= INITIAL_STATS.hygiene <= 100.0
    ensures 0.0 <= INITIAL_STATS.energy <= 100.0
    ensures 0.0 <= INITIAL_STATS.health <= 100.0
  {
  }

  /** A fresh pet's age is below the hatching threshold, so it starts as an egg. */
  lemma InitialAgeBeforeHatching()
    ensures INITIAL_STATS.age == 0.0 < STAGE_THRESHOLDS.baby
  {
  }

  /** The promotion thresholds are strictly increasing. */
  lemma ThresholdsIncreasing()
    ensures 0.0 < STAGE_THRESHOLDS.baby < STAGE_THRESHOLDS.child < STAGE_THRESHOLDS.adult
  {
  }

  /** The dock lists each action exactly once: its ids are pairwise distinct
      and are exactly the ids of the six action types. */
  lemma MenuActionsAreActionTypes()
    ensures |MENU_ACTIONS| == 6
    ensures forall i, j :: 0 <= i < j < |MENU_ACTIONS| ==> MENU_ACTIONS[i].id != MENU_ACTIONS[j].id
    ensures forall i :: 0 <= i < |MENU_ACTIONS| ==> ParseAction(MENU_ACTIONS[i].id).Some?
    ensures forall a: ActionType :: ActionId(a) in (set m | m in MENU_ACTIONS :: m.id)
  {
    forall a: ActionType
      ensures ActionId(a) in (set m | m in MENU_ACTIONS :: m.id)
    {
      match a
      case FOOD => assert MENU_ACTIONS[0].id == ActionId(a);
      case LIGHT => assert MENU_ACTIONS[1].id == ActionId(a);
      case PLAY => assert MENU_ACTIONS[2].id == ActionId(a);
      case CLEAN => assert MENU_ACTIONS[3].id == ActionId(a);
      case HEAL => assert MENU_ACTIONS[4].id == ActionId(a);
      case STATS => assert MENU_ACTIONS[5].id == ActionId(a);
    }
  }
}
