/** The running page (App.tsx): the component's game state and the time of
    the last accepted pet, replaced by the interval callback and the input
    handlers through the pure reducers of module Game. */
module AppDriver {
  import opened Wrappers
  import opened Types
  import opened Game
  import opened Trace

  class App {
    var gameState: GameState
    var lastInteractionTime: int

    /** The session the fields hold. */
    function View(): Session
      reads this
    {
      Session(gameState, lastInteractionTime)
    }

    /** Mounting the page: the state is loaded from the parsed save (if any)
        at time `now`, and no pet has been accepted yet. */
    constructor (saved: Option<GameState>, now: int)
      ensures gameState == Load(saved, now) && lastInteractionTime == 0
      ensures (saved.Some? ==> saved.value.lastUpdate <= now && Bounded(saved.value)) ==> Bounded(gameState)
      ensures (saved.Some? ==> Fits(saved.value)) ==> Fits(gameState)
    {
      gameState := Load(saved, now);
      lastInteractionTime := 0;
    }

    /** The interval callback firing at `now` with random draw `draw`. */
    method Tick(now: int, draw: real)
      modifies this
      ensures gameState == Game.Tick(old(gameState), now, draw)
      ensures lastInteractionTime == old(lastInteractionTime)
      ensures View() == Step(old(View()), TimerFired(now, draw))
      ensures old(Bounded(gameState)) ==> Bounded(gameState)
      ensures old(Fits(gameState)) ==> Fits(gameState) && Rank(old(gameState.stage)) <= Rank(gameState.stage)
    {
      TickMovesForward(gameState, now, draw);
      gameState := Game.Tick(gameState, now, draw);
    }

    /** A menu action with id `id` at `now`; `confirmed` answers the reset dialog. */
    method HandleAction(id: string, confirmed: bool, now: int)
      modifies this
      ensures gameState == Game.HandleAction(old(gameState), id, confirmed, now)
      ensures lastInteractionTime == old(lastInteractionTime)
      ensures View() == Step(old(View()), ActionChosen(id, confirmed, now))
      ensures old(Bounded(gameState)) ==> Bounded(gameState)
      ensures old(gameState.stage) == DEAD && !(id == ActionId(STATS) && confirmed) ==> gameState == old(gameState)
    {
      gameState := Game.HandleAction(gameState, id, confirmed, now);
    }

    /** A press on the pet at `now`; accepted ones restamp the cooldown. */
    method HandlePetting(now: int)
      modifies this
      ensures View() == Pet(old(View()), now)
      ensures View() == Step(old(View()), PetPressed(now))
      ensures old(Bounded(gameState)) ==> Bounded(gameState)
      ensures !PetAccepted(old(View()), now) ==> gameState == old(gameState) && lastInteractionTime == old(lastInteractionTime)
    {
      if gameState.stage == DEAD || gameState.isSleeping {
        return;
      }
      if now - lastInteractionTime > PET_COOLDOWN_MS {
        gameState := gameState.(stats := gameState.stats.(happiness := Min(STAT_MAX, gameState.stats.happiness + PET_HAPPINESS_GAIN)));
        lastInteractionTime := now;
      }
    }
  }
}
