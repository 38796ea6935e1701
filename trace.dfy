/** The game as the page drives it: a sequence of timer ticks, menu actions
    and pets applied one after another to the session (App.tsx, the
    interval callback and the event handlers). */
module Trace {
  import opened Wrappers
  import opened Types
  import opened Game

  /** One input to the running game, each with the wall-clock time it happens at. */
  datatype Event =
    | TimerFired(now: int, draw: real)
    | ActionChosen(id: string, confirmed: bool, now: int)
    | PetPressed(now: int)

  /** The one input that leaves the DEAD state: a confirmed STATS action. */
  predicate IsResetRequest(e: Event)
  {
    e.ActionChosen? && e.id == ActionId(STATS) && e.confirmed
  }

  predicate NoResets(es: seq<Event>)
  {
    forall i :: 0 <= i < |es| ==> !IsResetRequest(es[i])
  }

  /** The session after one input. Only petting touches the last interaction time. */
  function Step(w: Session, e: Event): (r: Session)
    ensures !e.PetPressed? ==> r.lastInteractionTime == w.lastInteractionTime
    ensures Bounded(w.game) ==> Bounded(r.game)
    ensures w.game.stage == DEAD && !IsResetRequest(e) ==> r == w
    ensures Fits(w.game) ==> Fits(r.game)
    ensures !IsResetRequest(e) ==> Rank(w.game.stage) <= Rank(r.game.stage) || !Fits(w.game)
  {
    match e
    case TimerFired(now, draw) =>
      TickMovesForward(w.game, now, draw);
      Session(Tick(w.game, now, draw), w.lastInteractionTime)
    case ActionChosen(id, confirmed, now) => Session(HandleAction(w.game, id, confirmed, now), w.lastInteractionTime)
    case PetPressed(now) => Pet(w, now)
  }

  /** The session after all the inputs, in order. */
  function Run(w: Session, es: seq<Event>): Session
    decreases |es|
  {
    if es == [] then w else Run(Step(w, es[0]), es[1..])
  }

  /** Every need stays in [0, 100] whatever the inputs. */
  lemma {:induction false} RunKeepsBounds(w: Session, es: seq<Event>)
    requires Bounded(w.game)
    ensures Bounded(Run(w, es).game)
    decreases |es|
  {
    if es != [] {
      RunKeepsBounds(Step(w, es[0]), es[1..]);
    }
  }

  /** A dead pet stays exactly as it is until the player confirms a reset. */
  lemma {:induction false} RunFrozenWhileDead(w: Session, es: seq<Event>)
    requires w.game.stage == DEAD && NoResets(es)
    ensures Run(w, es) == w
    decreases |es|
  {
    if es != [] {
      assert !IsResetRequest(es[0]);
      assert NoResets(es[1..]) by {
        forall i | 0 <= i < |es[1..]| ensures !IsResetRequest(es[1..][i]) {
          assert es[1..][i] == es[i + 1];
        }
      }
      RunFrozenWhileDead(Step(w, es[0]), es[1..]);
    }
  }

  /** Without a reset, a pet whose stage fits its age keeps that fit and never
      moves to an earlier stage. */
  lemma {:induction false} RunMovesForward(w: Session, es: seq<Event>)
    requires Fits(w.game) && NoResets(es)
    ensures Fits(Run(w, es).game)
    ensures Rank(w.game.stage) <= Rank(Run(w, es).game.stage)
    decreases |es|
  {
    if es != [] {
      assert !IsResetRequest(es[0]);
      assert NoResets(es[1..]) by {
        forall i | 0 <= i < |es[1..]| ensures !IsResetRequest(es[1..][i]) {
          assert es[1..][i] == es[i + 1];
        }
      }
      RunMovesForward(Step(w, es[0]), es[1..]);
    }
  }

  /** Without a reset the pet never gets younger, whether or not its stage
      fits its age (a loaded save may not). */
  lemma {:induction false} RunNeverYounger(w: Session, es: seq<Event>)
    requires NoResets(es)
    ensures w.game.stats.age <= Run(w, es).game.stats.age
    decreases |es|
  {
    if es != [] {
      var w' := Step(w, es[0]);
      assert !IsResetRequest(es[0]);
      assert w.game.stats.age <= w'.game.stats.age by {
        match es[0]
        case TimerFired(now, draw) =>
        case ActionChosen(id, confirmed, now) =>
        case PetPressed(now) =>
      }
      assert NoResets(es[1..]) by {
        forall i | 0 <= i < |es[1..]| ensures !IsResetRequest(es[1..][i]) {
          assert es[1..][i] == es[i + 1];
        }
      }
      RunNeverYounger(w', es[1..]);
    }
  }

  /** A dead pet ignores ticks and food; a confirmed reset gives the default
      state, and two meals then fill hunger from 50 to 75 and to 100, not 125. */
  lemma ResetThenFeedScenario(saved: GameState, now: int)
    requires saved.stage == DEAD
    ensures var w := Session(Load(Some(saved), now), 0);
      var dead := [TimerFired(now + 5000, 0.999), ActionChosen("FOOD", false, now + 6000)];
      var reset := [ActionChosen("STATS", true, now + 7000)];
      var meal1 := [ActionChosen("FOOD", false, now + 8000)];
      var meal2 := [ActionChosen("FOOD", false, now + 9000)];
      Run(w, dead) == w
      && Run(w, dead + reset).game == DefaultState(now + 7000)
      && Run(w, dead + reset + meal1).game.stats.hunger == 75.0
      && Run(w, dead + reset + meal1 + meal2).game.stats.hunger == 100.0
  {
    var w := Session(Load(Some(saved), now), 0);
    var e0, e1 := TimerFired(now + 5000, 0.999), ActionChosen("FOOD", false, now + 6000);
    var e2, e3, e4 := ActionChosen("STATS", true, now + 7000), ActionChosen("FOOD", false, now + 8000), ActionChosen("FOOD", false, now + 9000);
    RunFrozenWhileDead(w, [e0, e1]);
    RunAppend(w, [e0, e1], [e2]);
    RunAppend(w, [e0, e1, e2], [e3]);
    RunAppend(w, [e0, e1, e2, e3], [e4]);
    assert [e0, e1] + [e2] == [e0, e1, e2];
    assert [e0, e1, e2] + [e3] == [e0, e1, e2, e3];
    assert [e0, e1, e2, e3] + [e4] == [e0, e1, e2, e3, e4];
  }

  /** Running two sequences one after the other is running their concatenation. */
  lemma {:induction false} RunAppend(w: Session, es: seq<Event>, fs: seq<Event>)
    ensures Run(w, es + fs) == Run(Run(w, es), fs)
    decreases |es|
  {
    if es != [] {
      assert (es + fs)[1..] == es[1..] + fs;
      RunAppend(Step(w, es[0]), es[1..], fs);
    } else {
      assert es + fs == fs;
    }
  }

  /** Nothing in the game makes the pet sick or dirty: sickness only goes
      away, and the dropping count is either untouched or cleared. */
  lemma {:induction false} RunNeverSickensOrSoils(w: Session, es: seq<Event>)
    ensures Run(w, es).game.isSick ==> w.game.isSick
    ensures Run(w, es).game.poopCount == w.game.poopCount || Run(w, es).game.poopCount == 0
    decreases |es|
  {
    if es != [] {
      RunNeverSickensOrSoils(Step(w, es[0]), es[1..]);
    }
  }
}
