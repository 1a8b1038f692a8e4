/** The running game of scripts.js: the module-level variables (`hasFlippedCard`,
    `lockBoard`, `firstCard`, `secondCard`, `timerInterval`, `startTime`,
    `secondsElapsed`, `turnsCount`, `matchedPairs`) and the per-card state the
    page keeps in the DOM, as the fields of one object whose methods are the
    functions of the script. Each method is proved to move the fields exactly
    as the matching `Engine` function moves a `State`, so every property
    proved in `Engine` holds of the object. */
module GameState {
  import opened Deck
  import opened Shuffle
  import Engine

  class Game {
    /** The dealt cards, in board order; a card is named by its position. */
    const deck: seq<Card>
    /** Per card: it carries the `flip` class. */
    var flipped: seq<bool>
    /** Per card: its click listener is attached. */
    var clickable: seq<bool>
    var hasFlippedCard: bool
    var lockBoard: bool
    var firstCard: Engine.Option<nat>
    var secondCard: Engine.Option<nat>
    /** The `setTimeout` of `unflipCards` has been set and not yet fired. */
    var unflipScheduled: bool
    /** `timerInterval` is set. */
    var timerRunning: bool
    var startTime: Engine.Option<Engine.Millis>
    var secondsElapsed: int
    var turnsCount: nat
    var matchedPairs: nat

    /** The fields, as one value. */
    function Snapshot(): Engine.State
      reads this
    {
      Engine.State(flipped, clickable, hasFlippedCard, lockBoard, firstCard, secondCard,
                   unflipScheduled, timerRunning, startTime, secondsElapsed, turnsCount, matchedPairs)
    }

    ghost predicate Valid()
      reads this
    {
      Engine.Playable(deck, Snapshot())
    }

    /** `init()`: `renderBoard()` clears the timer and counters and deals a
        new deck, face down; `attachListeners()` makes every card clickable. */
    constructor (pickDraws: seq<nat>, imageDraws: seq<nat>, textDraws: seq<nat>)
      requires ValidDraws(pickDraws, |ICONS|)
      requires ValidDraws(imageDraws, PAIRS) && ValidDraws(textDraws, PAIRS)
      ensures deck == BuildDeck(pickDraws, imageDraws, textDraws)
      ensures Snapshot() == Engine.Initial(TOTAL_CARDS)
      ensures Valid()
    {
      deck := BuildDeck(pickDraws, imageDraws, textDraws);
      flipped := seq(TOTAL_CARDS, _ => false);
      clickable := seq(TOTAL_CARDS, _ => true);
      hasFlippedCard, lockBoard := false, false;
      firstCard, secondCard := Engine.None, Engine.None;
      unflipScheduled := false;
      timerRunning, startTime := false, Engine.None;
      secondsElapsed, turnsCount, matchedPairs := 0, 0, 0;
      new;
      ResetTimerAndCounters();
      Engine.InitialInv(deck);
    }

    /** `flipCard` run for a click on card `k` at time `now`. A card without
        its listener does not call `flipCard` at all. */
    method FlipCard(k: nat, now: Engine.Millis)
      requires Valid() && k < |deck|
      modifies this
      ensures Snapshot() == Engine.Flip(deck, old(Snapshot()), k, now)
      ensures Valid()
    {
      ghost var s0 := Snapshot();
      if clickable[k] && !lockBoard && firstCard != Engine.Some(k) {
        if !timerRunning && startTime.None? {
          StartTimer(now);
        }
        ghost var timed := Snapshot();
        assert timed == if !s0.timerRunning && s0.startTime.None? then Engine.StartTimer(s0, now) else s0;
        flipped := flipped[k := true];
        ghost var turned := Snapshot();
        assert turned == timed.(flipped := timed.flipped[k := true]);
        if !hasFlippedCard {
          hasFlippedCard := true;
          firstCard := Engine.Some(k);
        } else {
          secondCard := Engine.Some(k);
          turnsCount := turnsCount + 1;
          assert Snapshot() == turned.(secondCard := Engine.Some(k), turnsCount := turned.turnsCount + 1);
          CheckForMatch(now);
        }
      }
      Engine.FlipKeepsPlayable(deck, s0, k, now, Snapshot());
    }

    method CheckForMatch(now: Engine.Millis)
      requires firstCard.Some? && secondCard.Some?
      requires firstCard.value < |deck| && secondCard.value < |deck| && |clickable| == |deck|
      modifies this
      ensures Snapshot() == Engine.CheckForMatch(deck, old(Snapshot()), now)
    {
      if deck[firstCard.value].name == deck[secondCard.value].name {
        DisableCards(now);
      } else {
        UnflipCards();
      }
    }

    method DisableCards(now: Engine.Millis)
      requires firstCard.Some? && secondCard.Some?
      requires firstCard.value < |clickable| && secondCard.value < |clickable|
      modifies this
      ensures Snapshot() == Engine.DisableCards(old(Snapshot()), now)
    {
      clickable := clickable[firstCard.value := false][secondCard.value := false];
      matchedPairs := matchedPairs + 1;
      ResetBoard();
      if matchedPairs >= PAIRS {
        StopTimer(now);
      }
    }

    method UnflipCards()
      modifies this
      ensures Snapshot() == Engine.UnflipCards(old(Snapshot()))
    {
      lockBoard := true;
      unflipScheduled := true;
    }

    /** The callback scheduled by `unflipCards`, firing. */
    method Settle()
      requires Valid()
      modifies this
      ensures Snapshot() == Engine.Settle(deck, old(Snapshot()))
      ensures Valid()
    {
      ghost var s0 := Snapshot();
      if unflipScheduled {
        flipped := flipped[firstCard.value := false][secondCard.value := false];
        unflipScheduled := false;
        ResetBoard();
      }
      Engine.SettleKeepsPlayable(deck, s0, Snapshot());
    }

    method ResetBoard()
      modifies this
      ensures Snapshot() == Engine.ResetBoard(old(Snapshot()))
    {
      hasFlippedCard, lockBoard := false, false;
      firstCard, secondCard := Engine.None, Engine.None;
    }

    method StartTimer(now: Engine.Millis)
      modifies this
      ensures Snapshot() == Engine.StartTimer(old(Snapshot()), now)
    {
      if timerRunning {
        return;
      }
      startTime := Engine.Some(now);
      timerRunning := true;
    }

    method StopTimer(now: Engine.Millis)
      modifies this
      ensures Snapshot() == Engine.StopTimer(old(Snapshot()), now)
    {
      if !timerRunning {
        return;
      }
      timerRunning := false;
      secondsElapsed := Engine.ElapsedSeconds(startTime, now);
    }

    /** The interval callback started by `startTimer`. */
    method Tick(now: Engine.Millis)
      modifies this
      ensures Snapshot() == Engine.Tick(old(Snapshot()), now)
    {
      if timerRunning {
        secondsElapsed := Engine.ElapsedSeconds(startTime, now);
      }
    }

    method ResetTimerAndCounters()
      modifies this
      ensures Snapshot() == Engine.ResetTimerAndCounters(old(Snapshot()))
    {
      timerRunning := false;
      startTime := Engine.None;
      secondsElapsed := 0;
      turnsCount := 0;
      matchedPairs := 0;
    }
  }
}
