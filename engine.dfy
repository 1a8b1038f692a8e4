/** The flip/turn state machine and the timer and counters of scripts.js, as
    functions from one state of the module-level variables to the next. The
    class `GameState.Game` holds the same variables as fields and is proved to
    follow these functions step by step. Card identity is the card's position
    in the deck; `Date.now()` is a parameter. */
module Engine {
  import opened Deck

  /** A `Date.now()` reading in milliseconds since the epoch: always positive,
      so a recorded start time is never the falsy 0. */
  type Millis = t: int | t > 0 witness 1

  datatype Option<T> = None | Some(value: T)

  /** The module-level variables of scripts.js once the board is dealt. Per
      card: `flipped[i]` is the card's `flip` class (face up), `clickable[i]`
      says that its click listener is still attached. `unflipScheduled` is the
      pending 1500 ms `setTimeout` of `unflipCards`; `timerRunning` is
      `timerInterval != null`. */
  datatype State = State(
    flipped: seq<bool>,
    clickable: seq<bool>,
    hasFlippedCard: bool,
    lockBoard: bool,
    firstCard: Option<nat>,
    secondCard: Option<nat>,
    unflipScheduled: bool,
    timerRunning: bool,
    startTime: Option<Millis>,
    secondsElapsed: int,
    turnsCount: nat,
    matchedPairs: nat)

  /** The state right after `init()` for a deck of `n` cards: every card face
      down with its listener attached, nothing pending, timer and counters
      cleared. */
  function Initial(n: nat): (s: State)
    ensures |s.flipped| == |s.clickable| == n
    ensures forall i :: 0 <= i < n ==> !s.flipped[i] && s.clickable[i]
  {
    State(seq(n, _ => false), seq(n, _ => true), false, false, None, None, false,
          false, None, 0, 0, 0)
  }

  // ---------------------------------------------------------------------
  // Timer and counters

  /** `Math.floor((Date.now() - startTime) / 1000)`; a missing start time
      counts as 0, as `null` does in JavaScript arithmetic. Dafny's `/` rounds
      down for a positive divisor, as `Math.floor` does. */
  function ElapsedSeconds(start: Option<Millis>, now: Millis): int
  {
    match start
    case None => now / 1000
    case Some(t) => (now - t) / 1000
  }

  /** `startTimer()`: does nothing while the interval runs; otherwise records
      the start time and starts the interval. */
  function StartTimer(s: State, now: Millis): State
  {
    if s.timerRunning then s else s.(startTime := Some(now), timerRunning := true)
  }

  /** `stopTimer()`: does nothing unless the interval runs; otherwise stops it
      and takes a final reading of the elapsed seconds. */
  function StopTimer(s: State, now: Millis): State
  {
    if !s.timerRunning then s
    else s.(timerRunning := false, secondsElapsed := ElapsedSeconds(s.startTime, now))
  }

  /** One run of the 250 ms interval callback (display refresh only). */
  function Tick(s: State, now: Millis): State
  {
    if s.timerRunning then s.(secondsElapsed := ElapsedSeconds(s.startTime, now)) else s
  }

  /** `resetTimerAndCounters()`. It leaves the board variables, and an unflip
      already scheduled, as they are. */
  function ResetTimerAndCounters(s: State): State
  {
    s.(timerRunning := false, startTime := None, secondsElapsed := 0, turnsCount := 0, matchedPairs := 0)
  }

  // ---------------------------------------------------------------------
  // Flip and match

  /** `resetBoard()`. */
  function ResetBoard(s: State): State
  {
    s.(hasFlippedCard := false, lockBoard := false, firstCard := None, secondCard := None)
  }

  /** `disableCards()`: both cards lose their listener, one more pair is
      counted, the board is reset, and the timer stops once every pair is
      found. */
  function DisableCards(s: State, now: Millis): State
    requires s.firstCard.Some? && s.secondCard.Some?
    requires s.firstCard.value < |s.clickable| && s.secondCard.value < |s.clickable|
  {
    var retired := s.(clickable := s.clickable[s.firstCard.value := false][s.secondCard.value := false],
                      matchedPairs := s.matchedPairs + 1);
    var s' := ResetBoard(retired);
    if s'.matchedPairs >= PAIRS then StopTimer(s', now) else s'
  }

  /** `unflipCards()`: lock the board and schedule the unflip. */
  function UnflipCards(s: State): State
  {
    s.(lockBoard := true, unflipScheduled := true)
  }

  /** `checkForMatch()`: the two cards match when their names are equal. */
  function CheckForMatch(deck: seq<Card>, s: State, now: Millis): State
    requires s.firstCard.Some? && s.secondCard.Some?
    requires s.firstCard.value < |deck| && s.secondCard.value < |deck| && |s.clickable| == |deck|
  {
    if deck[s.firstCard.value].name == deck[s.secondCard.value].name
    then DisableCards(s, now)
    else UnflipCards(s)
  }

  /** A click on card `k` (`flipCard` bound to that card). A card whose
      listener was removed does not react; `flipCard` itself returns at once
      while the board is locked or when the card is the one already turned. */
  function Flip(deck: seq<Card>, s: State, k: nat, now: Millis): State
    requires Inv(deck, s) && k < |deck|
  {
    if !s.clickable[k] || s.lockBoard || s.firstCard == Some(k) then s
    else
      var timed := if !s.timerRunning && s.startTime.None? then StartTimer(s, now) else s;
      var turned := timed.(flipped := timed.flipped[k := true]);
      if !turned.hasFlippedCard then turned.(hasFlippedCard := true, firstCard := Some(k))
      else CheckForMatch(deck, turned.(secondCard := Some(k), turnsCount := turned.turnsCount + 1), now)
  }

  /** The scheduled unflip of `unflipCards` firing: both cards turn face down
      and the board is reset. With nothing scheduled nothing happens. */
  function Settle(deck: seq<Card>, s: State): State
    requires Inv(deck, s)
  {
    if !s.unflipScheduled then s
    else
      var down := s.flipped[s.firstCard.value := false][s.secondCard.value := false];
      ResetBoard(s.(flipped := down, unflipScheduled := false))
  }

  // ---------------------------------------------------------------------
  // The invariant

  /** Card `i` exists, is face up and still has its listener. */
  predicate FaceUpUnmatched(s: State, i: nat)
  {
    i < |s.flipped| && i < |s.clickable| && s.flipped[i] && s.clickable[i]
  }

  /** What holds between any two events. The face-up cards that are not
      matched are exactly the pending ones; a second pending card exists
      exactly while the board is locked, and then it is a mismatch waiting for
      its scheduled unflip; matched cards stay face up. */
  ghost predicate Inv(deck: seq<Card>, s: State)
  {
    && |s.flipped| == |deck| && |s.clickable| == |deck|
    && (s.hasFlippedCard <==> s.firstCard.Some?)
    && (s.firstCard.Some? ==> FaceUpUnmatched(s, s.firstCard.value))
    && (s.lockBoard <==> s.secondCard.Some?)
    && (s.unflipScheduled <==> s.lockBoard)
    && (s.secondCard.Some? ==>
          && s.firstCard.Some? && s.secondCard != s.firstCard
          && FaceUpUnmatched(s, s.secondCard.value)
          && deck[s.firstCard.value].name != deck[s.secondCard.value].name)
    && (forall i: nat :: FaceUpUnmatched(s, i) ==> Some(i) == s.firstCard || Some(i) == s.secondCard)
    && (forall i :: 0 <= i < |deck| && !s.clickable[i] ==> s.flipped[i])
    && (s.timerRunning ==> s.startTime.Some?)
    && s.matchedPairs <= s.turnsCount
  }

  /** The states a game can be in once the board is dealt. */
  ghost predicate Playable(deck: seq<Card>, s: State)
  {
    Inv(deck, s) && PairsAccounted(s)
  }

  /** Every matched pair has retired exactly two cards. */
  ghost predicate PairsAccounted(s: State)
  {
    2 * s.matchedPairs == Retired(s.clickable)
  }

  /** The number of cards whose listener has been removed. */
  function Retired(clickable: seq<bool>): (n: nat)
    ensures n <= |clickable|
  {
    if clickable == [] then 0
    else Retired(clickable[..|clickable| - 1]) + (if clickable[|clickable| - 1] then 0 else 1)
  }

  /** The number of face-up cards that are not matched. */
  function FaceUpCount(flipped: seq<bool>, clickable: seq<bool>): (n: nat)
    requires |flipped| == |clickable|
    ensures n <= |flipped|
  {
    if flipped == [] then 0
    else
      var last := |flipped| - 1;
      FaceUpCount(flipped[..last], clickable[..last]) + (if flipped[last] && clickable[last] then 1 else 0)
  }

  /** The pending cards, as a set of positions. */
  function PendingCards(s: State): set<nat>
  {
    (if s.firstCard.Some? then {s.firstCard.value} else {}) +
    (if s.secondCard.Some? then {s.secondCard.value} else {})
  }

  lemma InitialInv(deck: seq<Card>)
    ensures Inv(deck, Initial(|deck|)) && PairsAccounted(Initial(|deck|))
  {
    AllClickableNoneRetired(Initial(|deck|).clickable);
  }

  lemma {:induction false} AllClickableNoneRetired(clickable: seq<bool>)
    requires forall i :: 0 <= i < |clickable| ==> clickable[i]
    ensures Retired(clickable) == 0
  {
    if clickable != [] {
      AllClickableNoneRetired(clickable[..|clickable| - 1]);
    }
  }

  // ---------------------------------------------------------------------
  // Every event keeps the invariant

  lemma FlipPreservesInv(deck: seq<Card>, s: State, k: nat, now: Millis)
    requires Inv(deck, s) && k < |deck|
    ensures Inv(deck, Flip(deck, s, k, now))
  {
    if s.clickable[k] && !s.lockBoard && s.firstCard != Some(k) {
      var timed := if !s.timerRunning && s.startTime.None? then StartTimer(s, now) else s;
      TimerPreservesInv(deck, s, now);
      if !s.hasFlippedCard {
        FirstFlipInv(deck, timed, k);
      } else if deck[s.firstCard.value].name == deck[k].name {
        MatchInv(deck, timed, k, now);
      } else {
        MismatchInv(deck, timed, k);
      }
    }
  }

  /** Turning card `k` as the first of a turn. */
  lemma FirstFlipInv(deck: seq<Card>, s: State, k: nat)
    requires Inv(deck, s) && k < |deck| && s.clickable[k] && !s.lockBoard && !s.hasFlippedCard
    ensures Inv(deck, s.(flipped := s.flipped[k := true], hasFlippedCard := true, firstCard := Some(k)))
  {
    var t := s.(flipped := s.flipped[k := true], hasFlippedCard := true, firstCard := Some(k));
    forall i: nat | FaceUpUnmatched(t, i) ensures i == k {
      if i != k {
        assert FaceUpUnmatched(s, i);
      }
    }
  }

  /** Turning card `k` as the second of a turn, and it matches the first. */
  lemma MatchInv(deck: seq<Card>, s: State, k: nat, now: Millis)
    requires Inv(deck, s) && k < |deck| && s.clickable[k] && !s.lockBoard && s.hasFlippedCard
    requires s.firstCard != Some(k) && deck[s.firstCard.value].name == deck[k].name
    ensures Inv(deck, DisableCards(s.(flipped := s.flipped[k := true], secondCard := Some(k), turnsCount := s.turnsCount + 1), now))
  {
    var f := s.firstCard.value;
    var t := s.(flipped := s.flipped[k := true], secondCard := Some(k), turnsCount := s.turnsCount + 1);
    var r := ResetBoard(t.(clickable := t.clickable[f := false][k := false], matchedPairs := t.matchedPairs + 1));
    forall i: nat | FaceUpUnmatched(r, i) ensures FaceUpUnmatched(s, i) && i != f {
    }
    assert Inv(deck, r);
  }

  /** Turning card `k` as the second of a turn, and it does not match. */
  lemma MismatchInv(deck: seq<Card>, s: State, k: nat)
    requires Inv(deck, s) && k < |deck| && s.clickable[k] && !s.lockBoard && s.hasFlippedCard
    requires s.firstCard != Some(k) && deck[s.firstCard.value].name != deck[k].name
    ensures Inv(deck, UnflipCards(s.(flipped := s.flipped[k := true], secondCard := Some(k), turnsCount := s.turnsCount + 1)))
  {
    var t := UnflipCards(s.(flipped := s.flipped[k := true], secondCard := Some(k), turnsCount := s.turnsCount + 1));
    forall i: nat | FaceUpUnmatched(t, i) ensures Some(i) == t.firstCard || i == k {
      if i != k {
        assert FaceUpUnmatched(s, i);
      }
    }
  }

  lemma SettlePreservesInv(deck: seq<Card>, s: State)
    requires Inv(deck, s)
    ensures Inv(deck, Settle(deck, s))
    ensures PairsAccounted(s) ==> PairsAccounted(Settle(deck, s))
  {
  }

  lemma TimerPreservesInv(deck: seq<Card>, s: State, now: Millis)
    requires Inv(deck, s)
    ensures Inv(deck, StartTimer(s, now)) && Inv(deck, StopTimer(s, now))
    ensures Inv(deck, Tick(s, now)) && Inv(deck, ResetTimerAndCounters(s))
    ensures PairsAccounted(s) ==>
      PairsAccounted(StartTimer(s, now)) && PairsAccounted(StopTimer(s, now)) && PairsAccounted(Tick(s, now))
  {
  }

  // ---------------------------------------------------------------------
  // What a click does

  /** A click changes the state exactly when the board is unlocked and the
      clicked card is face down: clicks on a pending card, on a matched card
      or during the unflip delay are ignored. */
  lemma ClickEffect(deck: seq<Card>, s: State, k: nat, now: Millis)
    requires Inv(deck, s) && k < |deck|
    ensures Flip(deck, s, k, now) == s <==> s.lockBoard || s.flipped[k]
    ensures Flip(deck, s, k, now) != s ==> Flip(deck, s, k, now).flipped[k]
  {
    if s.clickable[k] && !s.lockBoard && s.firstCard != Some(k) {
      assert !FaceUpUnmatched(s, k);
    }
  }

  /** The first card of a turn: it turns face up and becomes `firstCard`;
      nothing is counted and nothing else turns. */
  lemma FirstFlip(deck: seq<Card>, s: State, k: nat, now: Millis)
    requires Inv(deck, s) && k < |deck| && !s.lockBoard && !s.flipped[k] && !s.hasFlippedCard
    ensures var r := Flip(deck, s, k, now);
      && r.flipped == s.flipped[k := true] && r.clickable == s.clickable
      && r.hasFlippedCard && r.firstCard == Some(k) && r.secondCard == None && !r.lockBoard
      && r.turnsCount == s.turnsCount && r.matchedPairs == s.matchedPairs
      && r.timerRunning == (s.timerRunning || s.startTime.None?)
  {
    assert s.clickable[k];
  }

  /** The second card of a turn counts one turn. When its name is that of the
      first card both lose their listener and stay face up, one pair is
      counted and the board is free again; otherwise both stay face up, the
      board locks and the unflip is scheduled. */
  lemma SecondFlip(deck: seq<Card>, s: State, k: nat, now: Millis)
    requires Inv(deck, s) && k < |deck| && !s.lockBoard && !s.flipped[k] && s.hasFlippedCard
    ensures var r := Flip(deck, s, k, now); var f := s.firstCard.value;
      && f != k && r.flipped == s.flipped[k := true] && r.turnsCount == s.turnsCount + 1
      && (deck[f].name == deck[k].name ==>
            && r.clickable == s.clickable[f := false][k := false]
            && r.matchedPairs == s.matchedPairs + 1
            && !r.hasFlippedCard && !r.lockBoard && !r.unflipScheduled)
      && (deck[f].name != deck[k].name ==>
            && r.clickable == s.clickable && r.matchedPairs == s.matchedPairs
            && r.firstCard == Some(f) && r.secondCard == Some(k)
            && r.lockBoard && r.unflipScheduled)
  {
    assert s.clickable[k];
  }

  /** In a dealt deck a match always pairs an icon's image card with its text
      card. */
  lemma MatchPairsImageWithText(deck: seq<Card>, names: seq<string>, s: State, k: nat)
    requires DealtFrom(deck, names) && Inv(deck, s) && k < |deck|
    requires s.firstCard.Some? && s.firstCard != Some(k)
    requires deck[s.firstCard.value].name == deck[k].name
    ensures deck[s.firstCard.value].face != deck[k].face
  {
    var f := s.firstCard.value;
    if f < k {
      DealtPairsDifferInFace(deck, names, f, k);
    } else {
      DealtPairsDifferInFace(deck, names, k, f);
    }
  }

  /** The scheduled unflip turns exactly the two pending cards face down and
      frees the board; listeners and counters are untouched. */
  lemma SettleUnflips(deck: seq<Card>, s: State)
    requires Inv(deck, s) && s.unflipScheduled
    ensures var r := Settle(deck, s);
      && (forall i :: 0 <= i < |deck| ==>
            r.flipped[i] == (s.flipped[i] && Some(i) != s.firstCard && Some(i) != s.secondCard))
      && r.clickable == s.clickable && !r.lockBoard && !r.hasFlippedCard && !r.unflipScheduled
      && r.turnsCount == s.turnsCount && r.matchedPairs == s.matchedPairs
  {
  }

  /** The counters never go down, and one click adds at most one turn and at
      most one pair. */
  lemma CountersMonotone(deck: seq<Card>, s: State, k: nat, now: Millis)
    requires Inv(deck, s) && k < |deck|
    ensures var r := Flip(deck, s, k, now);
      && s.turnsCount <= r.turnsCount <= s.turnsCount + 1
      && s.matchedPairs <= r.matchedPairs <= s.matchedPairs + 1
    ensures Settle(deck, s).turnsCount == s.turnsCount && Settle(deck, s).matchedPairs == s.matchedPairs
  {
  }

  // ---------------------------------------------------------------------
  // Timer

  /** The start time is recorded once per round: a click sets it only when
      there is none (starting the timer then), and nothing else but a reset
      changes it. */
  lemma StartTimeSetOnce(deck: seq<Card>, s: State, k: nat, now: Millis)
    requires Inv(deck, s) && k < |deck|
    ensures var r := Flip(deck, s, k, now);
      && (r.startTime == s.startTime || (s.startTime.None? && r.startTime == Some(now)))
      && (s.startTime.None? && r != s ==> r.startTime == Some(now))
    ensures Settle(deck, s).startTime == s.startTime
    ensures StopTimer(s, now).startTime == s.startTime && Tick(s, now).startTime == s.startTime
  {
    ClickEffect(deck, s, k, now);
  }

  /** `startTimer`, `stopTimer` and `resetTimerAndCounters` are idempotent:
      the guard on the running interval makes a second call do nothing. */
  lemma TimerIdempotent(s: State, t1: Millis, t2: Millis)
    ensures StartTimer(StartTimer(s, t1), t2) == StartTimer(s, t1)
    ensures StopTimer(StopTimer(s, t1), t2) == StopTimer(s, t1)
    ensures ResetTimerAndCounters(ResetTimerAndCounters(s)) == ResetTimerAndCounters(s)
  {
  }

  /** The elapsed seconds are recomputed from the recorded start, so a later
      reading never shows less time, and a reading taken after the start is
      never negative. */
  lemma ElapsedMonotone(start: Millis, t1: Millis, t2: Millis)
    requires t1 <= t2
    ensures ElapsedSeconds(Some(start), t1) <= ElapsedSeconds(Some(start), t2)
    ensures start <= t1 ==> ElapsedSeconds(Some(start), t1) >= 0
  {
  }

  /** After a stop the interval is off and the elapsed seconds are the final
      reading taken at the stop, which a later tick does not move. */
  lemma StopFreezesElapsed(s: State, t1: Millis, t2: Millis)
    requires s.timerRunning
    ensures var r := StopTimer(s, t1);
      && !r.timerRunning && r.secondsElapsed == ElapsedSeconds(s.startTime, t1)
      && Tick(r, t2) == r
  {
  }

  // ---------------------------------------------------------------------
  // Counting cards

  /** Between events the unmatched face-up cards are exactly the pending
      ones: at most one while the board is free, exactly two while it is
      locked. */
  lemma FaceUpArePending(deck: seq<Card>, s: State)
    requires Inv(deck, s)
    ensures FaceUpCount(s.flipped, s.clickable) == |PendingCards(s)|
    ensures s.lockBoard ==> FaceUpCount(s.flipped, s.clickable) == 2
    ensures !s.lockBoard ==> FaceUpCount(s.flipped, s.clickable) <= 1
  {
    forall i: nat ensures i in PendingCards(s) <==> FaceUpUnmatched(s, i) {
    }
    CountOfFaceUp(s.flipped, s.clickable, PendingCards(s));
  }

  /** `FaceUpCount` counts the positions of a set that holds exactly the
      face-up unmatched positions. */
  lemma {:induction false} CountOfFaceUp(flipped: seq<bool>, clickable: seq<bool>, positions: set<nat>)
    requires |flipped| == |clickable|
    requires forall i: nat :: i in positions <==> i < |flipped| && flipped[i] && clickable[i]
    ensures FaceUpCount(flipped, clickable) == |positions|
  {
    if flipped != [] {
      var last := |flipped| - 1;
      var rest := positions - {last};
      CountOfFaceUp(flipped[..last], clickable[..last], rest);
      if flipped[last] && clickable[last] {
        assert positions == rest + {last};
      } else {
        assert positions == rest;
      }
    }
  }

  /** Removing one more listener retires one more card. */
  lemma {:induction false} RetireOne(clickable: seq<bool>, i: nat)
    requires i < |clickable| && clickable[i]
    ensures Retired(clickable[i := false]) == Retired(clickable) + 1
  {
    var last := |clickable| - 1;
    var c' := clickable[i := false];
    if i < last {
      assert c'[..last] == clickable[..last][i := false];
      RetireOne(clickable[..last], i);
    } else {
      assert c'[..last] == clickable[..last];
    }
  }

  /** Every card retired: no listener is left. */
  lemma {:induction false} AllRetired(clickable: seq<bool>)
    requires Retired(clickable) == |clickable|
    ensures forall i :: 0 <= i < |clickable| ==> !clickable[i]
  {
    if clickable != [] {
      var last := |clickable| - 1;
      AllRetired(clickable[..last]);
      assert forall i :: 0 <= i < last ==> clickable[i] == clickable[..last][i];
    }
  }

  /** Each counted pair stands for exactly two retired cards, and the events
      keep it so. */
  lemma FlipKeepsPairsAccounted(deck: seq<Card>, s: State, k: nat, now: Millis)
    requires Inv(deck, s) && PairsAccounted(s) && k < |deck|
    ensures PairsAccounted(Flip(deck, s, k, now))
  {
    if s.clickable[k] && !s.lockBoard && s.firstCard != Some(k) && s.hasFlippedCard {
      var f := s.firstCard.value;
      if deck[f].name == deck[k].name {
        RetireOne(s.clickable, f);
        RetireOne(s.clickable[f := false], k);
      }
    }
  }

  lemma FlipKeepsPlayable(deck: seq<Card>, s: State, k: nat, now: Millis, r: State)
    requires Playable(deck, s) && k < |deck| && r == Flip(deck, s, k, now)
    ensures Playable(deck, r)
  {
    FlipPreservesInv(deck, s, k, now);
    FlipKeepsPairsAccounted(deck, s, k, now);
  }

  lemma SettleKeepsPlayable(deck: seq<Card>, s: State, r: State)
    requires Playable(deck, s) && r == Settle(deck, s)
    ensures Playable(deck, r)
  {
    SettlePreservesInv(deck, s);
  }

  /** A full deck never counts more than `PAIRS` pairs. */
  lemma MatchedPairsBounded(deck: seq<Card>, s: State)
    requires Inv(deck, s) && PairsAccounted(s) && |deck| == TOTAL_CARDS
    ensures s.matchedPairs <= PAIRS
    ensures s.matchedPairs == PAIRS ==> forall i :: 0 <= i < |deck| ==> !s.clickable[i] && s.flipped[i]
  {
    if s.matchedPairs == PAIRS {
      AllRetired(s.clickable);
    }
  }

  /** Once every pair is found the round is over: clicks change nothing. */
  lemma CompletedRoundIgnoresClicks(deck: seq<Card>, s: State, k: nat, now: Millis)
    requires Inv(deck, s) && PairsAccounted(s) && |deck| == TOTAL_CARDS
    requires s.matchedPairs >= PAIRS && k < |deck|
    ensures Flip(deck, s, k, now) == s
  {
    MatchedPairsBounded(deck, s);
  }

  /** The click that finds the last pair stops the timer. */
  lemma CompletionStopsTimer(deck: seq<Card>, s: State, k: nat, now: Millis)
    requires Inv(deck, s) && k < |deck|
    requires s.matchedPairs < PAIRS <= Flip(deck, s, k, now).matchedPairs
    ensures !Flip(deck, s, k, now).timerRunning
    ensures s.timerRunning ==> Flip(deck, s, k, now).secondsElapsed == ElapsedSeconds(s.startTime, now)
  {
  }
}
