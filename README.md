# Icon matching game — verified model of the game engine

This project models the engine of a browser memory (pairs) game in Dafny.
The engine is `scripts.js`: it picks twelve distinct icons from a catalogue of 47,
deals each icon twice (once as a picture card, once as a name card), and runs the
click-driven turn machine. A turn turns two cards face up. A match retires both
cards. A mismatch locks the board until a delayed unflip turns both cards back.
It also keeps the timer, the turn counter and the count of matched pairs.

Layout:

- `shuffle.dfy` (module `Shuffle`): the Fisher–Yates `shuffleArray`. The function
  `Shuffled` specifies it, and the method `ShuffleArray` swaps in place on a copied
  array. `Math.random()` is replaced by caller-supplied draws: step `i` uses
  `draws[i]`, a number in `[0, i]`.
- `deck.dfy` (module `Deck`): the catalogue `ICONS`, the constants
  `BOARD_COLS`, `PAIRS`, `TOTAL_CARDS`, `pickUniqueIcons` (a `Result` carrying the
  "not enough icons" error) and `buildDeck`.
- `time_format.dfy` (module `TimeFormat`): `formatTime`, with `String(n)` and
  `padStart(2, '0')` written out.
- `engine.dfy` (module `Engine`): the script's module-level variables as one
  `State` value, with each handler as a function from state to state. `Inv` is the
  invariant between events. The lemmas are the properties of the game.
- `game.dfy` (module `GameState`): class `Game`, holding the same variables as
  mutable fields. `init()` is the constructor, and each script function is a
  method proved to change the fields exactly as the `Engine` function changes a
  `State`.

Conventions:

- A card is identified by its position in the dealt deck.
- Per card, `flipped` records the `flip` CSS class and `clickable` records whether
  the click listener is still attached.
- `Date.now()` is a parameter `now` of type `Millis`, a positive integer.
- The 1500 ms `setTimeout` of `unflipCards` is the flag `unflipScheduled` plus the
  event `Settle`.
- The 250 ms `setInterval` callback is the event `Tick`.

Two facts about the code that shape the model:

- `matchedPairs` counts pairs. `disableCards` adds 1 per match (scripts.js:144),
  and the round completes at `matchedPairs >= PAIRS` (scripts.js:148).
  `Engine.PairsAccounted` ties this count to cards: twice the pair count equals
  the number of retired cards.
- `resetTimerAndCounters` (scripts.js:230-241) clears the timer and counters only.
  It does not clear the board lock, the pending cards or a scheduled unflip. The
  code calls it only from `renderBoard` during `init()`, before any card exists.

## Model

| member | source | states |
|---|---|---|
| Shuffle.ShuffleArray | scripts.js:12-19 | The in-place swap loop over a copy returns exactly `Shuffled(arr, draws)`, the array the Fisher–Yates steps `i = n-1 … 1` produce with those draws |
| Shuffle.Shuffled | scripts.js:12-19 | The array `shuffleArray` returns for the given draws: the swaps of loop steps `n-1` down to 1 applied to a copy of the input |
| Shuffle.SwapPermutes | scripts.js:16 | Exchanging two entries keeps the multiset of entries |
| Shuffle.ShuffleFromPermutes | scripts.js:14-17 | Every suffix of the loop yields a permutation of its input |
| Shuffle.ShuffledPermutes | scripts.js:12-19 | For every admissible draw sequence the shuffle returns the same length and the same multiset as its input |
| Shuffle.DistinctMultiset | scripts.js:21-24 | A sequence has no repeated entry if and only if each value occurs at most once in its multiset |
| Shuffle.DistinctPermutation | scripts.js:21-24 | A permutation of a repetition-free sequence is repetition-free |
| Shuffle.ShuffledPrefix | scripts.js:23 | The first `count` entries of a shuffled repetition-free sequence are `count` distinct values, all taken from the input |
| Deck.IconsDistinct | scripts.js:1-3 | The catalogue holds 47 names, none listed twice |
| Deck.PickUniqueIcons | scripts.js:21-24 | It fails exactly when `count` exceeds the catalogue size. Otherwise it returns `count` distinct catalogue names |
| Deck.Faced | scripts.js:33-34 | `picked.map(name => ({ name, type }))`: one card of the given face per name, in the names' order |
| Deck.FacedCount | scripts.js:33-34 | Mapping distinct names to cards of one face gives each name's card of that face exactly once, and no card of the other face |
| Deck.ShuffledDealt | scripts.js:35-37 | Shuffled image cards followed by shuffled text cards: the first half is all image cards, the second half all text cards, and each picked name has exactly one card of each face |
| Deck.BuildDeck | scripts.js:31-38 | The deck has `TOTAL_CARDS` cards and is dealt from the picked names: one image card and one text card per name, image cards first |
| Deck.DealtPairsDifferInFace | scripts.js:31-38 | Two different cards of a dealt deck with the same name have different faces |
| Deck.DealtPartner | scripts.js:31-38 | Every card of a dealt deck has a partner: another card with the same name and the other face |
| TimeFormat.Decimal | scripts.js:199-200 | `String(n)` of a non-negative integer: its decimal digits without leading zeros |
| TimeFormat.PadStart2 | scripts.js:199-200 | `padStart(2, '0')`: the string left-padded with zeros to length 2, unchanged when already that long |
| TimeFormat.DecimalDenotes | scripts.js:199-200 | `String(n)` is a digit string denoting `n`, one digit long exactly when `n < 10`, with no leading zero unless `n` is 0 |
| TimeFormat.PadStart2Denotes | scripts.js:199-200 | Left-padding with zeros to two characters keeps the digits' value |
| TimeFormat.FormatTime | scripts.js:198-202 | The result is minutes digits, a colon and two seconds digits. The seconds are below 60, `60 * minutes + seconds` is the input, and the minutes are two digits or have no leading zero |
| Engine.Initial | scripts.js:168-171 | After dealing, every card is face down and has its listener attached |
| Engine.ElapsedSeconds | scripts.js:216 | `Math.floor((Date.now() - startTime) / 1000)`, with a missing start time read as 0 |
| Engine.StartTimer | scripts.js:212-219 | Nothing changes while the interval runs. Otherwise the start time becomes `now` and the interval starts |
| Engine.StopTimer | scripts.js:221-228 | Nothing changes unless the interval runs. Otherwise the interval stops and the elapsed seconds take their final reading at `now` |
| Engine.Tick | scripts.js:215-217 | While the interval runs, the elapsed seconds are recomputed from the start time. Otherwise nothing changes |
| Engine.ResetTimerAndCounters | scripts.js:230-241 | The interval stops, the start time is cleared, and the seconds, turns and pairs go to 0. The board is untouched |
| Engine.ResetBoard | scripts.js:163-166 | Both flags are cleared and both pending cards are forgotten |
| Engine.DisableCards | scripts.js:137-152 | Both pending cards lose their listener, one pair is added and the board is reset. At `PAIRS` pairs the timer stops |
| Engine.UnflipCards | scripts.js:154-155 | The board locks and the unflip is scheduled |
| Engine.CheckForMatch | scripts.js:132-135 | Equal card names lead to `DisableCards`, different names to `UnflipCards` |
| Engine.Flip | scripts.js:111-130 | A click on a card without its listener, on a locked board or on the first pending card changes nothing. Otherwise the timer starts if no start time is recorded and the card turns up. It becomes the first card, or the second card: one turn is counted and `CheckForMatch` runs |
| Engine.Settle | scripts.js:156-160 | With an unflip scheduled, both pending cards turn face down and the board is reset. Otherwise nothing changes |
| Engine.InitialInv | scripts.js:243-246 | The state after `init()` satisfies the invariant, with no card retired and no pair counted |
| Engine.FlipPreservesInv | scripts.js:111-130 | A click in any state satisfying the invariant leads to a state satisfying it |
| Engine.FirstFlipInv | scripts.js:117-121 | Turning the first card of a turn keeps the invariant |
| Engine.MatchInv | scripts.js:137-152 | Turning a second card that matches keeps the invariant: both cards retired and face up, the board free |
| Engine.MismatchInv | scripts.js:154-161 | Turning a second card that does not match keeps the invariant: board locked, both cards pending, unflip scheduled |
| Engine.SettlePreservesInv | scripts.js:156-160 | The scheduled unflip keeps the invariant and keeps retired cards equal to twice the pair count |
| Engine.TimerPreservesInv | scripts.js:212-241 | `startTimer`, `stopTimer`, the interval tick and `resetTimerAndCounters` keep the invariant. All but the reset keep the pair count consistent with the retired cards |
| Engine.ClickEffect | scripts.js:111-121 | A click changes the state if and only if the board is unlocked and the card is face down. A click that acts turns the card face up |
| Engine.FirstFlip | scripts.js:117-121 | The first card of a turn turns face up and becomes `firstCard`. Turns and pairs do not change, and the timer runs unless a start time is already recorded |
| Engine.SecondFlip | scripts.js:123-161 | The second card counts one turn. On equal names both lose their listener, a pair is counted and the board is free. Otherwise the board locks with both cards pending and the unflip scheduled |
| Engine.MatchPairsImageWithText | scripts.js:132-135 | In a dealt deck a match always pairs an image card with a text card |
| Engine.SettleUnflips | scripts.js:155-160 | The delayed unflip turns exactly the two pending cards face down and frees the board. Listeners and counters stay as they are |
| Engine.CountersMonotone | scripts.js:124-144 | A click adds at most one turn and at most one pair, and never lowers either. The unflip changes neither |
| Engine.StartTimeSetOnce | scripts.js:115 | A click records the start time only when none is recorded. The unflip, `stopTimer` and a tick never change it |
| Engine.TimerIdempotent | scripts.js:212-241 | A second `startTimer`, `stopTimer` or `resetTimerAndCounters` right after the first changes nothing |
| Engine.ElapsedMonotone | scripts.js:215 | The elapsed seconds, recomputed from the start time, never decrease as the clock advances, and are non-negative after the start |
| Engine.StopFreezesElapsed | scripts.js:221-228 | Stopping turns the interval off and takes the final reading, which later ticks leave unchanged |
| Engine.FaceUpArePending | scripts.js:111-161 | The face-up unmatched cards are exactly the pending ones: two while the board is locked, at most one otherwise |
| Engine.CountOfFaceUp | scripts.js:111-161 | The face-up unmatched count equals the size of any set that holds exactly those positions |
| Engine.RetireOne | scripts.js:138-139 | Removing one more listener retires exactly one more card |
| Engine.AllRetired | scripts.js:138-139 | When every card is retired, no listener remains |
| Engine.FlipKeepsPairsAccounted | scripts.js:137-144 | A click keeps twice the pair count equal to the number of retired cards |
| Engine.FlipKeepsPlayable | scripts.js:111-130 | A click keeps both the invariant and the pair accounting |
| Engine.SettleKeepsPlayable | scripts.js:156-160 | The unflip keeps both the invariant and the pair accounting |
| Engine.MatchedPairsBounded | scripts.js:144-148 | With a full deck the pair count never exceeds `PAIRS`. When it reaches `PAIRS`, every card is retired and face up |
| Engine.CompletedRoundIgnoresClicks | scripts.js:138-148 | Once every pair is found, no click changes the state |
| Engine.CompletionStopsTimer | scripts.js:148-151 | The click that reaches `PAIRS` pairs stops the timer. If the timer was running, it takes the final reading at that instant |
| GameState.Game.constructor | scripts.js:243-246 | `init()` deals `BuildDeck` of the draws and leaves the fields at the initial state, satisfying the invariant |
| GameState.Game.FlipCard | scripts.js:111-130 | The fields change exactly as `Engine.Flip` says, and the invariant and pair accounting still hold |
| GameState.Game.CheckForMatch | scripts.js:132-135 | The fields change exactly as `Engine.CheckForMatch` says |
| GameState.Game.DisableCards | scripts.js:137-152 | The fields change exactly as `Engine.DisableCards` says |
| GameState.Game.UnflipCards | scripts.js:154-161 | The fields change exactly as `Engine.UnflipCards` says |
| GameState.Game.Settle | scripts.js:156-160 | The fields change exactly as `Engine.Settle` says, and the invariant still holds |
| GameState.Game.ResetBoard | scripts.js:163-166 | The fields change exactly as `Engine.ResetBoard` says |
| GameState.Game.StartTimer | scripts.js:212-219 | The fields change exactly as `Engine.StartTimer` says |
| GameState.Game.StopTimer | scripts.js:221-228 | The fields change exactly as `Engine.StopTimer` says |
| GameState.Game.Tick | scripts.js:214-217 | The fields change exactly as `Engine.Tick` says |
| GameState.Game.ResetTimerAndCounters | scripts.js:230-241 | The fields change exactly as `Engine.ResetTimerAndCounters` says |

## Left out

- `renderBoard`'s DOM construction, `iconUrl`, `displayName`, `addSolvedIcon`, `setupContainerResizeBehavior`, `updateTimerDisplay`, `updateTurnsDisplay`, the `solvedCard` class and the completion `alert`: all presentation. A matched card appears in the model only as a card without a listener.
- `Math.random()`: replaced by draws supplied by the caller. Which draws occur, and how likely each is, is not modelled.
- `Date.now()`: a parameter. Only positive readings are modelled.
- The 1500 ms and 250 ms delays: `Settle` and `Tick` are events the caller issues, and the model does not fix when they fire. In the browser the unflip fires once, 1500 ms after the mismatch, and clicks during the lock are no-ops in either case.
- Deck.PickUniqueIcons: `count` is a natural number. A negative `count`, which JavaScript's `slice` would treat as an offset from the end, is not modelled. The script only calls it with `PAIRS`.
- TimeFormat.FormatTime: the model uses exact integers rather than JavaScript numbers, so `String` switching to exponent notation at 10^21 and the floating-point division of `Math.floor(sec / 60)` losing precision beyond 2^53 are not modelled. It is also defined for non-negative seconds only. A clock that runs backwards could make `secondsElapsed` negative, and JavaScript's `%` on a negative number is not modelled.
- GameState.Game: the cards' `flip` class and listeners are two `seq<bool>` fields indexed by card position, not DOM elements. Aliasing between card elements is not modelled.
- `ICONS` is written as two sequence displays joined by `+`. The order and contents are those of the source.
