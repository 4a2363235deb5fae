# Chopsticks: rules engine, bot and store, modelled in Dafny

A model of the core of a small "chopsticks" finger game. Two sides, the human
(the source's `player`) and the bot, each hold two hands with 0 to 4 fingers.
A transfer adds one hand's count onto another modulo 5. A side whose total is
even and which has an empty hand may split its total evenly across both
hands. A side with both hands empty has lost.

- `game_types.dfy` (module `GameTypes`): the values. `Hand`, `Player`,
  `GameStatus`, `HandState` and `GameState` are datatypes. The move union
  `RegularMove | SplitMove` is the two-constructor datatype `Move`. The two
  thrown errors are `GameError`, and `Result`/`Option` carry them.
  `ValidState` is the range invariant: every hand holds 0 to 4 fingers.
- `game_rules.dfy` (module `GameRules`): the rules engine. `applyMove` and
  `applySplit` copy the state and update the copy field by field, so they are
  methods (`ApplyMove`, `ApplySplit`). Each is proved equal to a function
  (`AfterMove`, `AfterSplit`) whose contract gives the exact effect. The other
  rules are functions.
- `bot_ai.dfy` (module `BotAI`): the bot. `GetValidMoves` keeps the source's
  two nested loops and is proved equal to `ValidMoves`. `EvaluateMove` is a
  function. `GetBotMove` builds the scored array, sorts it in place and indexes
  into it; it is proved equal to `BotChoice`.
- `game_store.dfy` (module `Store`): the store is the class
  `Store.GameStore`, which holds one `state` field. It has `PlayHand`,
  `SplitHand`, `ResetGame` and `SetGameStatus`. `ExecuteBotMove` is a method
  beside it.

Randomness is an explicit input: `rand: nat -> real` is the stream of
`Math.random()` draws in the order the source makes them. For `n` valid
moves, `rand(i)` (for `i < n`) is move `i`'s noise (times 3) and `rand(n)` is
compared with 0.7. `rand(n + 1)` picks the index `floor(3 * rand(n + 1))`.
`IsRandomStream` asks only that every draw lie in [0, 1).

The bot's split takes the left hand as source when it holds fingers and the
right hand otherwise; the target is the other hand. So, when the bot has a hand
with fingers, the split moves from that hand into the empty one. For a bot on
{0, 0} the source is `right` and the target `left`.

Two behaviours of the code differ from the source's own comments or from the
usual chopsticks rules; the model follows the code:

- The "+5" heuristic term rewards moves that leave the human's total odd. This
  is what the expression at src/lib/game/botAI.ts:55 computes, although the
  comment above it (src/lib/game/botAI.ts:54) speaks of even sums.
- A finished game can be reopened. `setGameStatus` may set `ongoing` again,
  and `splitHand` checks the turn against its own `player` argument, not
  against the human.

## Model

| member | source | states |
|---|---|---|
| GameRules.AddFingers | src/lib/game/gameRules.ts:10-12 | For non-negative counts the result is (source + target) mod 5 and lies in [0, 4]. For any counts it is zero exactly when the sum is a multiple of 5. |
| GameRules.CanSplitHand | src/lib/game/gameRules.ts:18-21 | A side may split iff its total is even and one of its hands is 0 (so {0, 0} may split). The evenness test uses JavaScript's `%`. |
| GameRules.SplitHand | src/lib/game/gameRules.ts:23-30 | It fails with CannotSplit iff the pair may not split. Otherwise both hands are equal and keep the total. For hands in range the new value is 0, 1 or 2. |
| GameRules.AfterMove | src/lib/game/gameRules.ts:32-59 | Only the target hand changes, to AddFingers(source, target). The other three hands and the status are unchanged, the turn flips, and lastMove is the regular move built from the arguments. Hands in [0, 4] stay in [0, 4]. |
| GameRules.MoveEliminatesTarget | src/lib/game/gameRules.ts:14-16 | A hand is eliminated when it holds 0. After a transfer the target hand is eliminated iff the source and target counts sum to a multiple of 5. Every other hand is eliminated after the move iff it was before. |
| GameRules.ApplyMove | src/lib/game/gameRules.ts:39-58 | The field-by-field update of the copy equals AfterMove, so the step that forces an eliminated hand to 0 changes nothing. |
| GameRules.AfterSplit | src/lib/game/gameRules.ts:61-78 | It fails with CannotSplit iff the side may not split. Otherwise both of the side's hands become half its total and the other side is unchanged. The status is kept, the turn flips and lastMove is the split record. Hands in range stay in range. |
| GameRules.ApplySplit | src/lib/game/gameRules.ts:67-77 | The eligibility check followed by the field-by-field update equals AfterSplit. |
| GameRules.CheckGameOver | src/lib/game/gameRules.ts:79-87 | Lost if both human hands are 0. Otherwise Won if both bot hands are 0, so the human check takes precedence. Otherwise the state is returned as it was. Hands, turn and lastMove never change, and a finished game is never set back to ongoing. |
| GameRules.CheckGameOverIdempotent | src/lib/game/gameRules.ts:79-87 | Applying the check twice gives the same state as applying it once. |
| GameRules.OngoingMeansBothSidesPlay | src/lib/game/gameRules.ts:79-87 | If the check leaves a state in range ongoing, the state is unchanged and both sides have a hand with fingers. |
| BotAI.GetValidMoves | src/lib/game/botAI.ts:6-39 | The nested loops and the final push build exactly ValidMoves: regular moves in hand order, then the split if the bot may split. |
| BotAI.ValidMovesMembers | src/lib/game/botAI.ts:12-36 | A move is valid iff it is a bot-to-human regular move from a bot hand with fingers onto a human hand with fingers, or it is the bot's split and the bot may split. |
| BotAI.ValidMovesSplitShape | src/lib/game/botAI.ts:29-36 | The split is the bot's. Its source is `left` iff the bot's left hand holds fingers, and its target is the other hand. For hands in range the target is empty. |
| BotAI.ValidMovesCount | src/lib/game/botAI.ts:12-36 | There are (bot hands with fingers) x (human hands with fingers) regular moves, plus one split iff the bot may split. The split can only be last, the last move is a split iff the bot may split, and there are at most 5 moves. |
| BotAI.ValidMovesNonEmpty | src/lib/game/botAI.ts:12-26 | If both sides have a hand with fingers, the bot has at least one valid move. |
| BotAI.EvaluateMove | src/lib/game/botAI.ts:41-74 | A regular move scores 10 if the target hand ends at 0, plus 5 if the human total after the move is odd, minus 3 if the bot's source hand holds 1. A split scores 7, or 2 when a human hand holds 4. Every score lies in [-3, 15]. |
| BotAI.Scored | src/lib/game/botAI.ts:84-87 | The scored list has one entry per move, in the same order and with the same move. When every draw is in [0, 1), each entry's score is at least the move's heuristic score and less than that score plus 3. |
| BotAI.Candidates | src/lib/game/botAI.ts:84-87 | The candidates are the valid moves in enumeration order, each with its noisy score. That score lies in [-3, 18). |
| BotAI.SortDescSorted | src/lib/game/botAI.ts:90 | The sorted candidates are in non-increasing noisy-score order. |
| BotAI.SortDescPermutes | src/lib/game/botAI.ts:90 | The sorted candidates are a permutation of the scored moves. |
| BotAI.SortByScore | src/lib/game/botAI.ts:90 | The in-place sort leaves the array equal to the stable descending sort of its old contents, hence sorted and a permutation. |
| BotAI.ChoiceIndex | src/lib/game/botAI.ts:93-98 | The index taken is 0 when the first draw is below 0.7 or there are fewer than 3 moves. Otherwise it is the integer k with k <= 3 x second draw < k + 1, that is, its floor. It is always below both 3 and the number of moves. |
| BotAI.BotChoice | src/lib/game/botAI.ts:76-99 | The choice fails with NoValidMoves iff there is no valid move. Otherwise the chosen move is one of the valid moves. |
| BotAI.GetBotMove | src/lib/game/botAI.ts:76-99 | Enumerating, scoring with noise, sorting in place and indexing gives exactly BotChoice. |
| BotAI.BotChoiceGreedy | src/lib/game/botAI.ts:84-94 | If the first draw is below 0.7 or there are fewer than 3 moves, the move played has maximal noisy score among the candidates. |
| BotAI.BotChoiceTopThree | src/lib/game/botAI.ts:84-98 | Whatever the draws, at most two candidates score strictly above the move played, so it is one of the top three. |
| Store.AfterBotMove | src/lib/stores/gameStore.ts:23-33 | The bot's move is sent to the transfer or the split rule. A move the bot may play is always accepted, and a refusal can only be CannotSplit. The move is recorded, the status is kept and the turn flips. For a move the bot may play, a transfer changes only the targeted human hand, to AddFingers(bot source, human target), and a split changes only the bot's hands, to half its total each. Hands in range stay in range. |
| Store.AfterBotTurn | src/lib/stores/gameStore.ts:19-36 | A bot turn succeeds iff the bot has a move; otherwise it fails with NoValidMoves. A regular move leaves the bot's hands alone, sets the targeted human hand to AddFingers(bot source, human target) and keeps the other human hand. A split leaves the human's hands alone and sets both bot hands to half the bot's total. The move is recorded, the turn flips, the game-over check has already been applied, and when neither side has been emptied the status is kept. Hands in range stay in range. |
| Store.ExecuteBotMove | src/lib/stores/gameStore.ts:19-36 | Sending a regular move to ApplyMove and a split to ApplySplit with the move's own fields, then checking game over, gives AfterBotTurn. |
| Store.BotReply | src/lib/stores/gameStore.ts:46-48 | No reply, and the state stands, unless the game is ongoing and it is the bot's turn. A reply hands the turn to the human and records one of the bot's valid moves. |
| Store.BotReplySucceeds | src/lib/stores/gameStore.ts:46-48 | A reply to a state in range that the check leaves unchanged never fails and stays in range. |
| Store.BotTurnSucceeds | src/lib/game/botAI.ts:77-81 | On a state in range that the check leaves ongoing, the bot's turn never throws. It keeps hands in range and plays one of its valid moves. |
| Store.HumanMoveThenReply | src/lib/stores/gameStore.ts:43-48 | After a human move and the check, the bot's reply never fails. The human is to move again iff their move did not end the game; otherwise the turn stays with the bot. |
| Store.SplitThenReply | src/lib/stores/gameStore.ts:56-61 | After an allowed split and the check, the bot's reply never fails. After a human split the human is to move again iff the game goes on. A bot split gets no reply and hands the turn to the human. |
| Store.GameStore.constructor | src/lib/stores/gameStore.ts:9-17 | The store starts with both sides on {1, 1}, the human to move, status ongoing and no last move. |
| Store.GameStore.PlayHand | src/lib/stores/gameStore.ts:40-51 | The state is unchanged unless the game is ongoing and it is the human's turn. Otherwise the new state is the human move, then the check, then the bot's reply (a bot move and a check) if the game goes on and it is the bot's turn. No error escapes, and hands stay in range. |
| Store.GameStore.SplitHand | src/lib/stores/gameStore.ts:52-68 | The state is unchanged unless the game is ongoing and it is `player`'s turn. It is also unchanged when the split is refused, and then no bot move happens. Otherwise the new state is the split, then the check, then the bot's reply if that is due. Hands stay in range. |
| Store.GameStore.ResetGame | src/lib/stores/gameStore.ts:69 | The state is again the initial one: {1, 1} and {1, 1}, the human to move, ongoing, no last move. |
| Store.GameStore.SetGameStatus | src/lib/stores/gameStore.ts:70-73 | Only the status changes, to the given value. |

## Left out

- The Svelte store plumbing (`writable`, `subscribe`, `update`, `set`) and the `GameStore` callback interface. The held state is the class field `state`.
- `Math.random()` itself. Its draws are the parameter `rand`. The 70%/30% frequencies and the uniform choice among the top three are statistical claims and are not stated.
- Floating point. Scores plus noise and the comparison with 0.7 are exact reals in the model, whereas the source uses doubles, so rounding could order near-equal scores differently.
- The JavaScript engine's own sorting algorithm. The array is sorted by a stable insertion sort. Any stable sort gives the same order, and `Array.prototype.sort` is stable.
- BotAI.SortByScore: the lemmas state sorted order and permutation. Stability (equal scores keep their order) follows from the definition of `SortDesc` but is not stated as a lemma of its own.
- The `JSON.parse(JSON.stringify(...))` deep copy and the `{...state}` spread. Dafny datatypes are values, so an input state is never modified.
- `console.error` in `splitHand`'s catch block. It only logs.
- Object aliasing through `initialState`. `setGameStatus` mutates the held object. While that object is still `initialState`, a later `resetGame` would restore the mutated status. The model holds states as values, so `ResetGame` always restores the initial state.
- Hand counts that are not integers (fractions, NaN). Counts are `int`. JavaScript's truncating `%` is written out (`JsRem`), so negative counts behave as in the source.
- Store.GameStore.PlayHand: in the source an exception from the bot's move leaves `playHand` with the state kept. The model returns that error as `err`, and under the class invariant it is proved never to occur.
- Checks the source does not perform are not added. `applyMove` does not require a non-empty source hand, an ongoing game or the mover's own hand. `playHand` does not require `sourcePlayer` to be the human.
