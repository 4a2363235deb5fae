/**
  The rules engine (src/lib/game/gameRules.ts): modulo-5 finger addition,
  split eligibility and the split itself, applying a transfer or a split to a
  state, and deriving the win/loss status.
 */
module GameRules {
  import opened GameTypes

  /**
    JavaScript's `%` on integers: the truncated remainder, which takes the
    sign of the dividend (unlike Dafny's Euclidean `%`).
   */
  function JsRem(a: int, n: int): (r: int)
    requires n > 0
    ensures a >= 0 ==> r == a % n
    ensures a < 0 ==> -n < r <= 0 && r == -((-a) % n)
  {
    if a >= 0 then a % n else -((-a) % n)
  }

  /** Adding a source count onto a target count, modulo 5 (`addFingers`). */
  function AddFingers(source: int, target: int): (r: int)
    ensures source >= 0 && target >= 0 ==> ValidCount(r) && r == (source + target) % 5
    ensures -5 < r < 5
    ensures r == 0 <==> (source + target) % 5 == 0
  {
    JsRem(source + target, 5)
  }

  /** A hand is eliminated when it holds no fingers (`isHandEliminated`). */
  predicate IsHandEliminated(fingers: int) {
    fingers == 0
  }

  /** Both hands of a side hold no fingers. */
  predicate BothEmpty(h: HandState) {
    IsHandEliminated(h.left) && IsHandEliminated(h.right)
  }

  /**
    A side may split when its total is even and one of its hands is empty
    (`canSplitHand`); `{0, 0}` is eligible.
   */
  predicate CanSplitHand(h: HandState)
    ensures CanSplitHand(h) <==> h.Total() % 2 == 0 && (h.left == 0 || h.right == 0)
  {
    var total := h.left + h.right;
    JsRem(total, 2) == 0 && (h.left == 0 || h.right == 0)
  }

  /** Both hands become half the total (`splitHand`); an ineligible pair is refused. */
  function SplitHand(h: HandState): (r: Result<HandState>)
    ensures r.Ok? <==> CanSplitHand(h)
    ensures r.Err? ==> r.error == CannotSplit
    ensures r.Ok? ==> r.value.left == r.value.right && r.value.Total() == h.Total()
    ensures r.Ok? && ValidHand(h) ==> ValidHand(r.value) && r.value.left in {0, 1, 2}
  {
    if !CanSplitHand(h) then
      Err(CannotSplit)
    else
      var total := h.left + h.right;
      var half := total / 2;
      Ok(HandState(half, half))
  }

  /**
    The state `applyMove` returns: the target hand receives the source count
    modulo 5, and nothing else changes but the turn and `lastMove`.
   */
  function AfterMove(state: GameState, sourcePlayer: Player, sourceHand: Hand,
                     targetPlayer: Player, targetHand: Hand): (r: GameState)
    ensures forall p, h :: r.Hands(p).Get(h) ==
                           if p == targetPlayer && h == targetHand
                           then AddFingers(state.Hands(sourcePlayer).Get(sourceHand),
                                           state.Hands(targetPlayer).Get(targetHand))
                           else state.Hands(p).Get(h)
    ensures r.status == state.status
    ensures r.currentTurn == Other(state.currentTurn)
    ensures r.lastMove == Some(Regular(sourcePlayer, sourceHand, targetPlayer, targetHand))
    ensures ValidState(state) ==> ValidState(r)
  {
    var fingers := AddFingers(state.Hands(sourcePlayer).Get(sourceHand), state.Hands(targetPlayer).Get(targetHand));
    state
      .WithHands(targetPlayer, state.Hands(targetPlayer).With(targetHand, fingers))
      .(currentTurn := Other(state.currentTurn),
        lastMove := Some(Regular(sourcePlayer, sourceHand, targetPlayer, targetHand)))
  }

  /**
    `applyMove`: a copy of the state updated field by field. The elimination
    step (forcing a zero target to 0) changes nothing, as the contract shows.
   */
  method ApplyMove(state: GameState, sourcePlayer: Player, sourceHand: Hand,
                   targetPlayer: Player, targetHand: Hand) returns (newState: GameState)
    ensures newState == AfterMove(state, sourcePlayer, sourceHand, targetPlayer, targetHand)
  {
    newState := state;
    var sourceValue := newState.Hands(sourcePlayer).Get(sourceHand);
    var targetValue := newState.Hands(targetPlayer).Get(targetHand);

    newState := newState.WithHands(targetPlayer,
      newState.Hands(targetPlayer).With(targetHand, AddFingers(sourceValue, targetValue)));

    if IsHandEliminated(newState.Hands(targetPlayer).Get(targetHand)) {
      newState := newState.WithHands(targetPlayer, newState.Hands(targetPlayer).With(targetHand, 0));
    }

    newState := newState.(currentTurn := if newState.currentTurn == Human then Bot else Human);
    newState := newState.(lastMove := Some(Regular(sourcePlayer, sourceHand, targetPlayer, targetHand)));
  }

  /**
    After a transfer the target hand is eliminated exactly when the two counts
    sum to a multiple of 5; every other hand is eliminated after the move
    exactly when it was before.
   */
  lemma MoveEliminatesTarget(state: GameState, sourcePlayer: Player, sourceHand: Hand,
                             targetPlayer: Player, targetHand: Hand)
    ensures var after := AfterMove(state, sourcePlayer, sourceHand, targetPlayer, targetHand);
            IsHandEliminated(after.Hands(targetPlayer).Get(targetHand)) <==>
              (state.Hands(sourcePlayer).Get(sourceHand) + state.Hands(targetPlayer).Get(targetHand)) % 5 == 0
    ensures var after := AfterMove(state, sourcePlayer, sourceHand, targetPlayer, targetHand);
            forall p, h :: !(p == targetPlayer && h == targetHand) ==>
              (IsHandEliminated(after.Hands(p).Get(h)) <==> IsHandEliminated(state.Hands(p).Get(h)))
  {
  }

  /**
    The outcome of `applySplit`: refused exactly when the side may not split;
    otherwise both of its hands become half its total, the other side is
    untouched, the turn flips and the split is recorded.
   */
  function AfterSplit(state: GameState, player: Player, sourceHand: Hand, targetHand: Hand): (r: Result<GameState>)
    ensures r.Err? <==> !CanSplitHand(state.Hands(player))
    ensures r.Err? ==> r.error == CannotSplit
    ensures r.Ok? ==>
      var half := state.Hands(player).Total() / 2;
      2 * half == state.Hands(player).Total() && r.value.Hands(player) == HandState(half, half)
    ensures r.Ok? ==> r.value.Hands(Other(player)) == state.Hands(Other(player))
    ensures r.Ok? ==> r.value.status == state.status && r.value.currentTurn == Other(state.currentTurn)
    ensures r.Ok? ==> r.value.lastMove == Some(Split(player, sourceHand, targetHand))
    ensures r.Ok? && ValidState(state) ==> ValidState(r.value)
  {
    var hands := state.Hands(player);
    if !CanSplitHand(hands) then
      Err(CannotSplit)
    else
      Ok(state
        .WithHands(player, SplitHand(hands).value)
        .(currentTurn := Other(state.currentTurn), lastMove := Some(Split(player, sourceHand, targetHand))))
  }

  /** `applySplit`: check eligibility, then update a copy field by field. */
  method ApplySplit(state: GameState, player: Player, sourceHand: Hand, targetHand: Hand)
    returns (r: Result<GameState>)
    ensures r == AfterSplit(state, player, sourceHand, targetHand)
  {
    var newState := state;
    if !CanSplitHand(newState.Hands(player)) {
      return Err(CannotSplit);
    }
    newState := newState.WithHands(player, SplitHand(newState.Hands(player)).value);
    newState := newState.(currentTurn := if newState.currentTurn == Human then Bot else Human);
    newState := newState.(lastMove := Some(Split(player, sourceHand, targetHand)));
    r := Ok(newState);
  }

  /**
    `checkGameOver`: the human loses when both of their hands are empty; failing
    that, the human wins when both bot hands are empty; otherwise the status is
    kept. Only the status can change, and a finished game is never resumed.
   */
  function CheckGameOver(state: GameState): (r: GameState)
    ensures r.player == state.player && r.bot == state.bot
    ensures r.currentTurn == state.currentTurn && r.lastMove == state.lastMove
    ensures BothEmpty(state.player) ==> r.status == Lost
    ensures !BothEmpty(state.player) && BothEmpty(state.bot) ==> r.status == Won
    ensures !BothEmpty(state.player) && !BothEmpty(state.bot) ==> r == state
    ensures state.status != Ongoing ==> r.status != Ongoing
  {
    if state.player.left == 0 && state.player.right == 0 then
      state.(status := Lost)
    else if state.bot.left == 0 && state.bot.right == 0 then
      state.(status := Won)
    else
      state
  }

  /** Checking twice is the same as checking once. */
  lemma CheckGameOverIdempotent(state: GameState)
    ensures CheckGameOver(CheckGameOver(state)) == CheckGameOver(state)
  {
  }

  /** A status of `Ongoing` after the check means both sides still have a hand in play. */
  lemma OngoingMeansBothSidesPlay(state: GameState)
    requires ValidState(state)
    requires CheckGameOver(state).status == Ongoing
    ensures state.status == Ongoing && CheckGameOver(state) == state
    ensures state.player.left > 0 || state.player.right > 0
    ensures state.bot.left > 0 || state.bot.right > 0
  {
  }
}
