/**
  Turn orchestration (src/lib/stores/gameStore.ts): the store holds one game
  state; a human move or split is applied, the game-over check runs, and then,
  if the game goes on and it is the bot's turn, the bot moves and the check
  runs again. The bot's random draws are passed in as `rand` (see BotAI).
 */
module Store {
  import opened GameTypes
  import opened GameRules
  import opened BotAI

  /** `initialState`: both sides on {1, 1}, the human to move, nothing played. */
  const InitialState: GameState := GameState(HandState(1, 1), HandState(1, 1), Human, Ongoing, None)

  /**
    The dispatch in `executeBotMove`: a transfer goes through `applyMove`, a
    split through `applySplit`, each with the move's own fields. A move the
    bot may play is always accepted.
   */
  function AfterBotMove(state: GameState, m: Move): (r: Result<GameState>)
    ensures m in ValidMoves(state) ==> r.Ok?
    ensures r.Err? ==> r.error == CannotSplit
    ensures r.Ok? ==> r.value.lastMove == Some(m) && r.value.status == state.status
    ensures r.Ok? ==> r.value.currentTurn == Other(state.currentTurn)
    ensures r.Ok? && m in ValidMoves(state) && m.Regular? ==>
              r.value.bot == state.bot &&
              r.value.player.Get(m.targetHand) == AddFingers(state.bot.Get(m.sourceHand), state.player.Get(m.targetHand)) &&
              (forall h :: h != m.targetHand ==> r.value.player.Get(h) == state.player.Get(h))
    ensures r.Ok? && m in ValidMoves(state) && m.Split? ==>
              r.value.player == state.player &&
              r.value.bot == HandState(state.bot.Total() / 2, state.bot.Total() / 2)
    ensures r.Ok? && ValidState(state) ==> ValidState(r.value)
  {
    ValidMovesMembers(state, m);
    match m
    case Regular(sourcePlayer, sourceHand, targetPlayer, targetHand) =>
      Ok(AfterMove(state, sourcePlayer, sourceHand, targetPlayer, targetHand))
    case Split(player, sourceHand, targetHand) =>
      AfterSplit(state, player, sourceHand, targetHand)
  }

  /**
    The outcome of `executeBotMove`: the bot's chosen move is applied and the
    game-over check runs. The move played is recorded, the turn passes back,
    and unless a side has been emptied the status is kept.
   */
  function AfterBotTurn(state: GameState, rand: nat -> real): (r: Result<GameState>)
    requires IsRandomStream(rand)
    ensures r.Ok? <==> BotChoice(state, rand).Ok?
    ensures r.Err? ==> r.error == NoValidMoves
    ensures r.Ok? ==> r.value.lastMove == Some(BotChoice(state, rand).value)
    ensures r.Ok? ==> r.value.currentTurn == Other(state.currentTurn)
    ensures r.Ok? && BotChoice(state, rand).value.Regular? ==>
              var m := BotChoice(state, rand).value;
              r.value.bot == state.bot &&
              r.value.player.Get(m.targetHand) == AddFingers(state.bot.Get(m.sourceHand), state.player.Get(m.targetHand)) &&
              (forall h :: h != m.targetHand ==> r.value.player.Get(h) == state.player.Get(h))
    ensures r.Ok? && BotChoice(state, rand).value.Split? ==>
              r.value.player == state.player &&
              r.value.bot == HandState(state.bot.Total() / 2, state.bot.Total() / 2)
    ensures r.Ok? ==> CheckGameOver(r.value) == r.value
    ensures r.Ok? && !BothEmpty(r.value.player) && !BothEmpty(r.value.bot) ==> r.value.status == state.status
    ensures r.Ok? && ValidState(state) ==> ValidState(r.value)
  {
    match BotChoice(state, rand)
    case Err(e) => Err(e)
    case Ok(m) => Ok(CheckGameOver(AfterBotMove(state, m).value))
  }

  /** `executeBotMove`. */
  method ExecuteBotMove(state: GameState, rand: nat -> real) returns (r: Result<GameState>)
    requires IsRandomStream(rand)
    ensures r == AfterBotTurn(state, rand)
  {
    var botMove := GetBotMove(state, rand);
    if botMove.Err? {
      return Err(botMove.error);
    }
    var newState;
    match botMove.value {
      case Regular(sourcePlayer, sourceHand, targetPlayer, targetHand) =>
        newState := ApplyMove(state, sourcePlayer, sourceHand, targetPlayer, targetHand);
      case Split(player, sourceHand, targetHand) =>
        var split := ApplySplit(state, player, sourceHand, targetHand);
        if split.Err? {
          return Err(split.error);
        }
        newState := split.value;
    }
    r := Ok(CheckGameOver(newState));
  }

  /**
    The bot replies only when, after the game-over check, the game is still
    ongoing and it is the bot's turn; otherwise the state stands.
   */
  function BotReply(state: GameState, rand: nat -> real): (r: Result<GameState>)
    requires IsRandomStream(rand)
    ensures state.status != Ongoing || state.currentTurn != Bot ==> r == Ok(state)
    ensures state.status == Ongoing && state.currentTurn == Bot && r.Ok? ==>
              r.value.currentTurn == Human && r.value.lastMove.Some? && r.value.lastMove.value in ValidMoves(state)
  {
    if state.status == Ongoing && state.currentTurn == Bot then AfterBotTurn(state, rand) else Ok(state)
  }

  /** A reply to a state in range that the check leaves as it is never fails and stays in range. */
  lemma BotReplySucceeds(state: GameState, rand: nat -> real)
    requires ValidState(state) && IsRandomStream(rand)
    requires CheckGameOver(state) == state
    ensures BotReply(state, rand).Ok? && ValidState(BotReply(state, rand).value)
  {
    if state.status == Ongoing && state.currentTurn == Bot {
      BotTurnSucceeds(state, rand);
    }
  }

  /**
    The bot always has a move once the check has left the game ongoing: its
    turn succeeds, keeps every hand in range and plays one of its valid moves.
   */
  lemma BotTurnSucceeds(state: GameState, rand: nat -> real)
    requires ValidState(state) && IsRandomStream(rand)
    requires CheckGameOver(state).status == Ongoing
    ensures AfterBotTurn(state, rand).Ok?
    ensures ValidState(AfterBotTurn(state, rand).value)
    ensures AfterBotTurn(state, rand).value.lastMove.value in ValidMoves(state)
  {
    OngoingMeansBothSidesPlay(state);
    ValidMovesNonEmpty(state);
    var m := BotChoice(state, rand).value;
    ValidMovesMembers(state, m);
  }

  /**
    After a human move, the store's reply never fails, and the human is to
    move again exactly when their move did not end the game (the turn flips
    twice); otherwise it stays with the bot.
   */
  lemma HumanMoveThenReply(state: GameState, sourcePlayer: Player, sourceHand: Hand,
                           targetPlayer: Player, targetHand: Hand, rand: nat -> real)
    requires ValidState(state) && IsRandomStream(rand)
    requires state.currentTurn == Human
    ensures var human := CheckGameOver(AfterMove(state, sourcePlayer, sourceHand, targetPlayer, targetHand));
            var reply := BotReply(human, rand);
            reply.Ok? && ValidState(reply.value) &&
            (reply.value.currentTurn == Human <==> human.status == Ongoing)
  {
    var human := CheckGameOver(AfterMove(state, sourcePlayer, sourceHand, targetPlayer, targetHand));
    if human.status == Ongoing {
      CheckGameOverIdempotent(human);
      BotTurnSucceeds(human, rand);
    }
  }

  /**
    After an allowed split, the store's reply never fails; a human split hands
    the turn back to the human exactly when the game goes on, and a bot split
    always hands it to the human.
   */
  lemma SplitThenReply(state: GameState, player: Player, sourceHand: Hand, targetHand: Hand, rand: nat -> real)
    requires ValidState(state) && IsRandomStream(rand)
    requires state.currentTurn == player && CanSplitHand(state.Hands(player))
    ensures var split := CheckGameOver(AfterSplit(state, player, sourceHand, targetHand).value);
            var reply := BotReply(split, rand);
            reply.Ok? && ValidState(reply.value) &&
            (player == Human ==> (reply.value.currentTurn == Human <==> split.status == Ongoing)) &&
            (player == Bot ==> reply.value == split && reply.value.currentTurn == Human)
  {
    var split := CheckGameOver(AfterSplit(state, player, sourceHand, targetHand).value);
    if split.status == Ongoing && split.currentTurn == Bot {
      CheckGameOverIdempotent(split);
      BotTurnSucceeds(split, rand);
    }
  }

  /** The store (`createGameStore`): one held game state. */
  class GameStore {
    var state: GameState

    /** Every hand of the held state is in range. */
    ghost predicate Valid()
      reads this
    {
      ValidState(state)
    }

    /** The store starts from `initialState`. */
    constructor ()
      ensures Valid() && state == InitialState
    {
      state := InitialState;
    }

    /**
      `playHand`: ignored unless the game is ongoing and it is the human's
      turn; otherwise the move is applied, the game-over check runs, and the
      bot replies if the game goes on. An error from the bot's move would
      propagate to the caller with the state kept; it never happens.
     */
    method PlayHand(sourcePlayer: Player, sourceHand: Hand, targetPlayer: Player, targetHand: Hand,
                    rand: nat -> real) returns (err: Option<GameError>)
      requires Valid() && IsRandomStream(rand)
      modifies this
      ensures Valid() && err == None
      ensures old(state).status != Ongoing || old(state).currentTurn != Human ==> state == old(state)
      ensures old(state).status == Ongoing && old(state).currentTurn == Human ==>
                var human := CheckGameOver(AfterMove(old(state), sourcePlayer, sourceHand, targetPlayer, targetHand));
                BotReply(human, rand) == Ok(state) &&
                (state.currentTurn == Human <==> human.status == Ongoing)
    {
      if state.status != Ongoing || state.currentTurn != Human {
        return None;
      }
      HumanMoveThenReply(state, sourcePlayer, sourceHand, targetPlayer, targetHand, rand);

      var newState := ApplyMove(state, sourcePlayer, sourceHand, targetPlayer, targetHand);
      newState := CheckGameOver(newState);

      if newState.status == Ongoing && newState.currentTurn == Bot {
        var reply := ExecuteBotMove(newState, rand);
        match reply {
          case Err(e) =>
            return Some(e);
          case Ok(next) =>
            newState := next;
        }
      }

      state := newState;
      err := None;
    }

    /**
      `splitHand`: ignored unless the game is ongoing and it is `player`'s
      turn; a refused split, or a failing bot reply, leaves the state as it
      was. Otherwise the split is applied, the game-over check runs, and the
      bot replies if the game goes on and it is the bot's turn.
     */
    method SplitHand(player: Player, sourceHand: Hand, targetHand: Hand, rand: nat -> real)
      requires Valid() && IsRandomStream(rand)
      modifies this
      ensures Valid()
      ensures old(state).status != Ongoing || old(state).currentTurn != player ==> state == old(state)
      ensures !CanSplitHand(old(state).Hands(player)) ==> state == old(state)
      ensures old(state).status == Ongoing && old(state).currentTurn == player && CanSplitHand(old(state).Hands(player)) ==>
                var split := CheckGameOver(AfterSplit(old(state), player, sourceHand, targetHand).value);
                BotReply(split, rand) == Ok(state) &&
                (player == Human ==> (state.currentTurn == Human <==> split.status == Ongoing)) &&
                (player == Bot ==> state.currentTurn == Human)
    {
      if state.status != Ongoing || state.currentTurn != player {
        return;
      }
      var split := ApplySplit(state, player, sourceHand, targetHand);
      match split
      case Err(_) =>
        return;
      case Ok(next) =>
        SplitThenReply(state, player, sourceHand, targetHand, rand);
        var newState := CheckGameOver(next);
        if newState.status == Ongoing && newState.currentTurn == Bot {
          var reply := ExecuteBotMove(newState, rand);
          match reply {
            case Err(_) =>
              return;
            case Ok(after) =>
              newState := after;
          }
        }
        state := newState;
    }

    /** `resetGame`: back to `initialState`. */
    method ResetGame()
      modifies this
      ensures Valid() && state == InitialState
    {
      state := InitialState;
    }

    /** `setGameStatus`: only the status changes. */
    method SetGameStatus(status: GameStatus)
      requires Valid()
      modifies this
      ensures Valid() && state == old(state).(status := status)
    {
      state := state.(status := status);
    }
  }
}
