/**
  The values the chopsticks game is played over: hands, sides, status, moves
  and the whole game state (src/lib/types/gameTypes.ts).
 */
module GameTypes {

  /** One of a side's two hands. */
  datatype Hand = Left | Right

  /** The two sides; `Human` is the side the source calls 'player'. */
  datatype Player = Human | Bot

  /** Game status from the human's point of view. */
  datatype GameStatus = Ongoing | Won | Lost

  /** The finger counts of one side's two hands. */
  datatype HandState = HandState(left: int, right: int)
  {
    /** The count held by hand `h` (the source's `hand[h]`). */
    function Get(h: Hand): int {
      match h
      case Left => left
      case Right => right
    }

    /** This pair with hand `h` set to `v`. */
    function With(h: Hand, v: int): (r: HandState)
      ensures r.Get(h) == v
      ensures forall g :: g != h ==> r.Get(g) == Get(g)
    {
      match h
      case Left => this.(left := v)
      case Right => this.(right := v)
    }

    /** Sum of both hands. */
    function Total(): int {
      left + right
    }
  }

  /** A move as recorded in `lastMove`: a transfer or a split. */
  datatype Move =
    | Regular(sourcePlayer: Player, sourceHand: Hand, targetPlayer: Player, targetHand: Hand)
    | Split(player: Player, sourceHand: Hand, targetHand: Hand)

  datatype Option<T> = None | Some(value: T)

  datatype GameState = GameState(
    player: HandState,
    bot: HandState,
    currentTurn: Player,
    status: GameStatus,
    lastMove: Option<Move>)
  {
    /** The hands of side `p` (the source's `state[p]`). */
    function Hands(p: Player): HandState {
      match p
      case Human => player
      case Bot => bot
    }

    /** This state with the hands of side `p` replaced by `hs`. */
    function WithHands(p: Player, hs: HandState): (r: GameState)
      ensures r.Hands(p) == hs
      ensures r.Hands(Other(p)) == Hands(Other(p))
      ensures r.currentTurn == currentTurn && r.status == status && r.lastMove == lastMove
    {
      match p
      case Human => this.(player := hs)
      case Bot => this.(bot := hs)
    }
  }

  /** The opposing side. */
  function Other(p: Player): (q: Player)
    ensures q != p
  {
    match p
    case Human => Bot
    case Bot => Human
  }

  /** The two errors the source throws. */
  datatype GameError =
    | CannotSplit   // "Cannot split this hand"
    | NoValidMoves  // "No valid moves available"

  datatype Result<T> = Ok(value: T) | Err(error: GameError)

  /** A hand count the game can reach. */
  predicate ValidCount(n: int) {
    0 <= n <= 4
  }

  predicate ValidHand(h: HandState) {
    ValidCount(h.left) && ValidCount(h.right)
  }

  /** The range invariant: every hand of both sides holds 0 to 4 fingers. */
  predicate ValidState(s: GameState) {
    ValidHand(s.player) && ValidHand(s.bot)
  }
}
