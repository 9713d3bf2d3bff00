/**
 * The rules engine as the GUI sees it. The engine itself is not part of this
 * model: a game is its reported state plus a ghost log of the calls the GUI
 * made into it, and the engine's answers are supplied by the caller.
 */
module Engine {

  /** The engine's game states; the GUI only tests for WaitingOnPromotionChoice. */
  datatype GameState = InProgress | Check | GameOver | WaitingOnPromotionChoice

  /** The result of `make_move`: Ok, or Err with the engine's message. */
  datatype MoveResult = Ok | Err(message: string)

  /** A state-changing call the GUI made into the engine. */
  datatype Call = MakeMoveCall(from: string, to: string) | SetPromotionCall(kind: string)

  /** How the engine answers one `make_move`: its result and the state it moves to. */
  datatype MoveReply = MoveReply(result: MoveResult, next: GameState)

  /** One `chess_template::Game`. */
  class Game {
    var state: GameState
    ghost var log: seq<Call>

    /** `Game::new()`: the starting position, in progress, with no calls made. */
    constructor ()
      ensures state == InProgress && log == []
    {
      state := InProgress;
      log := [];
    }

    /** `make_move(from, to)`: logged once; the result and the new state are the engine's. */
    method MakeMove(from: string, to: string, reply: MoveReply) returns (r: MoveResult)
      modifies this
      ensures log == old(log) + [MakeMoveCall(from, to)]
      ensures r == reply.result && state == reply.next
    {
      log := log + [MakeMoveCall(from, to)];
      state := reply.next;
      r := reply.result;
    }

    /** `get_game_state()`. */
    function GetGameState(): (s: GameState)
      reads this
    {
      state
    }

    /** `set_promotion(kind)`: logged once; the new state is the engine's. */
    method SetPromotion(kind: string, next: GameState)
      modifies this
      ensures log == old(log) + [SetPromotionCall(kind)]
      ensures state == next
    {
      log := log + [SetPromotionCall(kind)];
      state := next;
    }
  }

  /** The part of `App` the input handling touches: its own game. */
  class App {
    const game: Game

    /** `App::new()`: a fresh game of its own. */
    constructor ()
      ensures fresh(game)
      ensures game.state == InProgress && game.log == []
    {
      game := new Game();
    }
  }
}
