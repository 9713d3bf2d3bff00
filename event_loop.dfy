/**
 * The input handling of the GUI's `main` loop. Moves take two left presses:
 * the first picks up the square under the mouse, the second asks `app.game`
 * to move from that square to the one under the mouse. A right press replaces
 * `app` and the local `game` with fresh ones. The four arrow keys choose a
 * promotion, but only when the local `game` reports that it waits for one.
 */
module EventLoop {
  import opened Wrappers
  import opened Coordinates
  import opened Engine

  datatype ArrowKey = LeftKey | UpKey | RightKey | DownKey

  /** What the GUI reports for a left press (its `println!` lines, and the panic). */
  datatype Report =
    | PickedUp(from: string)
    | MoveOk(from: string, to: string)
    | MoveErr(message: string, from: string, to: string)
    | Panicked(y: int)

  /**
   * One event of the loop. A left click carries the engine's answer to the
   * move it may cause; an arrow key carries the state the engine moves to if
   * it accepts a promotion.
   */
  datatype Event =
    | RenderTick
    | UpdateTick
    | Cursor(x: I16, y: I16)
    | LeftClick(reply: MoveReply)
    | RightClick
    | Arrow(key: ArrowKey, next: GameState)
    | OtherPress

  /** The piece each arrow key promotes to. */
  function PromotionKind(key: ArrowKey): (kind: string)
  {
    match key
    case LeftKey => "queen"
    case UpKey => "rook"
    case RightKey => "bishop"
    case DownKey => "knight"
  }

  /** Each of the four keys picks its own piece, and between them they offer all four. */
  lemma PromotionKinds(key: ArrowKey, key': ArrowKey)
    ensures PromotionKind(key) == PromotionKind(key') <==> key == key'
    ensures PromotionKind(key) in {"queen", "rook", "bishop", "knight"}
  {
    assert "queen" != "rook" && "queen" != "bishop" && "queen" != "knight";
    assert "rook" != "bishop" && "rook" != "knight" && "bishop" != "knight";
  }

  /** The engine report for the answer to a move from `from` to `to`. */
  function MoveReport(result: MoveResult, from: string, to: string): (r: Report)
  {
    match result
    case Ok => MoveOk(from, to)
    case Err(message) => MoveErr(message, from, to)
  }

  /** What the loop can observe of one game: its reported state and the calls made into it. */
  datatype GameView = GameView(state: GameState, log: seq<Call>)

  /** A game as `Game::new()` leaves it. */
  const NewGame: GameView := GameView(InProgress, [])

  /**
   * The variables of `main` as a value: the pending move, the mouse position,
   * the game moves go to (`app.game`) and the game promotions go to (`game`).
   */
  datatype LoopState = LoopState(
    moveInProgress: bool, startSquare: string, mouseX: I16, mouseY: I16,
    moveGame: GameView, promotionGame: GameView)

  /** The state before the first event. */
  const Initial: LoopState := LoopState(false, "a0", 0, 0, NewGame, NewGame)

  /**
   * What one event does to the loop's variables, and the report it prints.
   * Only a left press reports, a panic changes nothing, and no event moves
   * the promotion game away from its starting state.
   */
  function Step(s: LoopState, e: Event): (r: (LoopState, Option<Report>))
    ensures r.1.Some? <==> e.LeftClick?
    ensures r.1.Some? && r.1.value.Panicked? ==> r.0 == s
    ensures s.promotionGame == NewGame ==> r.0.promotionGame == NewGame
  {
    match e
    case RenderTick => (s, None)
    case UpdateTick => (s, None)
    case OtherPress => (s, None)
    case Cursor(x, y) => (s.(mouseX := x, mouseY := y), None)
    case LeftClick(reply) =>
      (match CoordsToSquare(s.mouseX, s.mouseY)
       case None => (s, Some(Panicked(s.mouseY)))
       case Some(square) =>
         if s.moveInProgress then
           var moved := GameView(reply.next, s.moveGame.log + [MakeMoveCall(s.startSquare, square)]);
           (s.(moveInProgress := false, moveGame := moved),
            Some(MoveReport(reply.result, s.startSquare, square)))
         else
           (s.(moveInProgress := true, startSquare := square), Some(PickedUp(square))))
    case RightClick => (s.(moveGame := NewGame, promotionGame := NewGame), None)
    case Arrow(key, next) =>
      if s.promotionGame.state == WaitingOnPromotionChoice then
        var promoted := GameView(next, s.promotionGame.log + [SetPromotionCall(PromotionKind(key))]);
        (s.(promotionGame := promoted), None)
      else
        (s, None)
  }

  /** The result of running the loop: the final state, the reports, and how many events were taken. */
  datatype Outcome = Outcome(final: LoopState, reports: seq<Report>, handled: nat)

  /** The loop over a stream of events: one Step per event, stopping after a panic. */
  function Steps(s: LoopState, events: seq<Event>): (o: Outcome)
    ensures o.handled <= |events|
    ensures events != [] ==> 0 < o.handled
    decreases |events|
  {
    if events == [] then Outcome(s, [], 0)
    else
      var (s', report) := Step(s, events[0]);
      var emitted := if report.Some? then [report.value] else [];
      if report.Some? && report.value.Panicked? then Outcome(s', emitted, 1)
      else
        var rest := Steps(s', events[1..]);
        Outcome(rest.final, emitted + rest.reports, 1 + rest.handled)
  }

  /**
   * After the first `i` events, which printed `reports`, the loop in state `s`
   * is on course for the outcome of the whole stream from `start`.
   */
  ghost predicate Resumes(start: LoopState, events: seq<Event>, i: nat, reports: seq<Report>, s: LoopState)
    requires i <= |events|
  {
    var rest := Steps(s, events[i..]);
    Steps(start, events) == Outcome(rest.final, reports + rest.reports, i + rest.handled)
  }

  /** One more event keeps the loop on course, and a panic ends it with the whole outcome. */
  lemma ResumesStep(start: LoopState, events: seq<Event>, i: nat, reports: seq<Report>, s: LoopState)
    requires i < |events| && Resumes(start, events, i, reports, s)
    ensures var (s', report) := Step(s, events[i]);
      var reports' := if report.Some? then reports + [report.value] else reports;
      if report.Some? && report.value.Panicked? then
        Steps(start, events).final == s' && Steps(start, events).reports == reports'
      else
        Resumes(start, events, i + 1, reports', s')
  {
    assert events[i..][0] == events[i] && events[i..][1..] == events[i + 1..];
    var (s', report) := Step(s, events[i]);
    if !(report.Some? && report.value.Panicked?) {
      var rest := Steps(s', events[i + 1..]);
      var emitted := if report.Some? then [report.value] else [];
      assert reports + (emitted + rest.reports) == (reports + emitted) + rest.reports;
    }
  }

  /** What the callers of the loop rely on: its reports are bounded, and the promotion game stays new. */
  lemma RunOutcome(s: LoopState, events: seq<Event>)
    ensures |Steps(s, events).reports| <= |events|
    ensures forall j :: 0 <= j < |Steps(s, events).reports| - 1 ==> !Steps(s, events).reports[j].Panicked?
    ensures s.promotionGame == NewGame ==> Steps(s, events).final.promotionGame == NewGame
  {
    StepsReportEachPress(s, events);
    if s.promotionGame == NewGame {
      StepsKeepPromotionGame(s, events);
    }
  }

  /** The number of left presses in a stream of events. */
  function LeftClicks(events: seq<Event>): (n: nat)
    ensures n <= |events|
  {
    if events == [] then 0 else (if events[0].LeftClick? then 1 else 0) + LeftClicks(events[1..])
  }

  /**
   * Every left press the loop takes is reported exactly once, and handling
   * stops at the first panic: events are left over only after a Panicked
   * report, and no report before the last one is a panic.
   */
  lemma {:induction false} StepsReportEachPress(s: LoopState, events: seq<Event>)
    ensures |Steps(s, events).reports| == LeftClicks(events[..Steps(s, events).handled])
    ensures Steps(s, events).handled < |events| ==>
      var reports := Steps(s, events).reports;
      reports != [] && reports[|reports| - 1].Panicked?
    ensures forall j :: 0 <= j < |Steps(s, events).reports| - 1 ==> !Steps(s, events).reports[j].Panicked?
    decreases |events|
  {
    if events != [] {
      var (s', report) := Step(s, events[0]);
      var o := Steps(s, events);
      if report.Some? && report.value.Panicked? {
        assert events[..1] == [events[0]];
        assert LeftClicks(events[..1]) == 1 + LeftClicks(events[..1][1..]);
      } else {
        StepsReportEachPress(s', events[1..]);
        var rest := Steps(s', events[1..]);
        var prefix := events[..o.handled];
        assert prefix[0] == events[0] && prefix[1..] == events[1..][..rest.handled];
        var emitted := if report.Some? then [report.value] else [];
        assert o.reports == emitted + rest.reports;
        forall j | 0 <= j < |o.reports| - 1
          ensures !o.reports[j].Panicked?
        {
          if j >= |emitted| {
            assert o.reports[j] == rest.reports[j - |emitted|];
          }
        }
        if o.handled < |events| && emitted != [] {
          assert o.reports[|o.reports| - 1] == rest.reports[|rest.reports| - 1];
        }
      }
    }
  }

  /**
   * From a promotion game in its starting state, the loop never moves it:
   * whatever the events, it ends with no calls made and still in progress.
   */
  lemma {:induction false} StepsKeepPromotionGame(s: LoopState, events: seq<Event>)
    requires s.promotionGame == NewGame
    ensures Steps(s, events).final.promotionGame == NewGame
    decreases |events|
  {
    if events != [] {
      var (s', report) := Step(s, events[0]);
      if !(report.Some? && report.value.Panicked?) {
        StepsKeepPromotionGame(s', events[1..]);
      }
    }
  }

  /** The local variables of `main` that the event handlers read and write. */
  class EventLoop {
    var moveInProgress: bool
    var startSquare: string
    var mouseX: I16
    var mouseY: I16
    /** Moves go to `app.game`. */
    var app: App
    /** Promotions go to this second game. */
    var game: Game

    /** The two games are distinct objects. */
    ghost predicate Valid()
      reads this, app
    {
      app.game != game
    }

    /** The promotion game has never been called and is still in its starting state. */
    ghost predicate PromotionGameUntouched()
      reads this, game
    {
      game.log == [] && game.state == InProgress
    }

    /** The loop's variables and both games, as a value. */
    ghost function Abstract(): (s: LoopState)
      reads this, app, app.game, game
    {
      LoopState(moveInProgress, startSquare, mouseX, mouseY,
                GameView(app.game.state, app.game.log), GameView(game.state, game.log))
    }

    /** The set-up before the loop: no move in progress, start square "a0", mouse at (0, 0). */
    constructor ()
      ensures Valid() && PromotionGameUntouched()
      ensures !moveInProgress && startSquare == "a0" && mouseX == 0 && mouseY == 0
      ensures fresh(app) && fresh(app.game) && fresh(game)
      ensures app.game.state == InProgress && app.game.log == []
      ensures Abstract() == Initial
    {
      moveInProgress := false;
      game := new Game();
      app := new App();
      mouseX, mouseY := 0, 0;
      startSquare := "a0";
    }

    /** A cursor event only records the mouse position. */
    method CursorMoved(x: I16, y: I16)
      modifies this
      ensures mouseX == x && mouseY == y
      ensures moveInProgress == old(moveInProgress) && startSquare == old(startSquare)
      ensures app == old(app) && game == old(game)
      ensures Step(old(Abstract()), Cursor(x, y)) == (Abstract(), None)
    {
      mouseX, mouseY := x, y;
    }

    /**
     * A left press. With no move in progress it picks up the square under the
     * mouse and calls nothing; with a move in progress it makes exactly one
     * `app.game.make_move(start, square)` and ends the move, whatever the
     * engine answers. When the mouse is in a row `coords_to_square` panics on,
     * the press reports the panic and nothing has changed.
     */
    method LeftPress(reply: MoveReply) returns (report: Report)
      requires Valid()
      modifies this, app.game
      ensures Valid() && app == old(app) && game == old(game) && unchanged(game)
      ensures mouseX == old(mouseX) && mouseY == old(mouseY)
      ensures match CoordsToSquare(old(mouseX), old(mouseY))
        case None =>
          && report == Panicked(old(mouseY))
          && moveInProgress == old(moveInProgress) && startSquare == old(startSquare)
          && unchanged(app.game)
        case Some(square) =>
          if old(moveInProgress) then
            && !moveInProgress && startSquare == old(startSquare)
            && app.game.log == old(app.game.log) + [MakeMoveCall(old(startSquare), square)]
            && app.game.state == reply.next
            && report == MoveReport(reply.result, old(startSquare), square)
          else
            && moveInProgress && startSquare == square
            && unchanged(app.game)
            && report == PickedUp(square)
      ensures Step(old(Abstract()), LeftClick(reply)) == (Abstract(), Some(report))
    {
      var mapped := CoordsToSquare(mouseX, mouseY);
      if mapped.None? {
        report := Panicked(mouseY);
        return;
      }
      var square := mapped.value;
      if !moveInProgress {
        startSquare := square;
        report := PickedUp(square);
        moveInProgress := true;
      } else {
        var result := app.game.MakeMove(startSquare, square, reply);
        report := MoveReport(result, startSquare, square);
        moveInProgress := false;
      }
    }

    /**
     * A right press replaces `app` (and so `app.game`) and `game` with fresh
     * ones; the pending move and the mouse position are left as they were.
     */
    method RightPress()
      requires Valid()
      modifies this
      ensures Valid() && PromotionGameUntouched()
      ensures fresh(app) && fresh(app.game) && fresh(game)
      ensures app.game.state == InProgress && app.game.log == []
      ensures moveInProgress == old(moveInProgress) && startSquare == old(startSquare)
      ensures mouseX == old(mouseX) && mouseY == old(mouseY)
      ensures Step(old(Abstract()), RightClick) == (Abstract(), None)
    {
      app := new App();
      game := new Game();
    }

    /**
     * An arrow key: exactly one `game.set_promotion` with the key's piece when
     * the local `game` waits on a promotion choice, and no effect otherwise.
     */
    method PromotionKey(key: ArrowKey, next: GameState)
      requires Valid()
      modifies game
      ensures unchanged(app.game)
      ensures if old(game.state) == WaitingOnPromotionChoice then
                game.log == old(game.log) + [SetPromotionCall(PromotionKind(key))] && game.state == next
              else
                unchanged(game)
      ensures Step(old(Abstract()), Arrow(key, next)) == (Abstract(), None)
    {
      if game.GetGameState() == WaitingOnPromotionChoice {
        game.SetPromotion(PromotionKind(key), next);
      }
    }

    /** The body of the loop: one event goes to its handler. */
    method Handle(e: Event) returns (report: Option<Report>)
      requires Valid()
      modifies this, app.game, game
      ensures Valid()
      ensures app.game == old(app.game) || fresh(app.game)
      ensures game == old(game) || fresh(game)
      ensures Step(old(Abstract()), e) == (Abstract(), report)
    {
      match e {
        case RenderTick =>
        case UpdateTick =>
        case Cursor(x, y) =>
          CursorMoved(x, y);
        case LeftClick(reply) =>
          var r := LeftPress(reply);
          report := Some(r);
        case RightClick =>
          RightPress();
        case Arrow(key, next) =>
          PromotionKey(key, next);
        case OtherPress =>
      }
      if !e.LeftClick? {
        report := None;
      }
    }

    /**
     * The `while let Some(e) = events.next(..)` loop over a finite stream of
     * events: each event goes to its handler, in order, and the loop stops
     * after a panic. The final state and the reports are those of Steps.
     */
    method Run(events: seq<Event>) returns (reports: seq<Report>)
      requires Valid()
      modifies this, app.game, game
      ensures Valid()
      ensures Abstract() == Steps(old(Abstract()), events).final
      ensures reports == Steps(old(Abstract()), events).reports
      ensures old(PromotionGameUntouched()) ==> PromotionGameUntouched()
      ensures |reports| <= |events|
      ensures forall i :: 0 <= i < |reports| - 1 ==> !reports[i].Panicked?
    {
      ghost var start := Abstract();
      reports := [];
      var i := 0;
      while i < |events|
        invariant 0 <= i <= |events|
        invariant Valid()
        invariant app.game == old(app.game) || fresh(app.game)
        invariant game == old(game) || fresh(game)
        invariant Resumes(start, events, i, reports, Abstract())
      {
        ResumesStep(start, events, i, reports, Abstract());
        var report := Handle(events[i]);
        if report.Some? {
          reports := reports + [report.value];
          if report.value.Panicked? {
            RunOutcome(start, events);
            return;
          }
        }
        i := i + 1;
      }
      RunOutcome(start, events);
    }

    /** Corrected right press: also drops the pending move, so the next left press picks up. */
    method RightPressToIdle()
      requires Valid()
      modifies this
      ensures Valid() && PromotionGameUntouched()
      ensures fresh(app) && fresh(app.game) && fresh(game)
      ensures app.game.state == InProgress && app.game.log == []
      ensures !moveInProgress && startSquare == old(startSquare)
      ensures mouseX == old(mouseX) && mouseY == old(mouseY)
    {
      app := new App();
      game := new Game();
      moveInProgress := false;
    }

    /**
     * Corrected arrow key: the promotion is asked of, and made in, `app.game`,
     * the game the moves are made in.
     */
    method PromotionKeyOnMoveGame(key: ArrowKey, next: GameState)
      requires Valid()
      modifies app.game
      ensures unchanged(game)
      ensures if old(app.game.state) == WaitingOnPromotionChoice then
                app.game.log == old(app.game.log) + [SetPromotionCall(PromotionKind(key))]
                && app.game.state == next
              else
                unchanged(app.game)
    {
      if app.game.GetGameState() == WaitingOnPromotionChoice {
        app.game.SetPromotion(PromotionKind(key), next);
      }
    }
  }

  /**
   * The whole program from start-up over a stream of events: the local
   * promotion game ends in its starting state whatever the events were.
   */
  method RunProgram(events: seq<Event>) returns (reports: seq<Report>, promotionState: GameState)
    ensures reports == Steps(Initial, events).reports
    ensures |reports| <= |events|
    ensures promotionState == InProgress
  {
    var loop := new EventLoop();
    reports := loop.Run(events);
    StepsKeepPromotionGame(Initial, events);
    promotionState := loop.game.GetGameState();
  }

  /** The pixels the scenarios below press on. */
  lemma CornerSquares()
    ensures CoordsToSquare(650, 50) == Some("a8")
    ensures CoordsToSquare(10, 650) == Some("h1")
    ensures CoordsToSquare(10, 570) == Some("h2")
  {
    CoordsInBoard(650, 50);
    CoordsInBoard(10, 650);
    CoordsInBoard(10, 570);
    assert CellSquare(0, 7) == "a8" && CellSquare(7, 0) == "h1" && CellSquare(6, 0) == "h2";
  }

  /**
   * Two left presses at (650, 50) and then (10, 650) pick up "a8" and make the
   * move "a8"-"h1" in `app.game`; a third press starts a new pick-up at "h1".
   */
  method TwoClickProtocol(first: MoveReply, second: MoveReply) returns (reports: seq<Report>)
    ensures reports == [PickedUp("a8"), MoveReport(first.result, "a8", "h1"), PickedUp("h1")]
  {
    var loop := new EventLoop();
    CornerSquares();
    loop.CursorMoved(650, 50);
    var r1 := loop.LeftPress(first);
    loop.CursorMoved(10, 650);
    var r2 := loop.LeftPress(first);
    assert loop.app.game.log == [MakeMoveCall("a8", "h1")];
    var r3 := loop.LeftPress(second);
    assert loop.app.game.log == [MakeMoveCall("a8", "h1")] && loop.moveInProgress;
    reports := [r1, r2, r3];
  }

  /**
   * As written: a move that leaves `app.game` waiting on a promotion choice,
   * followed by any arrow key, leaves it waiting, because the key consults
   * the other game.
   */
  method PromotionKeyIgnored(result: MoveResult, key: ArrowKey, next: GameState) returns (pending: GameState)
    ensures pending == WaitingOnPromotionChoice
  {
    var loop := new EventLoop();
    CornerSquares();
    loop.CursorMoved(10, 570);
    var r1 := loop.LeftPress(MoveReply(Ok, InProgress));
    loop.CursorMoved(10, 650);
    var r2 := loop.LeftPress(MoveReply(result, WaitingOnPromotionChoice));
    loop.PromotionKey(key, next);
    assert loop.game.log == [];
    pending := loop.app.game.GetGameState();
  }

  /** Corrected: the same events make exactly one promotion in the game the move was made in. */
  method PromotionKeyApplied(result: MoveResult, key: ArrowKey, next: GameState) returns (after: GameState)
    ensures after == next
  {
    var loop := new EventLoop();
    CornerSquares();
    loop.CursorMoved(10, 570);
    var r1 := loop.LeftPress(MoveReply(Ok, InProgress));
    loop.CursorMoved(10, 650);
    var r2 := loop.LeftPress(MoveReply(result, WaitingOnPromotionChoice));
    loop.PromotionKeyOnMoveGame(key, next);
    assert loop.app.game.log == [MakeMoveCall("h2", "h1"), SetPromotionCall(PromotionKind(key))];
    after := loop.app.game.GetGameState();
  }

  /**
   * As written: pick up "a8", reset with a right press, then press at (10, 650):
   * the fresh game is asked for the move "a8"-"h1" from the old pick-up.
   */
  method ResetKeepsPendingMove(reply: MoveReply) returns (report: Report)
    ensures report == MoveReport(reply.result, "a8", "h1")
  {
    var loop := new EventLoop();
    CornerSquares();
    loop.CursorMoved(650, 50);
    var r1 := loop.LeftPress(reply);
    loop.RightPress();
    loop.CursorMoved(10, 650);
    report := loop.LeftPress(reply);
    assert loop.app.game.log == [MakeMoveCall("a8", "h1")];
  }

  /** Corrected: after the reset the same press picks up "h1" and calls nothing. */
  method ResetDropsPendingMove(reply: MoveReply) returns (report: Report)
    ensures report == PickedUp("h1")
  {
    var loop := new EventLoop();
    CornerSquares();
    loop.CursorMoved(650, 50);
    var r1 := loop.LeftPress(reply);
    loop.RightPressToIdle();
    loop.CursorMoved(10, 650);
    report := loop.LeftPress(reply);
    assert loop.app.game.log == [];
  }
}
