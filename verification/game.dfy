/** The round lifecycle: the four screens of the game, the buttons each one
    offers, and the tick that runs the systems while a round is being played. */
module Game {
  import opened Entities
  import opened Sequences
  import opened Movement
  import opened Spawning
  import opened Collisions
  import opened Ledger

  /** The screen shown, one per value of the game-state string. */
  datatype Phase = Menu | Playing | GameOver | HighScores

  /** Everything the simulation keeps between ticks. */
  datatype Game = Game(phase: Phase, score: int, world: World, ledger: seq<Entry>)

  /** The buttons of the screens: "Start Game" and "Play Again" both start a
      round, "Back to Menu" and "Main Menu" both return to the menu. */
  datatype Button = StartGame | ShowHighScores | ResetScores | BackToMenu

  /** What the driver hands one tick: the clock, the x of every touch in
      arrival order, the random draw for a spawn, and the current date. */
  datatype TickInput = TickInput(time: int, touches: seq<real>, roll: real, now: Timestamp)

  /** The buttons each screen renders; the game screen renders none. */
  predicate Offers(phase: Phase, b: Button) {
    match phase
    case Menu => b == StartGame || b == ShowHighScores || b == ResetScores
    case GameOver => b == StartGame || b == BackToMenu
    case HighScores => b == BackToMenu
    case Playing => false
  }

  /** The phase changes the game may make, each one named by its trigger:
      a button press (start, high scores, back) or the fatal collision. */
  predicate Step(from: Phase, to: Phase) {
    from == to
    || (from == Menu && to == Playing)
    || (from == GameOver && to == Playing)
    || (from == Menu && to == HighScores)
    || (from == HighScores && to == Menu)
    || (from == GameOver && to == Menu)
    || (from == Playing && to == GameOver)
  }

  /** The state the app starts in: the menu, an empty round and the list
      read from storage. */
  function Launch(screen: Screen, stored: seq<Entry>): (g: Game)
    ensures g.phase == Menu && g.score == 0 && g.ledger == stored
    ensures g.world.player == InitialPlayer(screen) && g.world.enemies == [] && g.world.bullets == []
  {
    Game(Menu, 0, World(InitialPlayer(screen), [], []), stored)
  }

  /** `startGame`: a fresh round. */
  function StartRound(screen: Screen, g: Game): (r: Game)
    ensures r.phase == Playing && r.score == 0
    ensures r.world.player == InitialPlayer(screen)
    ensures r.world.player.health == INITIAL_HEALTH
    ensures r.world.enemies == [] && r.world.bullets == []
    ensures r.ledger == g.ledger
  {
    Game(Playing, 0, World(InitialPlayer(screen), [], []), g.ledger)
  }

  /** Pressing a button. A button the current screen does not render cannot
      be pressed, so it leaves the game as it is. */
  function Press(screen: Screen, g: Game, b: Button): (r: Game)
    ensures !Offers(g.phase, b) ==> r == g
    ensures Offers(g.phase, b) && b == StartGame ==> r == StartRound(screen, g)
    ensures Offers(g.phase, b) && b == ShowHighScores ==> r == g.(phase := HighScores)
    ensures Offers(g.phase, b) && b == BackToMenu ==> r == g.(phase := Menu)
    ensures Offers(g.phase, b) && b == ResetScores ==> r == g.(ledger := ResetHighScores())
    ensures Step(g.phase, r.phase)
    ensures r.phase == GameOver ==> r == g
  {
    if !Offers(g.phase, b) then g
    else
      match b
      case StartGame => StartRound(screen, g)
      case ShowHighScores => g.(phase := HighScores)
      case BackToMenu => g.(phase := Menu)
      case ResetScores => g.(ledger := ResetHighScores())
  }

  /** One frame of the game engine: `movePlayer`, `spawnEnemies`,
      `shootBullets` and `checkCollisions` in that order, each on the
      previous one's entities. The engine only runs on the game screen. When
      a hit leaves health at or below zero the phase becomes game over and
      the score read at the start of the tick is saved. */
  function Tick(screen: Screen, g: Game, input: TickInput): (r: Game)
    requires 0.0 <= input.roll < 1.0
    ensures g.phase != Playing ==> r == g
    ensures Step(g.phase, r.phase)
    ensures g.phase == Playing ==>
      (r.phase == GameOver <==> r.world.player.health < g.world.player.health && r.world.player.health <= 0)
    ensures g.phase == Playing ==>
      r.ledger == if r.phase == GameOver then SaveHighScore(g.ledger, g.score, input.now) else g.ledger
    ensures r.score == g.score || r.score == g.score + 10
    ensures r.world.player.health <= g.world.player.health
    ensures g.phase == Playing ==> r.world.player.y == g.world.player.y
    ensures g.phase == Playing ==> forall e :: e in r.world.enemies ==> e.y < screen.height
    ensures g.phase == Playing ==> forall b :: b in r.world.bullets ==> b.y > -BULLET_SIZE
  {
    if g.phase != Playing then g
    else
      var w := g.world;
      var p := MovePlayer(screen, w.player, input.touches);
      var es := SpawnEnemies(screen, input.time, input.roll, w.enemies);
      var bs := ShootBullets(p, input.time, w.bullets);
      var c := CheckCollisions(World(p, es, bs), g.score);
      var over := c.lethalHits > 0;
      Game(
        if over then GameOver else Playing,
        c.score,
        c.world,
        if over then SaveHighScore(g.ledger, g.score, input.now) else g.ledger)
  }

  /** What the game keeps true between events: a valid high-score list and,
      during a round, the player on screen. */
  predicate Consistent(screen: Screen, g: Game) {
    Valid(g.ledger) && (g.phase == Playing ==> PlayerOnScreen(screen, g.world.player))
  }

  /** Every button press keeps the game consistent. */
  lemma PressConsistent(screen: Screen, g: Game, b: Button)
    requires FitsPlayer(screen)
    requires Consistent(screen, g)
    ensures Consistent(screen, Press(screen, g, b))
  {
  }

  /** Every tick keeps the game consistent. */
  lemma TickConsistent(screen: Screen, g: Game, input: TickInput)
    requires FitsPlayer(screen)
    requires 0.0 <= input.roll < 1.0
    requires Consistent(screen, g)
    ensures Consistent(screen, Tick(screen, g, input))
  {
    if g.phase == Playing {
      MovePlayerOnScreen(screen, g.world.player, input.touches);
    }
  }

  /** Returning to the menu twice is the same as returning once. */
  lemma BackToMenuIdempotent(screen: Screen, g: Game)
    ensures Press(screen, Press(screen, g, BackToMenu), BackToMenu) == Press(screen, g, BackToMenu)
  {
  }

  /** Starting a round forgets the previous one: from the menu or from the
      game-over screen, with any score or world, the new round is the same. */
  lemma StartForgetsRound(screen: Screen, g1: Game, g2: Game)
    requires Offers(g1.phase, StartGame) && Offers(g2.phase, StartGame)
    requires g1.ledger == g2.ledger
    ensures Press(screen, g1, StartGame) == Press(screen, g2, StartGame)
  {
  }

  /** The game-over screen is entered only from a round in progress, and only
      by a tick. */
  lemma GameOverOnlyFromPlaying(screen: Screen, g: Game, input: TickInput, b: Button)
    requires 0.0 <= input.roll < 1.0
    requires g.phase != GameOver
    ensures Tick(screen, g, input).phase == GameOver ==> g.phase == Playing
    ensures Press(screen, g, b).phase != GameOver
  {
  }
}
