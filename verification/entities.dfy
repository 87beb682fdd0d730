/** The game world of the space shooter: the player, the enemies descending on
    it, the bullets it fires, and the fixed sizes and steps of App.js. Screen
    coordinates grow rightwards (x) and downwards (y); an entity's position is
    its top-left corner. */
module Entities {

  /** Side length of the player's square, in screen units. */
  const PLAYER_SIZE: real := 50.0
  /** Side length of an enemy's square. */
  const ENEMY_SIZE: real := 40.0
  /** Side length of a bullet's square. */
  const BULLET_SIZE: real := 10.0
  /** Health the player starts each round with. */
  const INITIAL_HEALTH: int := 3
  /** How far the player's top edge sits above the bottom of the screen at round start. */
  const START_LIFT: real := 100.0
  /** Distance every enemy moves down per tick. */
  const ENEMY_STEP: real := 2.0
  /** Distance every bullet moves up per tick. */
  const BULLET_STEP: real := 5.0

  /** The window size reported by the device. */
  datatype Screen = Screen(width: real, height: real)

  datatype Player = Player(x: real, y: real, health: int)

  datatype Enemy = Enemy(x: real, y: real)

  datatype Bullet = Bullet(x: real, y: real)

  /** The entity snapshot a tick reads and replaces. */
  datatype World = World(player: Player, enemies: seq<Enemy>, bullets: seq<Bullet>)

  function Abs(v: real): real {
    if v < 0.0 then -v else v
  }

  function Min(a: real, b: real): real {
    if a <= b then a else b
  }

  function Max(a: real, b: real): real {
    if a >= b then a else b
  }

  /** The player every round starts with: horizontally centred, 100 units
      above the bottom edge, at full health. */
  function InitialPlayer(screen: Screen): (p: Player)
    ensures p.x + PLAYER_SIZE / 2.0 == screen.width / 2.0
    ensures p.y + START_LIFT == screen.height
    ensures p.health == INITIAL_HEALTH
  {
    Player(screen.width / 2.0 - PLAYER_SIZE / 2.0, screen.height - START_LIFT, INITIAL_HEALTH)
  }

  /** Axis-wise proximity test used by both collision passes: the two
      top-left corners are closer than `size` on both axes. */
  predicate Overlap(x1: real, y1: real, x2: real, y2: real, size: real) {
    Abs(x1 - x2) < size && Abs(y1 - y2) < size
  }

  /** The player collides with `e`, measured against the player's size. */
  predicate Touches(p: Player, e: Enemy) {
    Overlap(p.x, p.y, e.x, e.y, PLAYER_SIZE)
  }

  /** Bullet `b` hits `e`, measured against the enemy's size. */
  predicate Strikes(b: Bullet, e: Enemy) {
    Overlap(b.x, b.y, e.x, e.y, ENEMY_SIZE)
  }

  /** The player's x lies between the left edge and the last position at
      which the whole player square is still on screen. */
  predicate PlayerOnScreen(screen: Screen, p: Player) {
    0.0 <= p.x <= screen.width - PLAYER_SIZE
  }

  /** The screen is wide enough to hold the player. */
  predicate FitsPlayer(screen: Screen) {
    PLAYER_SIZE <= screen.width
  }

  /** A screen that holds the player places the initial player on it. */
  lemma InitialPlayerOnScreen(screen: Screen)
    requires FitsPlayer(screen)
    ensures PlayerOnScreen(screen, InitialPlayer(screen))
  {
  }
}
