/** The `movePlayer` system: the player follows the touches of the tick. */
module Movement {
  import opened Entities

  /** Where a touch at page x puts the player: the player's centre under the
      finger, clamped so that the player square stays on screen. */
  function ClampX(screen: Screen, pageX: real): (x: real)
    ensures 0.0 <= x
    ensures FitsPlayer(screen) ==> x <= screen.width - PLAYER_SIZE
    ensures 0.0 <= pageX - PLAYER_SIZE / 2.0 <= screen.width - PLAYER_SIZE ==> x == pageX - PLAYER_SIZE / 2.0
    ensures pageX - PLAYER_SIZE / 2.0 <= 0.0 ==> x == 0.0
    ensures FitsPlayer(screen) && screen.width - PLAYER_SIZE <= pageX - PLAYER_SIZE / 2.0 ==> x == screen.width - PLAYER_SIZE
    ensures !FitsPlayer(screen) ==> x == 0.0
  {
    Max(0.0, Min(screen.width - PLAYER_SIZE, pageX - PLAYER_SIZE / 2.0))
  }

  /** Applies the tick's touches in arrival order, each one moving the player
      horizontally. */
  function MovePlayer(screen: Screen, p: Player, touches: seq<real>): (r: Player)
    ensures r.y == p.y && r.health == p.health
    ensures |touches| == 0 ==> r == p
    ensures |touches| > 0 ==> r.x == ClampX(screen, touches[|touches| - 1])
    decreases |touches|
  {
    if |touches| == 0 then p
    else MovePlayer(screen, p.(x := ClampX(screen, touches[0])), touches[1..])
  }

  /** Whatever the touches, a player that was on screen stays on screen, and
      after any touch the player is on screen even if it was not before. */
  lemma MovePlayerOnScreen(screen: Screen, p: Player, touches: seq<real>)
    requires FitsPlayer(screen)
    requires PlayerOnScreen(screen, p) || |touches| > 0
    ensures PlayerOnScreen(screen, MovePlayer(screen, p, touches))
  {
  }
}
