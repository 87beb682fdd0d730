/** The `checkCollisions` system: first the player against every enemy, then
    every bullet against the enemies that are left. */
module Collisions {
  import opened Entities
  import opened Sequences

  /** Outcome of the player-versus-enemy pass. `lethalHits` counts the hits
      that left health at or below zero: each of them switches the game to
      its game-over phase and asks for the score to be saved. */
  datatype PlayerPass = PlayerPass(survivors: seq<Enemy>, health: int, lethalHits: nat)

  /** Outcome of the whole collision system. */
  datatype Collision = Collision(world: World, score: int, lethalHits: nat)

  /** The enemy does not touch the player. */
  function Clear(p: Player): Enemy -> bool {
    (e: Enemy) => !Touches(p, e)
  }

  /** No bullet of `bs` hits the enemy. */
  function Unshot(bs: seq<Bullet>): Enemy -> bool {
    (e: Enemy) => forall i :: 0 <= i < |bs| ==> !Strikes(bs[i], e)
  }

  /** The bullet does not hit the enemy. */
  function Missed(b: Bullet): Enemy -> bool {
    (e: Enemy) => !Strikes(b, e)
  }

  /** How many of `hits` successive one-point health losses, starting from
      `health`, leave the health at or below zero. */
  function LethalCount(health: int, hits: nat): nat {
    if health <= 1 then hits
    else if hits < health then 0
    else hits - health + 1
  }

  /** The player-versus-enemy pass: the enemies are visited in order, and
      each one the player touches is dropped and costs one health point. */
  function PlayerEnemyPass(p: Player, es: seq<Enemy>): (r: PlayerPass)
    ensures r.survivors == Filter(es, Clear(p))
    ensures r.health == p.health - (|es| - |r.survivors|)
    ensures r.lethalHits == LethalCount(p.health, |es| - |r.survivors|)
    decreases |es|
  {
    if |es| == 0 then PlayerPass([], p.health, 0)
    else
      var prev := PlayerEnemyPass(p, es[..|es| - 1]);
      var e := es[|es| - 1];
      if Touches(p, e) then
        var health := prev.health - 1;
        PlayerPass(prev.survivors, health, prev.lethalHits + if health <= 0 then 1 else 0)
      else
        PlayerPass(prev.survivors + [e], prev.health, prev.lethalHits)
  }

  /** Game over fires during the pass exactly when some enemy was hit and
      health ended at or below zero, and health only ever goes down. */
  lemma GameOverIffFatal(p: Player, es: seq<Enemy>)
    ensures PlayerEnemyPass(p, es).lethalHits > 0
        <==> |PlayerEnemyPass(p, es).survivors| < |es| && PlayerEnemyPass(p, es).health <= 0
    ensures PlayerEnemyPass(p, es).health <= p.health
  {
    var r := PlayerEnemyPass(p, es);
    var k := |es| - |r.survivors|;
    assert LethalCount(p.health, k) > 0 <==> k > 0 && p.health - k <= 0;
  }

  /** The bullet pass: for every bullet in order, the enemies it hits are
      dropped. Bullets are never consumed. */
  function BulletPass(bs: seq<Bullet>, es: seq<Enemy>): (r: seq<Enemy>)
    ensures r == Filter(es, Unshot(bs))
    decreases |bs|
  {
    if |bs| == 0 then
      FilterAll(es, Unshot(bs));
      es
    else
      var pre := bs[..|bs| - 1];
      var b := bs[|bs| - 1];
      var prev := BulletPass(pre, es);
      assert forall e :: Unshot(bs)(e) == (Unshot(pre)(e) && Missed(b)(e)) by {
        forall e ensures Unshot(bs)(e) == (Unshot(pre)(e) && Missed(b)(e)) {
          if Unshot(pre)(e) && Missed(b)(e) {
            forall i | 0 <= i < |bs| ensures !Strikes(bs[i], e) {
              if i < |pre| {
                assert bs[i] == pre[i];
              }
            }
          }
        }
      }
      FilterFilter(es, Unshot(pre), Missed(b), Unshot(bs));
      Filter(prev, Missed(b))
  }

  /** The score setter calls of the bullet pass, one per hit: each sets the
      score to `stale + 10`, where `stale` is the score the closure captured
      when the tick began, whatever the score `current` is by then. */
  function SetScoreCalls(stale: int, current: int, hits: nat): (r: int)
    ensures hits == 0 ==> r == current
    ensures hits > 0 ==> r == stale + 10
    decreases hits
  {
    if hits == 0 then current else SetScoreCalls(stale, stale + 10, hits - 1)
  }

  /** The score the bullet pass leaves: the setter calls start from the score
      read when the tick began, so any number of hits in one tick adds 10 once. */
  function ScoreAfterHits(score: int, hits: nat): (r: int)
    ensures hits == 0 ==> r == score
    ensures hits > 0 ==> r == score + 10
  {
    SetScoreCalls(score, score, hits)
  }

  /** The enemy survives both passes: it neither touches the player nor is
      hit by any bullet. */
  function Spared(p: Player, bs: seq<Bullet>): Enemy -> bool {
    (e: Enemy) => Clear(p)(e) && Unshot(bs)(e)
  }

  /** The bullet pass removes an enemy exactly when some enemy that escaped
      the player is hit by some bullet. */
  lemma {:induction false} BulletPassHitsIff(p: Player, bs: seq<Bullet>, es: seq<Enemy>)
    ensures |BulletPass(bs, Filter(es, Clear(p)))| < |Filter(es, Clear(p))|
        <==> exists i :: 0 <= i < |es| && Clear(p)(es[i]) && !Unshot(bs)(es[i])
  {
    var kept := Filter(es, Clear(p));
    FilterShrinks(kept, Unshot(bs));
    if exists i :: 0 <= i < |es| && Clear(p)(es[i]) && !Unshot(bs)(es[i]) {
      var i :| 0 <= i < |es| && Clear(p)(es[i]) && !Unshot(bs)(es[i]);
      assert es[i] in kept;
      var j :| 0 <= j < |kept| && kept[j] == es[i];
    }
    if exists j :: 0 <= j < |kept| && !Unshot(bs)(kept[j]) {
      var j :| 0 <= j < |kept| && !Unshot(bs)(kept[j]);
      assert kept[j] in es;
      var i :| 0 <= i < |es| && es[i] == kept[j];
    }
  }

  /** One tick of `checkCollisions`. */
  function CheckCollisions(w: World, score: int): (r: Collision)
    ensures r.world.player.x == w.player.x && r.world.player.y == w.player.y
    ensures r.world.bullets == w.bullets
    ensures r.world.enemies == Filter(w.enemies, Spared(w.player, w.bullets))
    ensures r.world.player.health == w.player.health - (|w.enemies| - |Filter(w.enemies, Clear(w.player))|)
    ensures r.lethalHits > 0 <==> r.world.player.health < w.player.health && r.world.player.health <= 0
    ensures r.score == score + 10 <==>
      exists i :: 0 <= i < |w.enemies| && Clear(w.player)(w.enemies[i]) && !Unshot(w.bullets)(w.enemies[i])
    ensures r.score == score || r.score == score + 10
  {
    var pass := PlayerEnemyPass(w.player, w.enemies);
    GameOverIffFatal(w.player, w.enemies);
    var survivors := BulletPass(w.bullets, pass.survivors);
    FilterFilter(w.enemies, Clear(w.player), Unshot(w.bullets), Spared(w.player, w.bullets));
    BulletPassHitsIff(w.player, w.bullets, w.enemies);
    Collision(
      World(w.player.(health := pass.health), survivors, w.bullets),
      ScoreAfterHits(score, |pass.survivors| - |survivors|),
      pass.lethalHits)
  }
}
