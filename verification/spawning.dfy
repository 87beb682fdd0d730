/** The `spawnEnemies` and `shootBullets` systems: a time-gated spawn followed
    by a fixed step of every entity and the removal of those that left the
    screen. */
module Spawning {
  import opened Entities
  import opened Sequences

  /** Length of the enemy spawn cycle, in milliseconds. */
  const ENEMY_PERIOD: int := 2000
  /** Length of the bullet fire cycle, in milliseconds. */
  const BULLET_PERIOD: int := 500
  /** Length of the spawn window at the start of each cycle. */
  const SPAWN_WINDOW: int := 50

  /** JavaScript's `t % m`: unlike Dafny's `%`, the remainder takes the sign of `t`. */
  function JsRem(t: int, m: int): (r: int)
    requires m > 0
    ensures 0 <= t ==> 0 <= r < m
    ensures t < 0 ==> -m < r <= 0
  {
    if t >= 0 then t % m else -((-t) % m)
  }

  /** A random draw in [0, 1) scaled by `span` stays between 0 and `span`,
      excluding `span` itself when it is positive. */
  lemma RollWithin(roll: real, span: real)
    requires 0.0 <= roll < 1.0
    ensures 0.0 < span ==> 0.0 <= roll * span < span
    ensures span <= 0.0 ==> span <= roll * span <= 0.0
  {
    // The products against `1.0 * span` keep the nonlinear step stable
    // across solver seeds.
    if span > 0.0 {
      assert roll * span < 1.0 * span;
    } else if span < 0.0 {
      assert roll * (-span) < 1.0 * (-span);
      assert roll * span >= 1.0 * span;
    }
  }

  /** Some enemy is due at clock time `t`: the first 50 ms of every 2 s cycle. */
  predicate EnemyDue(t: int) {
    JsRem(t, ENEMY_PERIOD) < SPAWN_WINDOW
  }

  /** A bullet is due at clock time `t`: the first 50 ms of every 0.5 s cycle. */
  predicate BulletDue(t: int) {
    JsRem(t, BULLET_PERIOD) < SPAWN_WINDOW
  }

  /** A fresh enemy just above the top edge, at horizontal offset
      `roll * (width - ENEMY_SIZE)`, where `roll` is the random draw in [0, 1). */
  function NewEnemy(screen: Screen, roll: real): (e: Enemy)
    requires 0.0 <= roll < 1.0
    ensures e.y + ENEMY_SIZE == 0.0
    ensures ENEMY_SIZE < screen.width ==> 0.0 <= e.x < screen.width - ENEMY_SIZE
    ensures screen.width <= ENEMY_SIZE ==> screen.width - ENEMY_SIZE <= e.x <= 0.0
  {
    var span := screen.width - ENEMY_SIZE;
    var x := roll * span;
    RollWithin(roll, span);
    assert 0.0 < span ==> 0.0 <= x < span;
    Enemy(x, -ENEMY_SIZE)
  }

  /** A fresh bullet centred on the player and sitting right on top of it. */
  function NewBullet(p: Player): (b: Bullet)
    ensures b.x + BULLET_SIZE / 2.0 == p.x + PLAYER_SIZE / 2.0
    ensures b.y + BULLET_SIZE == p.y
  {
    Bullet(p.x + PLAYER_SIZE / 2.0 - BULLET_SIZE / 2.0, p.y - BULLET_SIZE)
  }

  function Descend(e: Enemy): Enemy {
    e.(y := e.y + ENEMY_STEP)
  }

  function Ascend(b: Bullet): Bullet {
    b.(y := b.y - BULLET_STEP)
  }

  /** The enemy has not yet passed the bottom edge. */
  function AboveBottom(screen: Screen): Enemy -> bool {
    (e: Enemy) => e.y < screen.height
  }

  /** The bullet has not yet left through the top edge. */
  function BelowTop(): Bullet -> bool {
    (b: Bullet) => b.y > -BULLET_SIZE
  }

  /** The enemy will still be above the bottom edge after its step. */
  function StaysAboveBottom(screen: Screen): Enemy -> bool {
    (e: Enemy) => e.y + ENEMY_STEP < screen.height
  }

  /** The bullet will still be below the culling line after its step. */
  function StaysBelowTop(): Bullet -> bool {
    (b: Bullet) => b.y - BULLET_STEP > -BULLET_SIZE
  }

  /** The enemies before stepping: the current ones plus, inside a spawn window,
      the new one at the end. */
  function EnemiesWithSpawn(screen: Screen, t: int, roll: real, es: seq<Enemy>): seq<Enemy>
    requires 0.0 <= roll < 1.0
  {
    if EnemyDue(t) then es + [NewEnemy(screen, roll)] else es
  }

  /** The bullets before stepping: the current ones plus, inside a fire
      window, a new one on the player. */
  function BulletsWithShot(p: Player, t: int, bs: seq<Bullet>): seq<Bullet> {
    if BulletDue(t) then bs + [NewBullet(p)] else bs
  }

  /** One tick of `spawnEnemies`. */
  function SpawnEnemies(screen: Screen, t: int, roll: real, es: seq<Enemy>): (r: seq<Enemy>)
    requires 0.0 <= roll < 1.0
    ensures forall e :: e in r ==> e.y < screen.height
    ensures !EnemyDue(t) ==> |r| <= |es|
    ensures EnemyDue(t) ==> |r| <= |es| + 1
    ensures forall i :: 0 <= i < |es| && es[i].y + ENEMY_STEP < screen.height ==> Enemy(es[i].x, es[i].y + ENEMY_STEP) in r
    ensures EnemyDue(t) && ENEMY_STEP - ENEMY_SIZE < screen.height ==>
      0 < |r| && r[|r| - 1] == Enemy(NewEnemy(screen, roll).x, ENEMY_STEP - ENEMY_SIZE)
    ensures forall e :: e in r ==>
      (exists i :: 0 <= i < |es| && e == Enemy(es[i].x, es[i].y + ENEMY_STEP))
      || (EnemyDue(t) && e == Enemy(NewEnemy(screen, roll).x, ENEMY_STEP - ENEMY_SIZE))
  {
    var pushed := EnemiesWithSpawn(screen, t, roll, es);
    var moved := Map(pushed, Descend);
    assert forall i :: 0 <= i < |es| ==> moved[i] == Enemy(es[i].x, es[i].y + ENEMY_STEP);
    assert EnemyDue(t) ==> (Filter(moved, AboveBottom(screen))
      == Filter(Map(es, Descend), AboveBottom(screen)) + Filter([Descend(NewEnemy(screen, roll))], AboveBottom(screen))) by {
      if EnemyDue(t) {
        var e := Descend(NewEnemy(screen, roll));
        assert moved == Map(es, Descend) + [e];
        FilterAppend(Map(es, Descend), [e], AboveBottom(screen));
      }
    }
    Filter(moved, AboveBottom(screen))
  }

  /** One tick of `shootBullets`. */
  function ShootBullets(p: Player, t: int, bs: seq<Bullet>): (r: seq<Bullet>)
    ensures forall b :: b in r ==> b.y > -BULLET_SIZE
    ensures !BulletDue(t) ==> |r| <= |bs|
    ensures BulletDue(t) ==> |r| <= |bs| + 1
    ensures forall i :: 0 <= i < |bs| && bs[i].y - BULLET_STEP > -BULLET_SIZE ==> Bullet(bs[i].x, bs[i].y - BULLET_STEP) in r
    ensures BulletDue(t) && p.y - BULLET_SIZE - BULLET_STEP > -BULLET_SIZE ==>
      0 < |r| && r[|r| - 1] == Bullet(NewBullet(p).x, p.y - BULLET_SIZE - BULLET_STEP)
    ensures forall b :: b in r ==>
      (exists i :: 0 <= i < |bs| && b == Bullet(bs[i].x, bs[i].y - BULLET_STEP))
      || (BulletDue(t) && b == Bullet(NewBullet(p).x, p.y - BULLET_SIZE - BULLET_STEP))
  {
    var pushed := BulletsWithShot(p, t, bs);
    var moved := Map(pushed, Ascend);
    assert forall i :: 0 <= i < |bs| ==> moved[i] == Bullet(bs[i].x, bs[i].y - BULLET_STEP);
    assert BulletDue(t) ==> (Filter(moved, BelowTop())
      == Filter(Map(bs, Ascend), BelowTop()) + Filter([Ascend(NewBullet(p))], BelowTop())) by {
      if BulletDue(t) {
        var b := Ascend(NewBullet(p));
        assert moved == Map(bs, Ascend) + [b];
        FilterAppend(Map(bs, Ascend), [b], BelowTop());
      }
    }
    Filter(moved, BelowTop())
  }

  /** The enemies that survive `spawnEnemies` are, in their original order,
      exactly those (spawned one included) whose stepped position is still
      above the bottom edge, each stepped down once. */
  lemma SpawnEnemiesInOrder(screen: Screen, t: int, roll: real, es: seq<Enemy>)
    requires 0.0 <= roll < 1.0
    ensures SpawnEnemies(screen, t, roll, es)
         == Map(Filter(EnemiesWithSpawn(screen, t, roll, es), StaysAboveBottom(screen)), Descend)
  {
    FilterMap(EnemiesWithSpawn(screen, t, roll, es), Descend, AboveBottom(screen), StaysAboveBottom(screen));
  }

  /** The bullets that survive `shootBullets` are, in their original order,
      exactly those (new one included) whose stepped position is still below
      the culling line, each stepped up once. */
  lemma ShootBulletsInOrder(p: Player, t: int, bs: seq<Bullet>)
    ensures ShootBullets(p, t, bs)
         == Map(Filter(BulletsWithShot(p, t, bs), StaysBelowTop()), Ascend)
  {
    FilterMap(BulletsWithShot(p, t, bs), Ascend, BelowTop(), StaysBelowTop());
  }

  /** The spawn windows recur with their period: from any non-negative time,
      one period later the same spawns are due. */
  lemma WindowsRecur(t: int)
    requires 0 <= t
    ensures EnemyDue(t + ENEMY_PERIOD) == EnemyDue(t)
    ensures BulletDue(t + BULLET_PERIOD) == BulletDue(t)
  {
    ModShift(t, ENEMY_PERIOD);
    ModShift(t, BULLET_PERIOD);
  }

  /** Every enemy spawn window lies inside a bullet fire window: at
      non-negative times, a tick that spawns an enemy also fires a bullet. */
  lemma EnemyWindowInBulletWindow(t: int)
    requires 0 <= t
    ensures EnemyDue(t) ==> BulletDue(t)
  {
    var q, r := t / ENEMY_PERIOD, t % ENEMY_PERIOD;
    assert t == (4 * q) * BULLET_PERIOD + r;
    if r < SPAWN_WINDOW {
      ModUnique(t, BULLET_PERIOD, 4 * q, r);
    }
  }

  /** Adding the modulus leaves the remainder unchanged. */
  lemma ModShift(t: int, m: int)
    requires 0 <= t && 0 < m
    ensures (t + m) % m == t % m
  {
    var q, r := t / m, t % m;
    assert t == q * m + r;
    assert t + m == (q + 1) * m + r;
    ModUnique(t + m, m, q + 1, r);
  }

  /** The remainder is the only `r` in [0, m) with `a == q * m + r`. */
  lemma ModUnique(a: int, m: int, q: int, r: int)
    requires 0 < m && 0 <= r < m && a == q * m + r
    ensures a % m == r
  {
    var q', r' := a / m, a % m;
    assert a == q' * m + r';
    assert (q - q') * m == r' - r;
    if q > q' {
      MulAtLeast(q - q', m);
    } else if q < q' {
      MulAtLeast(q' - q, m);
    }
  }

  lemma MulAtLeast(k: int, m: int)
    requires 1 <= k && 0 < m
    ensures k * m >= m
  {
    assert k * m == (k - 1) * m + m;
    assert (k - 1) * m >= 0;
  }
}
