/** Concrete situations worked through the model, including the ones where
    the code's behaviour is easy to misread (hits in one tick, health below
    zero, ties in the list). */
module Scenarios {
  import opened Entities
  import opened Sequences
  import opened Movement
  import opened Collisions
  import opened Ledger

  const PHONE: Screen := Screen(400.0, 800.0)

  /** A touch far right of a 400-wide screen puts the player at 350. */
  lemma TouchBeyondRightEdge()
    ensures MovePlayer(PHONE, Player(100.0, 700.0, 3), [1000.0]).x == 350.0
  {
  }

  /** Three successive player passes, each with one enemy on the player:
      health goes 3, 2, 1, 0 and only the third hit ends the round. */
  lemma ThreeHitsEndTheRound()
    ensures PlayerEnemyPass(Player(100.0, 700.0, 3), [Enemy(100.0, 700.0)]) == PlayerPass([], 2, 0)
    ensures PlayerEnemyPass(Player(100.0, 700.0, 2), [Enemy(100.0, 700.0)]) == PlayerPass([], 1, 0)
    ensures PlayerEnemyPass(Player(100.0, 700.0, 1), [Enemy(100.0, 700.0)]) == PlayerPass([], 0, 1)
  {
    var es := [Enemy(100.0, 700.0)];
    assert es[..0] == [];
  }

  /** Two enemies reaching the player in the same tick at one health point
      leave health at -1, and game over is triggered twice. */
  lemma HealthGoesBelowZero()
    ensures PlayerEnemyPass(Player(100.0, 700.0, 1), [Enemy(100.0, 700.0), Enemy(110.0, 690.0)])
         == PlayerPass([], -1, 2)
  {
    var es := [Enemy(100.0, 700.0), Enemy(110.0, 690.0)];
    assert es[..1] == [Enemy(100.0, 700.0)];
    assert es[..1][..0] == [];
  }

  /** A bullet on an enemy away from the player raises the score from 0 to
      10 and removes the enemy but not the bullet. */
  lemma BulletScores()
    ensures CheckCollisions(World(Player(100.0, 700.0, 3), [Enemy(200.0, 300.0)], [Bullet(205.0, 305.0)]), 0)
         == Collision(World(Player(100.0, 700.0, 3), [], [Bullet(205.0, 305.0)]), 10, 0)
  {
    var es := [Enemy(200.0, 300.0)];
    assert es[..0] == [];
  }

  /** Two bullets each hitting a different enemy in one tick still add only
      10: both score updates start from the score read when the tick began. */
  lemma TwoHitsScoreTenOnce()
    ensures CheckCollisions(
              World(Player(100.0, 700.0, 3), [Enemy(0.0, 300.0), Enemy(300.0, 300.0)],
                    [Bullet(5.0, 305.0), Bullet(305.0, 305.0)]), 20).score == 30
  {
    var w := World(Player(100.0, 700.0, 3), [Enemy(0.0, 300.0), Enemy(300.0, 300.0)],
                   [Bullet(5.0, 305.0), Bullet(305.0, 305.0)]);
    assert Clear(w.player)(w.enemies[0]);
    assert Strikes(w.bullets[0], w.enemies[0]);
    assert !Unshot(w.bullets)(w.enemies[0]);
  }

  /** Saving 50 into an empty list gives the one-entry list. */
  lemma FirstScore(d: Timestamp)
    ensures SaveHighScore([], 50, d) == [Entry(50, d)]
  {
    SaveIntoValid([], 50, d);
  }

  /** Saving 75 into a full list scoring 90, 80, 70, 60, 50 slots it in
      third and drops the 50. */
  lemma FullListDropsLowest(s: seq<Entry>, d: Timestamp)
    requires |s| == CAPACITY
    requires s[0].score == 90 && s[1].score == 80 && s[2].score == 70 && s[3].score == 60 && s[4].score == 50
    ensures SaveHighScore(s, 75, d) == [s[0], s[1], Entry(75, d), s[2], s[3]]
  {
    assert SortedDesc(s);
    SaveAtRank(s, 75, d, 2);
    RankedFive(s, Entry(75, d));
  }

  lemma RankedFive(s: seq<Entry>, e: Entry)
    requires |s| == CAPACITY
    ensures Take(s[..2] + [e] + s[2..], CAPACITY) == [s[0], s[1], e, s[2], s[3]]
  {
    var ins := s[..2] + [e] + s[2..];
    assert ins == [s[0], s[1], e, s[2], s[3], s[4]];
  }

  /** A score that only ties the lowest entry of a full list is not kept:
      the older entry stays ahead of it and the list is unchanged. */
  lemma {:induction false} TieKeepsOlderEntry(s: seq<Entry>, score: int, d: Timestamp)
    requires Valid(s) && |s| == CAPACITY
    requires score <= s[CAPACITY - 1].score
    ensures SaveHighScore(s, score, d) == s
  {
    var e := Entry(score, d);
    SaveIntoValid(s, score, d);
    InsertLowest(s, e);
    assert (s + [e])[..CAPACITY] == s;
  }
}
