/** Concrete runs of the rules: an asteroid landing on the ship, a bullet
    climbing to an asteroid, and a game that ends and stays ended. */
module Scenarios {
  import opened Rules
  import opened Scheduler

  /** An asteroid on the last play row, in the ship's lane, lands at the next
      asteroid tick: one life is lost, the asteroid respawns on the top row,
      and the game goes on. */
  lemma AsteroidLandsOnShip(lane: int)
    requires IsLane(lane)
    ensures var s := Initial.(asteroidX := 10, asteroidY := Height - 2);
      var r := AsteroidTick(s, GameUpdateRate, false, lane);
      r.lives == 2 && r.asteroidY == 0 && r.asteroidX == lane && !r.gameOver
      && r.leds == Leds(false, true, true)
  {
  }

  /** A bullet fired from row 8 in the asteroid's lane, with the asteroid
      held on row 3, hits on the fifth bullet tick and not before. */
  lemma BulletClimbsToAsteroid(lane: int)
    requires IsLane(lane)
    ensures var s := Initial.(bulletX := 10, bulletY := Height - 2, asteroidX := 10, asteroidY := 3);
      var b1 := BulletTick(s, 100, lane);
      var b2 := BulletTick(b1, 200, lane);
      var b3 := BulletTick(b2, 300, lane);
      var b4 := BulletTick(b3, 400, lane);
      var b5 := BulletTick(b4, 500, lane);
      && b4.bulletY == 4 && b4.score == 0 && b4.asteroidY == 3
      && b5.score == HitPoints && b5.asteroidY == 0 && b5.asteroidX == lane && b5.bulletY == -1
  {
  }

  /** A bullet tick that starts on the asteroid's own row also hits, though
      the bullet leaves that row. */
  lemma HitOnStartingRow(lane: int)
    requires IsLane(lane)
    ensures var s := Initial.(bulletX := 4, bulletY := 5, asteroidX := 4, asteroidY := 5);
      var r := BulletTick(s, BulletUpdateRate, lane);
      r.score == HitPoints && r.bulletY == -1 && r.asteroidY == 0
  {
  }

  /** The last life lost ends the game; after that a present player gets the
      final message once, and later calls change nothing. */
  lemma LastLifeEndsGame(lane: int, inp: Inputs)
    requires IsLane(lane) && WellFormed(inp) && Present(inp)
    ensures var s := Initial.(lives := 1, leds := LedsFor(1), asteroidX := 10, asteroidY := Height - 2);
      var over := AsteroidTick(s, GameUpdateRate, false, lane);
      && over.gameOver && over.lives == 0 && over.leds == Unlit
      && Step(over, inp).1 == Final(FinalMessage(0))
      && Step(Step(over, inp).0, inp) == (over.(gameOverPrinted := true), Silent)
  {
  }
}
