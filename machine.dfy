/** The firmware's global game variables as one object, and `loop` as a
    method that updates them in place, block by block as the firmware does.
    Every method is proved to compute exactly the corresponding function of
    the rules, so the lemmas about those functions apply to the object. */
module Machine {
  import opened Decimal
  import opened Sensors
  import opened Rules
  import opened Render
  import opened Scheduler

  class Game {
    var shipPosition: int
    var targetShipPosition: int
    var bulletX: int
    var bulletY: int
    var asteroidX: int
    var asteroidY: int
    var lives: int
    var score: int
    var gameOver: bool
    var gameOverPrinted: bool
    var lastUpdate: int
    var lastShipUpdate: int
    var lastDisplayUpdate: int
    var lastBulletUpdate: int
    /** The levels last written to the green, yellow and red LED pins. */
    var leds: Leds

    /** The globals as a value. */
    function View(): GameState
      reads this
    {
      GameState(shipPosition, targetShipPosition, bulletX, bulletY, asteroidX, asteroidY,
                lives, score, gameOver, gameOverPrinted,
                lastUpdate, lastShipUpdate, lastDisplayUpdate, lastBulletUpdate, leds)
    }

    ghost predicate Valid()
      reads this
    {
      Inv(View())
    }

    /** The globals at power-on. */
    constructor ()
      ensures View() == Initial && Valid()
    {
      shipPosition := Width / 2;
      targetShipPosition := Width / 2;
      bulletX := 0;
      bulletY := -1;
      asteroidX := 0;
      asteroidY := 0;
      lives := MaxLives;
      score := 0;
      gameOver := false;
      gameOverPrinted := false;
      lastUpdate := 0;
      lastShipUpdate := 0;
      lastDisplayUpdate := 0;
      lastBulletUpdate := 0;
      leds := Unlit;
      InitialInv();
    }

    /** `updateLEDs`. */
    method UpdateLeds()
      modifies this`leds
      ensures leds == LedsFor(lives)
    {
      leds := Leds(lives >= 3, lives >= 2, lives >= 1);
    }

    /** The ship-movement block of `loop`. */
    method UpdateShip(currentTime: int, potValue: int)
      requires 0 <= potValue <= PotMax
      modifies this
      ensures View() == ShipTick(old(View()), currentTime, potValue)
    {
      if Elapsed(currentTime, lastShipUpdate) >= ShipMoveRate {
        lastShipUpdate := currentTime;
        targetShipPosition := ShipTarget(potValue);
        if shipPosition < targetShipPosition {
          shipPosition := shipPosition + 1;
        } else if shipPosition > targetShipPosition {
          shipPosition := shipPosition - 1;
        }
      }
    }

    /** The bullet-update block of `loop`; `lane` is the value of
        `random` used if the bullet hits. */
    method UpdateBullet(currentTime: int, lane: int)
      modifies this
      ensures View() == BulletTick(old(View()), currentTime, lane)
    {
      if Elapsed(currentTime, lastBulletUpdate) >= BulletUpdateRate {
        lastBulletUpdate := currentTime;
        if bulletY >= 0 {
          var prevBulletY := bulletY;
          bulletY := bulletY - 1;
          if bulletX == asteroidX &&
             ((prevBulletY >= asteroidY && bulletY <= asteroidY) || bulletY == asteroidY)
          {
            score := score + HitPoints;
            asteroidY := 0;
            asteroidX := lane;
            bulletY := -1;
          }
        }
      }
    }

    /** A press of the (active-low) button fires when no bullet is in flight. */
    method FireIfPressed(buttonLow: bool)
      modifies this
      ensures View() == Fire(old(View()), buttonLow)
    {
      if buttonLow && bulletY < 0 {
        bulletY := Height - 2;
        bulletX := shipPosition;
      }
    }

    /** The asteroid moves down; past the last play row it may cost a life and
        respawns at `lane`. */
    method MoveAsteroid(lane: int)
      modifies this
      ensures View() == Descend(old(View()), lane)
    {
      asteroidY := asteroidY + 1;
      if asteroidY >= Height - 1 {
        if Abs(asteroidX - shipPosition) <= 1 {
          lives := lives - 1;
        }
        asteroidY := 0;
        asteroidX := lane;
      }
    }

    /** The asteroid-update block of `loop`; `lane` is the value of
        `random` used if the asteroid reaches the bottom. */
    method UpdateAsteroid(currentTime: int, buttonLow: bool, lane: int)
      modifies this
      ensures View() == AsteroidTick(old(View()), currentTime, buttonLow, lane)
    {
      if Elapsed(currentTime, lastUpdate) >= GameUpdateRate {
        lastUpdate := currentTime;
        FireIfPressed(buttonLow);
        MoveAsteroid(lane);
        ghost var descended := View();
        UpdateLeds();
        if lives <= 0 {
          gameOver := true;
        }
        assert View() == Settle(descended);
      }
    }

    /** `drawGame`, building the frame line by line and cell by cell. */
    method DrawGame() returns (lines: seq<string>)
      ensures lines == Frame(View())
    {
      ghost var s := View();
      lines := [];
      for i := 0 to BlankLines
        invariant lines == seq(i, _ => Blank)
      {
        lines := lines + [Blank];
      }
      lines := lines + [Border];
      for y := 0 to Height - 1
        invariant lines == seq(BlankLines, _ => Blank) + [Border] + seq(y, y' => Boxed(Cells(s, y')))
      {
        var row := "|";
        for x := 0 to Width
          invariant row == "|" + Cells(s, y)[..x]
        {
          if y == asteroidY && x == asteroidX {
            row := row + "*";
          } else if y == bulletY && x == bulletX {
            row := row + "^";
          } else {
            row := row + " ";
          }
          assert Cells(s, y)[..x + 1] == Cells(s, y)[..x] + [Glyph(s, x, y)];
        }
        assert Cells(s, y)[..Width] == Cells(s, y);
        lines := lines + [row + "|"];
        assert seq(y + 1, y' => Boxed(Cells(s, y'))) == seq(y, y' => Boxed(Cells(s, y'))) + [Boxed(Cells(s, y))];
      }
      var shipRow := "|";
      for x := 0 to Width
        invariant shipRow == "|" + ShipCells(s)[..x]
      {
        shipRow := shipRow + (if x == shipPosition then "W" else " ");
        assert ShipCells(s)[..x + 1] == ShipCells(s)[..x] + [ShipCells(s)[x]];
      }
      assert ShipCells(s)[..Width] == ShipCells(s);
      lines := lines + [shipRow + "|"];
      lines := lines + [Border];
      lines := lines + ["Lives: " + IntToString(lives) + " Score: " + IntToString(score)];
    }

    /** The display-update block of `loop`. */
    method UpdateDisplay(currentTime: int) returns (out: Output)
      modifies this
      ensures View() == (if Due(currentTime, old(lastDisplayUpdate), DisplayUpdateRate)
                         then old(View()).(lastDisplayUpdate := currentTime) else old(View()))
      ensures out == (if Due(currentTime, old(lastDisplayUpdate), DisplayUpdateRate)
                      then Drawn(Frame(View())) else Silent)
    {
      if Elapsed(currentTime, lastDisplayUpdate) >= DisplayUpdateRate {
        lastDisplayUpdate := currentTime;
        var frame := DrawGame();
        out := Drawn(frame);
      } else {
        out := Silent;
      }
    }

    /** `loop`. The hardware reads are parameters: the raw readings of the two
        distance sensors, `millis()`, `analogRead` of the potentiometer, the
        button level, and the two `random` lanes. */
    method Loop(samples1: seq<nat>, samples2: seq<nat>, currentTime: int, potValue: int,
                buttonLow: bool, hitLane: int, respawnLane: int) returns (out: Output)
      requires Valid()
      requires WellFormed(Inputs(samples1, samples2, currentTime, potValue, buttonLow, hitLane, respawnLane))
      modifies this
      ensures Valid()
      ensures var inp := Inputs(samples1, samples2, currentTime, potValue, buttonLow, hitLane, respawnLane);
        View() == Step(old(View()), inp).0 && out == Step(old(View()), inp).1
    {
      ghost var inp := Inputs(samples1, samples2, currentTime, potValue, buttonLow, hitLane, respawnLane);
      StepKeepsInv(View(), inp);
      var present := DetectPresence(samples1, samples2);
      if !present {
        out := Paused;
        return;
      }
      if gameOver {
        if !gameOverPrinted {
          out := Final(FinalMessage(score));
          gameOverPrinted := true;
        } else {
          out := Silent;
        }
        return;
      }
      UpdateShip(currentTime, potValue);
      UpdateBullet(currentTime, hitLane);
      UpdateAsteroid(currentTime, buttonLow, respawnLane);
      out := UpdateDisplay(currentTime);
    }
  }
}
