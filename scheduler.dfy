/** One call of `loop` as a function of the game state and of everything the
    call reads from the hardware, and runs of many calls. */
module Scheduler {
  import opened Decimal
  import opened Sensors
  import opened Rules
  import opened Render

  /** What one call of `loop` reads: five distance readings per sensor, the
      clock, the potentiometer, the button level, and the lanes that
      `random` returns for the respawn after a hit and for the
      respawn at the bottom row. */
  datatype Inputs = Inputs(
    samples1: seq<nat>,
    samples2: seq<nat>,
    now: int,
    pot: int,
    buttonLow: bool,
    hitLane: int,
    respawnLane: int)

  predicate WellFormed(inp: Inputs) {
    && |inp.samples1| == SampleCount && |inp.samples2| == SampleCount
    && IsTimestamp(inp.now)
    && 0 <= inp.pot <= PotMax
    && IsLane(inp.hitLane) && IsLane(inp.respawnLane)
  }

  predicate Present(inp: Inputs)
    requires |inp.samples1| == SampleCount && |inp.samples2| == SampleCount
  {
    IsPersonDetected(Average(inp.samples1), Average(inp.samples2))
  }

  /** What one call writes to the serial port. The pause notice's wording is
      not modelled. */
  datatype Output = Paused | Final(text: seq<string>) | Drawn(frame: seq<string>) | Silent

  const FinalScorePrefix := "GAME OVER - Final Score: "

  /** The one-time game-over notice: an empty line, then the final score. */
  function FinalMessage(score: int): (text: seq<string>)
    ensures |text| == 2 && text[0] == ""
    ensures |text[1]| > |FinalScorePrefix| && text[1][..|FinalScorePrefix|] == FinalScorePrefix
  {
    ["", FinalScorePrefix + IntToString(score)]
  }

  /** The number after the prefix of the final message reads back as the
      score. */
  lemma FinalMessageRoundTrip(score: int)
    ensures ParseInt(FinalMessage(score)[1][|FinalScorePrefix|..]) == score
  {
    assert FinalMessage(score)[1][|FinalScorePrefix|..] == IntToString(score);
    IntToStringRoundTrip(score);
  }

  /** The four rate-gated ticks of a running game, in the firmware's order. */
  function Ticks(s: GameState, inp: Inputs): (GameState, Output)
    requires WellFormed(inp)
  {
    var s1 := ShipTick(s, inp.now, inp.pot);
    var s2 := BulletTick(s1, inp.now, inp.hitLane);
    var s3 := AsteroidTick(s2, inp.now, inp.buttonLow, inp.respawnLane);
    if Due(inp.now, s3.lastDisplayUpdate, DisplayUpdateRate) then
      var s4 := s3.(lastDisplayUpdate := inp.now);
      (s4, Drawn(Frame(s4)))
    else
      (s3, Silent)
  }

  /** `loop`: the presence gate, then the game-over guard, then the ticks. */
  function Step(s: GameState, inp: Inputs): (r: (GameState, Output))
    requires WellFormed(inp)
    ensures !Present(inp) ==> r == (s, Paused)
    ensures Present(inp) && s.gameOver ==> r.0 == s.(gameOverPrinted := true)
    ensures Present(inp) && s.gameOver ==>
      r.1 == if s.gameOverPrinted then Silent else Final(FinalMessage(s.score))
    ensures Present(inp) && !s.gameOver ==> r == Ticks(s, inp)
  {
    if !Present(inp) then
      (s, Paused)
    else if s.gameOver then
      if !s.gameOverPrinted then (s.(gameOverPrinted := true), Final(FinalMessage(s.score)))
      else (s, Silent)
    else
      Ticks(s, inp)
  }

  /** Each timer is set to the current time exactly when its gate fires; the
      frame is drawn, from the final state, exactly when the display gate
      fires. */
  lemma TimerGates(s: GameState, inp: Inputs)
    requires WellFormed(inp) && Present(inp) && !s.gameOver
    ensures var r := Step(s, inp).0;
      && r.lastShipUpdate == (if Due(inp.now, s.lastShipUpdate, ShipMoveRate) then inp.now else s.lastShipUpdate)
      && r.lastBulletUpdate == (if Due(inp.now, s.lastBulletUpdate, BulletUpdateRate) then inp.now else s.lastBulletUpdate)
      && r.lastUpdate == (if Due(inp.now, s.lastUpdate, GameUpdateRate) then inp.now else s.lastUpdate)
      && r.lastDisplayUpdate == (if Due(inp.now, s.lastDisplayUpdate, DisplayUpdateRate) then inp.now else s.lastDisplayUpdate)
      && r.gameOverPrinted == s.gameOverPrinted
    ensures var (r, out) := Step(s, inp);
      && (out == Silent || out == Drawn(Frame(r)))
      && (out.Drawn? <==> Due(inp.now, s.lastDisplayUpdate, DisplayUpdateRate))
  {
    var s1 := ShipTick(s, inp.now, inp.pot);
    var s2 := BulletTick(s1, inp.now, inp.hitLane);
    var s3 := AsteroidTick(s2, inp.now, inp.buttonLow, inp.respawnLane);
    AsteroidTickEffects(s2, inp.now, inp.buttonLow, inp.respawnLane);
    assert s1.lastBulletUpdate == s.lastBulletUpdate && s1.lastUpdate == s.lastUpdate;
    assert s2.lastShipUpdate == s1.lastShipUpdate && s2.lastUpdate == s.lastUpdate;
    assert s3.lastShipUpdate == s2.lastShipUpdate && s3.lastBulletUpdate == s2.lastBulletUpdate;
    assert s3.lastDisplayUpdate == s.lastDisplayUpdate && s3.gameOverPrinted == s.gameOverPrinted;
    assert Step(s, inp) == Ticks(s, inp);
    assert Step(s, inp).0 == if Due(inp.now, s3.lastDisplayUpdate, DisplayUpdateRate)
      then s3.(lastDisplayUpdate := inp.now) else s3;
  }

  lemma QuietTimersChangeNothing(s: GameState, inp: Inputs)
    requires WellFormed(inp) && Present(inp) && !s.gameOver
    ensures var r := Step(s, inp).0;
      !Due(inp.now, s.lastShipUpdate, ShipMoveRate) ==>
        r.shipPosition == s.shipPosition && r.targetShipPosition == s.targetShipPosition
    ensures var r := Step(s, inp).0;
      !Due(inp.now, s.lastBulletUpdate, BulletUpdateRate) && !Due(inp.now, s.lastUpdate, GameUpdateRate) ==>
        && r.bulletX == s.bulletX && r.bulletY == s.bulletY
        && r.asteroidX == s.asteroidX && r.asteroidY == s.asteroidY
        && r.lives == s.lives && r.score == s.score && r.gameOver == s.gameOver && r.leds == s.leds
  {
    var s1 := ShipTick(s, inp.now, inp.pot);
    var s2 := BulletTick(s1, inp.now, inp.hitLane);
    var s3 := AsteroidTick(s2, inp.now, inp.buttonLow, inp.respawnLane);
    AsteroidTickEffects(s2, inp.now, inp.buttonLow, inp.respawnLane);
    assert s3.shipPosition == s1.shipPosition && s3.targetShipPosition == s1.targetShipPosition;
  }

  /** A bullet appears only in an asteroid tick with the button held low and
      no bullet in flight, on the row above the ship and in the lane the ship
      occupies after this call's ship tick. */
  lemma FiringNeedsButton(s: GameState, inp: Inputs)
    requires WellFormed(inp) && s.bulletY < 0
    ensures var r := Step(s, inp).0;
      r.bulletY >= 0 ==>
        && inp.buttonLow && Present(inp) && !s.gameOver && Due(inp.now, s.lastUpdate, GameUpdateRate)
        && r.bulletY == Height - 2 && r.bulletX == r.shipPosition
  {
    if Present(inp) && !s.gameOver {
      var s1 := ShipTick(s, inp.now, inp.pot);
      var s2 := BulletTick(s1, inp.now, inp.hitLane);
      AsteroidTickEffects(s2, inp.now, inp.buttonLow, inp.respawnLane);
    }
  }

  /** Every call keeps the invariant of the globals. */
  lemma StepKeepsInv(s: GameState, inp: Inputs)
    requires Inv(s) && WellFormed(inp)
    ensures Inv(Step(s, inp).0)
  {
    if Present(inp) && !s.gameOver {
      var s1 := ShipTick(s, inp.now, inp.pot);
      var s2 := BulletTick(s1, inp.now, inp.hitLane);
      ShipTickKeepsInv(s, inp.now, inp.pot);
      BulletTickKeepsInv(s1, inp.now, inp.hitLane);
      AsteroidTickKeepsInv(s2, inp.now, inp.buttonLow, inp.respawnLane);
    }
  }

  /** Score never falls, lives never rise and drop by at most one, and the
      game-over and printed flags are never cleared. */
  predicate Progresses(s: GameState, t: GameState) {
    && s.score <= t.score
    && t.lives <= s.lives
    && (s.gameOver ==> t.gameOver)
    && (s.gameOverPrinted ==> t.gameOverPrinted)
  }

  lemma StepProgresses(s: GameState, inp: Inputs)
    requires Inv(s) && WellFormed(inp)
    ensures Progresses(s, Step(s, inp).0)
    ensures s.lives - 1 <= Step(s, inp).0.lives
  {
    if Present(inp) && !s.gameOver {
      var s1 := ShipTick(s, inp.now, inp.pot);
      var s2 := BulletTick(s1, inp.now, inp.hitLane);
      var s3 := AsteroidTick(s2, inp.now, inp.buttonLow, inp.respawnLane);
      AsteroidTickEffects(s2, inp.now, inp.buttonLow, inp.respawnLane);
      assert Progresses(s, s1) && s1.lives == s.lives;
      assert Progresses(s1, s2) && s2.lives == s1.lives;
      assert Progresses(s2, s3) && s2.lives - 1 <= s3.lives;
    }
  }

  /** The game is over exactly when the lives are used up, and it is only an
      asteroid tick that ends it. */
  lemma GameOverExactlyAtZeroLives(s: GameState, inp: Inputs)
    requires Inv(s) && WellFormed(inp) && !s.gameOver
    ensures var r := Step(s, inp).0;
      r.gameOver <==> r.lives <= 0
    ensures var r := Step(s, inp).0;
      r.gameOver ==> Present(inp) && Due(inp.now, s.lastUpdate, GameUpdateRate)
  {
    StepKeepsInv(s, inp);
  }

  /** A run of calls of `loop`. */
  function Run(s: GameState, ins: seq<Inputs>): (r: (GameState, seq<Output>))
    requires forall i :: 0 <= i < |ins| ==> WellFormed(ins[i])
    ensures |r.1| == |ins|
    decreases |ins|
  {
    if ins == [] then (s, [])
    else
      var step := Step(s, ins[0]);
      var rest := Run(step.0, ins[1..]);
      (rest.0, [step.1] + rest.1)
  }

  lemma {:induction false} RunKeepsInv(s: GameState, ins: seq<Inputs>)
    requires Inv(s) && forall i :: 0 <= i < |ins| ==> WellFormed(ins[i])
    ensures Inv(Run(s, ins).0)
    ensures Progresses(s, Run(s, ins).0)
    decreases |ins|
  {
    if ins != [] {
      StepKeepsInv(s, ins[0]);
      StepProgresses(s, ins[0]);
      RunKeepsInv(Step(s, ins[0]).0, ins[1..]);
    }
  }

  /** From power-on, every state a run reaches satisfies the invariant. */
  lemma ReachableStatesAreValid(start: GameState, ins: seq<Inputs>)
    requires start == Initial
    requires forall i :: 0 <= i < |ins| ==> WellFormed(ins[i])
    ensures Inv(Run(start, ins).0)
  {
    InitialInv();
    RunKeepsInv(start, ins);
  }

  function CountFinal(outs: seq<Output>): nat {
    if outs == [] then 0 else (if outs[0].Final? then 1 else 0) + CountFinal(outs[1..])
  }

  predicate SomePresent(ins: seq<Inputs>)
    requires forall i :: 0 <= i < |ins| ==> WellFormed(ins[i])
  {
    exists i :: 0 <= i < |ins| && WellFormed(ins[i]) && Present(ins[i])
  }

  /** Once the game is over, nothing changes but the printed flag, and the
      final message appears once, at the first call that sees a player. */
  lemma {:induction false} GameOverIsFrozen(s: GameState, ins: seq<Inputs>)
    requires s.gameOver && forall i :: 0 <= i < |ins| ==> WellFormed(ins[i])
    ensures Run(s, ins).0 == s.(gameOverPrinted := s.gameOverPrinted || SomePresent(ins))
    ensures CountFinal(Run(s, ins).1) == if !s.gameOverPrinted && SomePresent(ins) then 1 else 0
    decreases |ins|
  {
    if ins != [] {
      var t := Step(s, ins[0]).0;
      GameOverIsFrozen(t, ins[1..]);
      assert SomePresent(ins) <==> Present(ins[0]) || SomePresent(ins[1..]) by {
        if SomePresent(ins[1..]) {
          var i :| 0 <= i < |ins[1..]| && Present(ins[1..][i]);
          assert Present(ins[i + 1]);
        }
        if SomePresent(ins) && !Present(ins[0]) {
          var i :| 0 <= i < |ins| && Present(ins[i]);
          assert ins[1..][i - 1] == ins[i];
        }
      }
    } else {
      assert !SomePresent(ins);
    }
  }

  /** With nobody in front of the sensors, a call changes nothing at all. */
  lemma {:induction false} AbsentRunChangesNothing(s: GameState, ins: seq<Inputs>)
    requires forall i :: 0 <= i < |ins| ==> WellFormed(ins[i]) && !Present(ins[i])
    ensures Run(s, ins).0 == s
    ensures forall i :: 0 <= i < |ins| ==> Run(s, ins).1[i] == Paused
    decreases |ins|
  {
    if ins != [] {
      AbsentRunChangesNothing(s, ins[1..]);
    }
  }
}
