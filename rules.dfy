/** The game rules as functions on a value of the whole game state: the
    rate-gated ticks of the ship, the bullet and the asteroid, and the status
    LEDs. The class in machine.dfy performs the same updates in place and is
    proved equal to these functions. */
module Rules {

  const Width: int := 20
  const Height: int := 10
  /** Period of the asteroid tick, in milliseconds. */
  const GameUpdateRate: nat := 500
  const BulletUpdateRate: nat := 100
  const DisplayUpdateRate: nat := 100
  const ShipMoveRate: nat := 5
  /** `analogRead` of the potentiometer yields 12 bits. */
  const PotMax: int := 4095
  const MaxLives: int := 3
  const HitPoints: int := 10
  /** `millis()` and the `last*` timestamps are 32-bit `unsigned long`. */
  const ClockModulus: int := 0x1_0000_0000

  predicate IsLane(x: int) {
    0 <= x < Width
  }

  predicate IsTimestamp(t: int) {
    0 <= t < ClockModulus
  }

  function Abs(x: int): int {
    if x > 0 then x else -x
  }

  /** `currentTime - last` in unsigned 32-bit arithmetic. */
  function Elapsed(now: int, last: int): (e: int)
    ensures 0 <= e < ClockModulus
    ensures IsTimestamp(now) && IsTimestamp(last) && last <= now ==> e == now - last
    ensures IsTimestamp(now) && IsTimestamp(last) && now < last ==> e == now + ClockModulus - last
  {
    (now - last) % ClockModulus
  }

  /** A timer gate: the subsystem runs when its period has elapsed. */
  predicate Due(now: int, last: int, period: nat) {
    Elapsed(now, last) >= period
  }

  /** Arduino's `map` from the pot range [0, 4095] onto the lanes [0, 19]:
      both operands of its division are non-negative here, so C's truncating
      division is Dafny's `/`. */
  function ShipTarget(pot: int): (target: int)
    requires 0 <= pot <= PotMax
    ensures IsLane(target)
    ensures target * PotMax <= pot * (Width - 1) < (target + 1) * PotMax
    ensures pot == 0 ==> target == 0
    ensures pot == PotMax ==> target == Width - 1
  {
    (Width - 1) * pot / PotMax
  }

  /** Rate-limited tracking: `next` is `pos` moved by at most one towards
      `target`, stays put only when already there, and never overshoots. */
  predicate Tracks(pos: int, next: int, target: int) {
    && -1 <= next - pos <= 1
    && (next == pos <==> pos == target)
    && (pos <= target ==> pos <= next <= target)
    && (target <= pos ==> target <= next <= pos)
  }

  function StepToward(pos: int, target: int): (next: int)
    ensures Tracks(pos, next, target)
  {
    if pos < target then pos + 1
    else if pos > target then pos - 1
    else pos
  }

  /** The three status LEDs. */
  datatype Leds = Leds(green: bool, yellow: bool, red: bool)

  /** Before the first asteroid tick nothing has driven the LED pins. */
  const Unlit := Leds(false, false, false)

  function Lit(leds: Leds): nat {
    (if leds.green then 1 else 0) + (if leds.yellow then 1 else 0) + (if leds.red then 1 else 0)
  }

  /** `updateLEDs`: a thermometer encoding of the remaining lives. */
  function LedsFor(lives: int): (leds: Leds)
    ensures leds.green ==> leds.yellow
    ensures leds.yellow ==> leds.red
    ensures Lit(leds) == if lives <= 0 then 0 else if lives >= MaxLives then MaxLives else lives
  {
    Leds(lives >= 3, lives >= 2, lives >= 1)
  }

  /** The firmware's global game variables. A `bulletY` below 0 means that no
      bullet is in flight. */
  datatype GameState = GameState(
    shipPosition: int,
    targetShipPosition: int,
    bulletX: int,
    bulletY: int,
    asteroidX: int,
    asteroidY: int,
    lives: int,
    score: int,
    gameOver: bool,
    gameOverPrinted: bool,
    lastUpdate: int,
    lastShipUpdate: int,
    lastDisplayUpdate: int,
    lastBulletUpdate: int,
    leds: Leds)

  /** The values the globals hold at power-on. */
  const Initial := GameState(
    shipPosition := Width / 2,
    targetShipPosition := Width / 2,
    bulletX := 0,
    bulletY := -1,
    asteroidX := 0,
    asteroidY := 0,
    lives := MaxLives,
    score := 0,
    gameOver := false,
    gameOverPrinted := false,
    lastUpdate := 0,
    lastShipUpdate := 0,
    lastDisplayUpdate := 0,
    lastBulletUpdate := 0,
    leds := Unlit)

  /** What stays true of the globals between calls of `loop`. */
  predicate Inv(s: GameState) {
    && IsLane(s.shipPosition) && IsLane(s.targetShipPosition)
    && IsLane(s.bulletX) && -1 <= s.bulletY <= Height - 2
    && IsLane(s.asteroidX) && 0 <= s.asteroidY <= Height - 2
    && 0 <= s.lives <= MaxLives
    && s.score >= 0 && s.score % HitPoints == 0
    && (s.gameOver <==> s.lives == 0)
    && (s.gameOverPrinted ==> s.gameOver)
    && (s.leds == Unlit || s.leds == LedsFor(s.lives))
    && IsTimestamp(s.lastUpdate) && IsTimestamp(s.lastShipUpdate)
    && IsTimestamp(s.lastDisplayUpdate) && IsTimestamp(s.lastBulletUpdate)
  }

  lemma InitialInv()
    ensures Inv(Initial)
  {
  }

  /** Ship movement: rescale the pot reading to a lane and step towards it. */
  function ShipTick(s: GameState, now: int, pot: int): (r: GameState)
    requires 0 <= pot <= PotMax
    ensures !Due(now, s.lastShipUpdate, ShipMoveRate) ==> r == s
    ensures Due(now, s.lastShipUpdate, ShipMoveRate) ==>
      && r == s.(lastShipUpdate := now, targetShipPosition := r.targetShipPosition, shipPosition := r.shipPosition)
      && r.targetShipPosition == ShipTarget(pot)
      && Tracks(s.shipPosition, r.shipPosition, r.targetShipPosition)
  {
    if Due(now, s.lastShipUpdate, ShipMoveRate) then
      var target := ShipTarget(pot);
      s.(lastShipUpdate := now, targetShipPosition := target, shipPosition := StepToward(s.shipPosition, target))
    else
      s
  }

  /** The bullet, moving from row `bulletY` to `bulletY - 1`, meets the
      asteroid when they share a column and the asteroid lies on either row. */
  predicate BulletHits(s: GameState) {
    s.bulletX == s.asteroidX && (s.asteroidY == s.bulletY - 1 || s.asteroidY == s.bulletY)
  }

  /** Bullet update: a bullet in flight moves up one row; a hit scores,
      respawns the asteroid at `lane` on the top row and removes the bullet. */
  function BulletTick(s: GameState, now: int, lane: int): (r: GameState)
    ensures !Due(now, s.lastBulletUpdate, BulletUpdateRate) ==> r == s
    ensures Due(now, s.lastBulletUpdate, BulletUpdateRate) && s.bulletY < 0 ==>
      r == s.(lastBulletUpdate := now)
    ensures Due(now, s.lastBulletUpdate, BulletUpdateRate) && s.bulletY >= 0 && BulletHits(s) ==>
      r == s.(lastBulletUpdate := now, score := s.score + HitPoints, asteroidX := lane, asteroidY := 0, bulletY := -1)
    ensures Due(now, s.lastBulletUpdate, BulletUpdateRate) && s.bulletY >= 0 && !BulletHits(s) ==>
      r == s.(lastBulletUpdate := now, bulletY := s.bulletY - 1)
  {
    if Due(now, s.lastBulletUpdate, BulletUpdateRate) then
      var s1 := s.(lastBulletUpdate := now);
      if s1.bulletY >= 0 then
        var prevBulletY := s1.bulletY;
        var s2 := s1.(bulletY := s1.bulletY - 1);
        if s2.bulletX == s2.asteroidX &&
           ((prevBulletY >= s2.asteroidY && s2.bulletY <= s2.asteroidY) || s2.bulletY == s2.asteroidY)
        then
          s2.(score := s2.score + HitPoints, asteroidY := 0, asteroidX := lane, bulletY := -1)
        else
          s2
      else
        s1
    else
      s
  }

  /** The button fires only when no bullet is in flight. */
  predicate Fires(s: GameState, buttonLow: bool) {
    buttonLow && s.bulletY < 0
  }

  /** The asteroid's next row is past the last play row. */
  predicate ReachesBottom(s: GameState) {
    s.asteroidY + 1 >= Height - 1
  }

  /** The asteroid lands on the ship's lane or a neighbouring one. */
  predicate Collides(s: GameState) {
    ReachesBottom(s) && Abs(s.asteroidX - s.shipPosition) <= 1
  }

  /** The button spawns a bullet at the ship's lane, on the row above the
      ship, unless one is already in flight. */
  function Fire(s: GameState, buttonLow: bool): GameState {
    if buttonLow && s.bulletY < 0 then s.(bulletY := Height - 2, bulletX := s.shipPosition) else s
  }

  /** The asteroid moves down a row; past the last play row it costs a life
      if it lands within one lane of the ship, and respawns at `lane`. */
  function Descend(s: GameState, lane: int): GameState {
    var s1 := s.(asteroidY := s.asteroidY + 1);
    if s1.asteroidY >= Height - 1 then
      var lives := if Abs(s1.asteroidX - s1.shipPosition) <= 1 then s1.lives - 1 else s1.lives;
      s1.(lives := lives, asteroidY := 0, asteroidX := lane)
    else
      s1
  }

  /** `updateLEDs`, then the game ends when no life is left. */
  function Settle(s: GameState): GameState {
    var s1 := s.(leds := LedsFor(s.lives));
    if s1.lives <= 0 then s1.(gameOver := true) else s1
  }

  /** Asteroid update: fire, descend, collide and respawn at `lane`, refresh
      the LEDs and end the game when no life is left. */
  function AsteroidTick(s: GameState, now: int, buttonLow: bool, lane: int): GameState {
    if Due(now, s.lastUpdate, GameUpdateRate) then
      Settle(Descend(Fire(s.(lastUpdate := now), buttonLow), lane))
    else
      s
  }

  /** What an asteroid tick does, stated variable by variable. */
  lemma AsteroidTickEffects(s: GameState, now: int, buttonLow: bool, lane: int)
    ensures !Due(now, s.lastUpdate, GameUpdateRate) ==> AsteroidTick(s, now, buttonLow, lane) == s
    ensures var r := AsteroidTick(s, now, buttonLow, lane);
      Due(now, s.lastUpdate, GameUpdateRate) ==>
      && r == s.(lastUpdate := now, bulletX := r.bulletX, bulletY := r.bulletY, asteroidX := r.asteroidX,
                 asteroidY := r.asteroidY, lives := r.lives, leds := r.leds, gameOver := r.gameOver)
      && (Fires(s, buttonLow) ==> r.bulletY == Height - 2 && r.bulletX == s.shipPosition)
      && (!Fires(s, buttonLow) ==> r.bulletY == s.bulletY && r.bulletX == s.bulletX)
      && (ReachesBottom(s) ==> r.asteroidY == 0 && r.asteroidX == lane)
      && (!ReachesBottom(s) ==> r.asteroidY == s.asteroidY + 1 && r.asteroidX == s.asteroidX)
      && r.lives == (if Collides(s) then s.lives - 1 else s.lives)
      && r.leds == LedsFor(r.lives)
      && r.gameOver == (s.gameOver || r.lives <= 0)
  {
  }

  lemma ShipTickKeepsInv(s: GameState, now: int, pot: int)
    requires Inv(s) && IsTimestamp(now) && 0 <= pot <= PotMax
    ensures Inv(ShipTick(s, now, pot))
  {
  }

  lemma BulletTickKeepsInv(s: GameState, now: int, lane: int)
    requires Inv(s) && IsTimestamp(now) && IsLane(lane)
    ensures Inv(BulletTick(s, now, lane))
  {
  }

  /** An asteroid tick of a running game keeps the invariant: the asteroid
      stays on the play rows, a fired bullet starts on the row above the ship,
      and the life it may cost is never the one after the last. */
  lemma AsteroidTickKeepsInv(s: GameState, now: int, buttonLow: bool, lane: int)
    requires Inv(s) && !s.gameOver && IsTimestamp(now) && IsLane(lane)
    ensures Inv(AsteroidTick(s, now, buttonLow, lane))
  {
    AsteroidTickEffects(s, now, buttonLow, lane);
  }
}
