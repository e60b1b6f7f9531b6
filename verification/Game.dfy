/**
  The match state of PONGAPP/game.py (class PongGame) and its per-frame update:
  bonus spawning and collection, the effect registry, paddle speeds, ball-speed
  escalation, paddle and ball movement, scoring and round reset. The clock,
  the keyboard state and the random draws are parameters.
*/
module Game {
  import opened Options
  import opened Constants
  import opened Geometry
  import opened Effects
  import opened Utils
  import Settings
  import Bonus

  /** Which movement keys are held: Z and S for paddle A, Up and Down for paddle B. */
  datatype Keys = Keys(aUp: bool, aDown: bool, bUp: bool, bDown: bool)

  function Abs(v: int): nat { if v < 0 then -v else v }

  /** int(v * SPEEDUP_FACTOR): one and a half times `v`, truncated toward zero. */
  function SpeedUp(v: int): (r: int)
    ensures (r > 0 <==> v > 0) && (r < 0 <==> v < 0)
    ensures 2 * Abs(r) <= 3 * Abs(v) < 2 * Abs(r) + 2
    ensures Abs(r) >= Abs(v)
  {
    if v >= 0 then 3 * v / 2 else -((3 * -v) / 2)
  }

  lemma SpeedUpExamples()
    ensures SpeedUp(5) == 7 && SpeedUp(-5) == -7 && SpeedUp(7) == 10
  {
  }

  /** The speeds apply_bonus_effects can give a paddle. */
  predicate IsPaddleSpeed(s: int)
  {
    s == PaddleSpeed || s == BoostedPaddleSpeed || s == SlowedPaddleSpeed
  }

  /**
    One paddle's move in a frame (lines 206-213): up by `speed` if the up key is
    held and the top is below 0, then down by `speed` if the down key is held and
    the bottom is above the last pixel row.
  */
  function MovedPaddle(p: Rect, up: bool, down: bool, speed: int, height: int): (r: Rect)
    ensures r.x == p.x && r.w == p.w && r.h == p.h
    ensures r.y == p.y || r.y == p.y - speed || r.y == p.y + speed
    ensures !up && !down ==> r == p
    ensures up && !down ==> (r.y == p.y - speed <==> p.Top() > 0 || speed == 0)
    ensures !up && down ==> (r.y == p.y + speed <==> p.Bottom() < height - 1 || speed == 0)
    ensures speed > 0 ==>
      (r.y < p.y ==> up && p.Top() > 0) && (r.y > p.y ==> down && p.Bottom() < height - 1)
  {
    var afterUp := if up && p.Top() > 0 then p.(y := p.y - speed) else p;
    if down && afterUp.Bottom() < height - 1 then afterUp.(y := afterUp.y + speed) else afterUp
  }

  /** The band a paddle never leaves: at most one boosted step beyond either edge. */
  predicate InReach(p: Rect, height: int)
  {
    p.Top() > -BoostedPaddleSpeed && p.Bottom() < height - 1 + BoostedPaddleSpeed
  }

  lemma {:induction false} PaddleStaysInReach(p: Rect, up: bool, down: bool, speed: int, height: int)
    requires IsPaddleSpeed(speed) && InReach(p, height)
    ensures InReach(MovedPaddle(p, up, down, speed, height), height)
  {
  }

  /** The ball's rectangle and velocity. */
  datatype BallState = BallState(ball: Rect, vx: int, vy: int)

  predicate TouchesWall(r: Rect, height: int)
  {
    r.Top() <= 0 || r.Bottom() >= height - 1
  }

  /**
    The ball's motion in a frame (lines 221-236): it moves by its velocity, its
    vertical speed is reversed on a wall, and on overlapping a paddle it is put
    back against that paddle's face and its horizontal speed is reversed. Speeds
    change sign only, never size.
  */
  function Bounce(s: BallState, paddleA: Rect, paddleB: Rect, height: int): (r: BallState)
    ensures Abs(r.vx) == Abs(s.vx) && Abs(r.vy) == Abs(s.vy)
    ensures r.ball.y == s.ball.y + s.vy && r.ball.w == s.ball.w && r.ball.h == s.ball.h
    ensures r.vy == if TouchesWall(s.ball.Translated(s.vx, s.vy), height) then -s.vy else s.vy
    ensures var t := s.ball.Translated(s.vx, s.vy);
      r.ball.x == t.x || r.ball.Left() == paddleA.Right() || r.ball.Right() == paddleB.Left()
    ensures var t := s.ball.Translated(s.vx, s.vy);
      !t.Collides(paddleA) && !t.Collides(paddleB) ==> r.ball == t && r.vx == s.vx
    ensures var t := s.ball.Translated(s.vx, s.vy);
      t.Collides(paddleA) && !t.WithLeft(paddleA.Right()).Collides(paddleB) ==>
        r.ball.Left() == paddleA.Right() && r.vx == -s.vx
    ensures var t := s.ball.Translated(s.vx, s.vy);
      !t.Collides(paddleA) && t.Collides(paddleB) ==>
        r.ball.Right() == paddleB.Left() && r.vx == -s.vx
  {
    var t := s.ball.Translated(s.vx, s.vy);
    var vy := if TouchesWall(t, height) then -s.vy else s.vy;
    var hitA := t.Collides(paddleA);
    var afterA := if hitA then t.WithLeft(paddleA.Right()) else t;
    var vxA := if hitA then -s.vx else s.vx;
    var hitB := afterA.Collides(paddleB);
    var afterB := if hitB then afterA.WithRight(paddleB.Left()) else afterA;
    BallState(afterB, if hitB then -vxA else vxA, vy)
  }

  // ---------------------------------------------------------------------------
  // The match state as a value, and one step function per block of update

  /**
    The fields of PongGame that a frame changes: paddles, ball and velocity, the
    escalation stamp, scores, the outcome, the effect registry and the paddle speeds.
  */
  datatype Play = Play(
    paddleA: Rect, paddleB: Rect, ball: Rect, vx: int, vy: int, lastSpeedup: int,
    scoreA: int, scoreB: int, winner: Option<Player>, running: bool,
    registry: Registry, speedA: int, speedB: int)

  /** What every frame keeps (see PongGame.Valid). */
  predicate Consistent(p: Play)
  {
    && WellKeyed(p.registry) && Exclusive(p.registry)
    && IsPaddleSpeed(p.speedA) && IsPaddleSpeed(p.speedB)
    && 0 <= p.scoreA && 0 <= p.scoreB
    && (p.winner.Some? ==> !p.running)
  }

  /**
    Lines 137-138: the effect a frame grants. Paddle A is tested first and B only
    if A missed, so at most one player collects.
  */
  function Collected(active: bool, kind: Option<Bonus.BonusType>, bonusRect: Rect, paddleA: Rect, paddleB: Rect)
    : Option<(EffectKind, Player)>
  {
    if active && kind.Some? && bonusRect.Collides(paddleA) then Some((kind.value.effect, A))
    else if active && kind.Some? && bonusRect.Collides(paddleB) then Some((kind.value.effect, B))
    else None
  }

  /** Lines 139-144: the collected effect granted in the registry. */
  function WithGrant(p: Play, g: Option<(EffectKind, Player)>): (r: Play)
    ensures p.registry.Keys <= r.registry.Keys
  {
    if g.Some? then p.(registry := Granted(p.registry, RegistryKey(g.value.0, g.value.1))) else p
  }

  /** Line 146: both paddle speeds resolved from the registry. */
  function WithSpeeds(p: Play): Play
    requires HasRegistryKeys(p.registry)
  {
    p.(speedA := PaddleSpeedFor(p.registry, A), speedB := PaddleSpeedFor(p.registry, B))
  }

  /** Lines 148-151: the ball-speed escalation, when it is due. */
  function Escalated(p: Play, now: int): Play
  {
    if now - p.lastSpeedup > SpeedupInterval then p.(vx := SpeedUp(p.vx), vy := SpeedUp(p.vy), lastSpeedup := now)
    else p
  }

  /** Line 154: both paddles moved at their own speeds. */
  function PaddlesMoved(p: Play, keys: Keys, height: int): Play
  {
    p.(paddleA := MovedPaddle(p.paddleA, keys.aUp, keys.aDown, p.speedA, height),
       paddleB := MovedPaddle(p.paddleB, keys.bUp, keys.bDown, p.speedB, height))
  }

  /** Lines 221-236: the ball moved and bounced. */
  function Bounced(p: Play, height: int): Play
  {
    var b := Bounce(BallState(p.ball, p.vx, p.vy), p.paddleA, p.paddleB, height);
    p.(ball := b.ball, vx := b.vx, vy := b.vy)
  }

  /** Lines 255-266: a new kick-off, every effect off, paddles at the selected height. */
  function RoundReset(p: Play, width: int, height: int, serve: ServeDraw, now: int): Play
    requires ValidServe(serve)
  {
    var k := ResetBall(width, height, serve, now);
    p.(ball := k.ball, vx := k.speedX, vy := k.speedY, lastSpeedup := k.lastSpeedup,
       registry := Cleared(p.registry),
       paddleA := p.paddleA.(h := Settings.CurrentPaddleHeight()),
       paddleB := p.paddleB.(h := Settings.CurrentPaddleHeight()))
  }

  /** Lines 238-244: a ball at the left edge scores for B. */
  function LeftExit(p: Play, width: int, height: int, serve: ServeDraw, now: int): Play
    requires ValidServe(serve)
  {
    if p.ball.Left() <= 0 then
      var q := RoundReset(p.(scoreB := p.scoreB + 1), width, height, serve, now);
      if q.scoreB == WinScore then q.(winner := Some(B), running := false) else q
    else p
  }

  /** Lines 246-252: a ball at the right edge scores for A. */
  function RightExit(p: Play, width: int, height: int, serve: ServeDraw, now: int): Play
    requires ValidServe(serve)
  {
    if p.ball.Right() >= width then
      var q := RoundReset(p.(scoreA := p.scoreA + 1), width, height, serve, now);
      if q.scoreA == WinScore then q.(winner := Some(A), running := false) else q
    else p
  }

  /** Lines 216-252: move_ball. */
  function BallMoved(p: Play, width: int, height: int, now: int, serveLeft: ServeDraw, serveRight: ServeDraw): Play
    requires ValidServe(serveLeft) && ValidServe(serveRight)
  {
    RightExit(LeftExit(Bounced(p, height), width, height, serveLeft, now), width, height, serveRight, now)
  }

  /** Lines 137-155: a frame after the spawn check, granting `g`. */
  function Frame(p: Play, g: Option<(EffectKind, Player)>, now: int, keys: Keys, width: int, height: int,
                 serveLeft: ServeDraw, serveRight: ServeDraw): Play
    requires HasRegistryKeys(p.registry) && ValidServe(serveLeft) && ValidServe(serveRight)
  {
    BallMoved(PaddlesMoved(Escalated(WithSpeeds(WithGrant(p, g)), now), keys, height),
              width, height, now, serveLeft, serveRight)
  }

  // ---------------------------------------------------------------------------
  // Properties of a frame

  /** One exit (lines 238-244): without it nothing changes; with it B scores, the round resets and WIN_SCORE ends the match. */
  lemma LeftExitOutcome(p: Play, width: int, height: int, serve: ServeDraw, now: int)
    requires ValidServe(serve)
    ensures var r := LeftExit(p, width, height, serve, now);
      var k := ResetBall(width, height, serve, now);
      if p.ball.Left() <= 0 then
        && r.scoreB == p.scoreB + 1 && r.scoreA == p.scoreA
        && r.ball == k.ball && r.vx == k.speedX && r.vy == k.speedY && r.lastSpeedup == now
        && r.registry == Cleared(p.registry)
        && r.paddleA == p.paddleA.(h := Settings.CurrentPaddleHeight())
        && r.paddleB == p.paddleB.(h := Settings.CurrentPaddleHeight())
        && r.speedA == p.speedA && r.speedB == p.speedB
        && r.winner == (if r.scoreB == WinScore then Some(B) else p.winner)
        && r.running == (p.running && r.scoreB != WinScore)
      else r == p
  {
  }

  /** The other exit (lines 246-252), scoring for A. */
  lemma RightExitOutcome(p: Play, width: int, height: int, serve: ServeDraw, now: int)
    requires ValidServe(serve)
    ensures var r := RightExit(p, width, height, serve, now);
      var k := ResetBall(width, height, serve, now);
      if p.ball.Right() >= width then
        && r.scoreA == p.scoreA + 1 && r.scoreB == p.scoreB
        && r.ball == k.ball && r.vx == k.speedX && r.vy == k.speedY && r.lastSpeedup == now
        && r.registry == Cleared(p.registry)
        && r.paddleA == p.paddleA.(h := Settings.CurrentPaddleHeight())
        && r.paddleB == p.paddleB.(h := Settings.CurrentPaddleHeight())
        && r.speedA == p.speedA && r.speedB == p.speedB
        && r.winner == (if r.scoreA == WinScore then Some(A) else p.winner)
        && r.running == (p.running && r.scoreA != WinScore)
      else r == p
  {
  }

  /**
    move_ball: a left exit scores for B only; a right exit, tested on the ball as
    it is after a left reset, scores for A only. Without an exit the bounced ball
    is kept and nothing else changes; an exit resets the round; the winner is set
    and the match stops exactly when an incremented score equals WIN_SCORE.
  */
  lemma {:induction false} MoveBallOutcome(p: Play, width: int, height: int, now: int, serveLeft: ServeDraw, serveRight: ServeDraw)
    requires ValidServe(serveLeft) && ValidServe(serveRight)
    ensures var r := BallMoved(p, width, height, now, serveLeft, serveRight);
      var b := Bounce(BallState(p.ball, p.vx, p.vy), p.paddleA, p.paddleB, height);
      var exitLeft := b.ball.Left() <= 0;
      var exitRight := (if exitLeft then ResetBall(width, height, serveLeft, now).ball else b.ball).Right() >= width;
      && r.scoreB == p.scoreB + (if exitLeft then 1 else 0)
      && r.scoreA == p.scoreA + (if exitRight then 1 else 0)
      && (!exitLeft && !exitRight ==> r == p.(ball := b.ball, vx := b.vx, vy := b.vy))
      && (exitLeft || exitRight ==>
            && var k := ResetBall(width, height, if exitRight then serveRight else serveLeft, now);
            && r.ball == k.ball && r.vx == k.speedX && r.vy == k.speedY && r.lastSpeedup == now
            && r.registry == Cleared(p.registry)
            && r.paddleA == p.paddleA.(h := Settings.CurrentPaddleHeight())
            && r.paddleB == p.paddleB.(h := Settings.CurrentPaddleHeight())
            && r.speedA == p.speedA && r.speedB == p.speedB)
      && r.winner == (if exitRight && r.scoreA == WinScore then Some(A)
                      else if exitLeft && r.scoreB == WinScore then Some(B)
                      else p.winner)
      && r.running == (p.running && !(exitRight && r.scoreA == WinScore) && !(exitLeft && r.scoreB == WinScore))
  {
    var bp := Bounced(p, height);
    LeftExitOutcome(bp, width, height, serveLeft, now);
    var l := LeftExit(bp, width, height, serveLeft, now);
    RightExitOutcome(l, width, height, serveRight, now);
    if bp.ball.Left() <= 0 && l.ball.Right() >= width {
      assert Cleared(Cleared(p.registry)) == Cleared(p.registry);
    }
  }

  lemma {:induction false} ExitsKeepConsistent(p: Play, width: int, height: int, now: int, serve: ServeDraw)
    requires Consistent(p) && ValidServe(serve)
    ensures Consistent(LeftExit(p, width, height, serve, now))
    ensures Consistent(RightExit(p, width, height, serve, now))
  {
    ClearedIsInitial(p.registry);
    LeftExitOutcome(p, width, height, serve, now);
    RightExitOutcome(p, width, height, serve, now);
  }

  lemma {:induction false} BallMovedKeepsConsistent(p: Play, width: int, height: int, now: int, serveLeft: ServeDraw, serveRight: ServeDraw)
    requires Consistent(p) && ValidServe(serveLeft) && ValidServe(serveRight)
    ensures Consistent(BallMoved(p, width, height, now, serveLeft, serveRight))
  {
    var b := Bounced(p, height);
    ExitsKeepConsistent(b, width, height, now, serveLeft);
    ExitsKeepConsistent(LeftExit(b, width, height, serveLeft, now), width, height, now, serveRight);
  }

  /** A frame keeps the registry six-keyed and exclusive, the speeds legal, the scores non-negative. */
  lemma FrameKeepsConsistent(p: Play, g: Option<(EffectKind, Player)>, now: int, keys: Keys, width: int, height: int,
                             serveLeft: ServeDraw, serveRight: ServeDraw)
    requires Consistent(p) && ValidServe(serveLeft) && ValidServe(serveRight)
    ensures Consistent(Frame(p, g, now, keys, width, height, serveLeft, serveRight))
  {
    if g.Some? {
      GrantKeepsExclusive(p.registry, g.value.0, g.value.1);
    }
    var q := PaddlesMoved(Escalated(WithSpeeds(WithGrant(p, g)), now), keys, height);
    assert Consistent(q);
    BallMovedKeepsConsistent(q, width, height, now, serveLeft, serveRight);
  }

  /**
    Each player scores at most once per frame, and the winner changes only to a
    player whose score has just reached WIN_SCORE.
  */
  lemma FrameScoring(p: Play, g: Option<(EffectKind, Player)>, now: int, keys: Keys, width: int, height: int,
                     serveLeft: ServeDraw, serveRight: ServeDraw)
    requires HasRegistryKeys(p.registry) && ValidServe(serveLeft) && ValidServe(serveRight)
    ensures var r := Frame(p, g, now, keys, width, height, serveLeft, serveRight);
      && p.scoreA <= r.scoreA <= p.scoreA + 1 && p.scoreB <= r.scoreB <= p.scoreB + 1
      && (r.winner != p.winner ==>
            (r.winner == Some(A) && r.scoreA == WinScore) || (r.winner == Some(B) && r.scoreB == WinScore))
  {
    var q := PaddlesMoved(Escalated(WithSpeeds(WithGrant(p, g)), now), keys, height);
    MoveBallOutcome(q, width, height, now, serveLeft, serveRight);
  }

  /**
    A frame in which nobody scores: the registry holds the granted effect, both
    speeds are the ones it determines, each paddle made its guarded move at that
    speed, and the ball made its bounced move at the (possibly escalated)
    velocity. Nothing else changes.
  */
  lemma FrameWithoutScore(p: Play, g: Option<(EffectKind, Player)>, now: int, keys: Keys, width: int, height: int,
                          serveLeft: ServeDraw, serveRight: ServeDraw)
    requires HasRegistryKeys(p.registry) && ValidServe(serveLeft) && ValidServe(serveRight)
    ensures var r := Frame(p, g, now, keys, width, height, serveLeft, serveRight);
      var reg := WithGrant(p, g).registry;
      var sA, sB := PaddleSpeedFor(reg, A), PaddleSpeedFor(reg, B);
      var e := Escalated(p, now);
      var pA := MovedPaddle(p.paddleA, keys.aUp, keys.aDown, sA, height);
      var pB := MovedPaddle(p.paddleB, keys.bUp, keys.bDown, sB, height);
      var b := Bounce(BallState(p.ball, e.vx, e.vy), pA, pB, height);
      r.scoreA == p.scoreA && r.scoreB == p.scoreB ==>
        r == Play(pA, pB, b.ball, b.vx, b.vy, e.lastSpeedup, p.scoreA, p.scoreB, p.winner, p.running, reg, sA, sB)
  {
    var q := PaddlesMoved(Escalated(WithSpeeds(WithGrant(p, g)), now), keys, height);
    MoveBallOutcome(q, width, height, now, serveLeft, serveRight);
  }

  /**
    A frame without a score keeps both paddles within one boosted step of the
    edges. (A scoring frame restores the paddle height at lines 265-266 while
    keeping y, which can carry the bottom edge further.)
  */
  lemma FrameKeepsPaddlesInReach(p: Play, g: Option<(EffectKind, Player)>, now: int, keys: Keys, width: int, height: int,
                                 serveLeft: ServeDraw, serveRight: ServeDraw)
    requires Consistent(p) && ValidServe(serveLeft) && ValidServe(serveRight)
    requires InReach(p.paddleA, height) && InReach(p.paddleB, height)
    ensures var r := Frame(p, g, now, keys, width, height, serveLeft, serveRight);
      r.scoreA == p.scoreA && r.scoreB == p.scoreB ==> InReach(r.paddleA, height) && InReach(r.paddleB, height)
  {
    var reg := WithGrant(p, g).registry;
    if g.Some? {
      GrantKeepsExclusive(p.registry, g.value.0, g.value.1);
    }
    FrameWithoutScore(p, g, now, keys, width, height, serveLeft, serveRight);
    PaddleStaysInReach(p.paddleA, keys.aUp, keys.aDown, PaddleSpeedFor(reg, A), height);
    PaddleStaysInReach(p.paddleB, keys.bUp, keys.bDown, PaddleSpeedFor(reg, B), height);
  }

  /** The bonus after the collection test of a frame: a collected bonus leaves the field, stamped `now`. */
  function AfterCollection(b: Bonus.Snapshot, g: Option<(EffectKind, Player)>, now: int): (r: Bonus.Snapshot)
    ensures r.active == (b.active && g.None?) && r.collectedTime == (if g.Some? then now else b.collectedTime)
    ensures r.kind == b.kind && r.rect == b.rect && r.spawnTime == b.spawnTime && r.color == b.color
    ensures r.blinkTimer == b.blinkTimer && r.visible == b.visible
  {
    if g.Some? then b.(active := false, collectedTime := now) else b
  }

  /** Everything a frame of `update` changes: the match, the bonus and the spawn stamp. */
  datatype World = World(play: Play, bonus: Bonus.Snapshot, lastBonusSpawn: int)

  /**
    `update` (lines 121-155) as a function: the spawn check, and unless the spawn
    raised ValueError, the rest of the frame with the effect collected from the
    bonus as the spawn left it. Returns whether ValueError was raised.
  */
  function UpdateStep(w: World, now: int, keys: Keys, draw: Bonus.SpawnDraw, width: int, height: int,
                      serveLeft: ServeDraw, serveRight: ServeDraw): (bool, World)
    requires 0 <= draw.typeIndex < |Bonus.Catalog|
    requires HasRegistryKeys(w.play.registry) && ValidServe(serveLeft) && ValidServe(serveRight)
  {
    var due := now - w.lastBonusSpawn > BonusSpawnInterval && !w.bonus.active;
    var spawn := if due then Bonus.Spawned(w.bonus, now, width, height, draw) else (false, w.bonus);
    if spawn.0 then (true, w.(bonus := spawn.1))
    else
      var b := spawn.1;
      var g := Collected(b.active, b.kind, b.rect, w.play.paddleA, w.play.paddleB);
      (false, World(Frame(w.play, g, now, keys, width, height, serveLeft, serveRight), AfterCollection(b, g, now),
                    if due then now else w.lastBonusSpawn))
  }

  /**
    What one frame does, field by field. The spawn is due iff no bonus is on the
    field and more than the interval has passed; ValueError is raised iff it is
    due and a band is empty, and then the match is untouched and the bonus keeps
    the type, colour and x already assigned. A spawn that succeeds places a fresh
    bonus at the drawn point and restarts the interval. Without ValueError the
    match makes its `Frame`, and the bonus leaves the field, stamped `now`,
    exactly when a paddle collected it.
  */
  lemma UpdateStepOutcome(w: World, now: int, keys: Keys, draw: Bonus.SpawnDraw, width: int, height: int,
                          serveLeft: ServeDraw, serveRight: ServeDraw)
    requires HasRegistryKeys(w.play.registry) && ValidServe(serveLeft) && ValidServe(serveRight)
    requires 0 <= draw.typeIndex < |Bonus.Catalog|
    ensures var r := UpdateStep(w, now, keys, draw, width, height, serveLeft, serveRight);
      var raised := r.0;
      var b, b' := w.bonus, r.1.bonus;
      var due := now - w.lastBonusSpawn > BonusSpawnInterval && !b.active;
      var t := Bonus.Catalog[draw.typeIndex];
      && raised == (due && !(Bonus.NonEmpty(Bonus.XBand(draw.leftSide, width)) && Bonus.NonEmpty(Bonus.YBand(height))))
      && r.1.lastBonusSpawn == (if due && !raised then now else w.lastBonusSpawn)
      && b'.kind == (if due then Some(t) else b.kind) && b'.color == (if due then t.color else b.color)
      && (!due ==>
            && b'.rect == b.rect && b'.spawnTime == b.spawnTime
            && b'.blinkTimer == b.blinkTimer && b'.visible == b.visible)
      && (due && !raised ==>
            && b'.rect == b.rect.(x := draw.x, y := draw.y)
            && b'.spawnTime == now && b'.blinkTimer == 0 && b'.visible)
      && (raised ==>
            && r.1.play == w.play && !b'.active && b'.collectedTime == b.collectedTime
            && b'.spawnTime == b.spawnTime && b'.blinkTimer == b.blinkTimer && b'.visible == b.visible
            && b'.rect.y == b.rect.y
            && b'.rect.x == (if Bonus.NonEmpty(Bonus.XBand(draw.leftSide, width)) then draw.x else b.rect.x))
      && (!raised ==>
            var g := Collected(b.active || due, b'.kind, b'.rect, w.play.paddleA, w.play.paddleB);
            && r.1.play == Frame(w.play, g, now, keys, width, height, serveLeft, serveRight)
            && b'.active == ((b.active || due) && g.None?)
            && b'.collectedTime == (if g.Some? then now else b.collectedTime))
  {
  }

  /**
    While a bonus is on the field no frame spawns another: the spawn stamp and
    the bonus's type, place and spawn time stay as they are.
  */
  lemma NoSpawnWhileActive(w: World, now: int, keys: Keys, draw: Bonus.SpawnDraw, width: int, height: int,
                           serveLeft: ServeDraw, serveRight: ServeDraw)
    requires HasRegistryKeys(w.play.registry) && ValidServe(serveLeft) && ValidServe(serveRight)
    requires 0 <= draw.typeIndex < |Bonus.Catalog| && w.bonus.active
    ensures var r := UpdateStep(w, now, keys, draw, width, height, serveLeft, serveRight);
      && !r.0 && r.1.lastBonusSpawn == w.lastBonusSpawn
      && r.1.bonus.kind == w.bonus.kind && r.1.bonus.rect == w.bonus.rect && r.1.bonus.spawnTime == w.bonus.spawnTime
  {
  }

  // ---------------------------------------------------------------------------
  // The match object

  class PongGame {
    const width: int
    const height: int
    const bonus: Bonus.Bonus
    const bonusSpawnInterval: int
    var paddleA: Rect
    var paddleB: Rect
    var ball: Rect
    var ballSpeedX: int
    var ballSpeedY: int
    var lastSpeedup: int
    var scoreA: int
    var scoreB: int
    var winner: Option<Player>
    var running: bool
    var lastBonusSpawn: int
    var activeEffects: Registry
    var paddleASpeed: int
    var paddleBSpeed: int

    /** The fields a frame changes, as a value. */
    function Current(): Play
      reads this
    {
      Play(paddleA, paddleB, ball, ballSpeedX, ballSpeedY, lastSpeedup, scoreA, scoreB, winner, running,
           activeEffects, paddleASpeed, paddleBSpeed)
    }

    ghost predicate Valid()
      reads this, bonus
    {
      bonus.Valid() && bonusSpawnInterval == BonusSpawnInterval && Consistent(Current())
    }

    /**
      A new match on a `width` x `height` field: both paddles vertically centred
      at their margins, the ball kicked off from the centre, scores at zero, no
      effect held and no bonus on the field.
    */
    constructor (paddleHeight: int, width: int, height: int, now: int, serve: ServeDraw)
      requires ValidServe(serve)
      ensures Valid() && fresh(bonus) && this.width == width && this.height == height
      ensures paddleA == Rect(PaddleMarginX, height / 2 - paddleHeight / 2, PaddleWidth, paddleHeight)
      ensures paddleB == Rect(width - PaddleMarginX - PaddleWidth, height / 2 - paddleHeight / 2, PaddleWidth, paddleHeight)
      ensures var k := ResetBall(width, height, serve, now);
        ball == k.ball && ballSpeedX == k.speedX && ballSpeedY == k.speedY && lastSpeedup == k.lastSpeedup
      ensures scoreA == 0 && scoreB == 0 && winner == None && running
      ensures lastBonusSpawn == now && !bonus.active
      ensures activeEffects == InitialRegistry()
      ensures paddleASpeed == PaddleSpeed && paddleBSpeed == PaddleSpeed
    {
      this.width := width;
      this.height := height;
      paddleA := Rect(PaddleMarginX, height / 2 - paddleHeight / 2, PaddleWidth, paddleHeight);
      paddleB := Rect(width - PaddleMarginX - PaddleWidth, height / 2 - paddleHeight / 2, PaddleWidth, paddleHeight);
      var k := ResetBall(width, height, serve, now);
      ball, ballSpeedX, ballSpeedY, lastSpeedup := k.ball, k.speedX, k.speedY, k.lastSpeedup;
      scoreA, scoreB := 0, 0;
      winner := None;
      running := true;
      bonus := new Bonus.Bonus();
      lastBonusSpawn := now;
      bonusSpawnInterval := BonusSpawnInterval;
      activeEffects := InitialRegistry();
      paddleASpeed, paddleBSpeed := PaddleSpeed, PaddleSpeed;
      ClearedIsInitial(InitialRegistry());
    }

    /**
      One frame (lines 121-155). `raised` reports that spawning the bonus raised
      ValueError; the frame then stops there and the game's own fields are
      unchanged. Otherwise the rest of the frame sees the bonus as the spawn left it.
    */
    method Update(now: int, keys: Keys, draw: Bonus.SpawnDraw, serveLeft: ServeDraw, serveRight: ServeDraw)
      returns (raised: bool)
      requires Valid() && Bonus.ValidDraw(draw, width, height)
      requires ValidServe(serveLeft) && ValidServe(serveRight)
      modifies this, bonus
      ensures Valid()
      ensures (raised, World(Current(), bonus.State(), lastBonusSpawn))
        == UpdateStep(old(World(Current(), bonus.State(), lastBonusSpawn)), now, keys, draw, width, height, serveLeft, serveRight)
      ensures raised ==> unchanged(this)
    {
      raised := SpawnBonusIfDue(now, draw);
      if raised {
        return;
      }
      PlayFrame(now, keys, serveLeft, serveRight);
    }

    /**
      Lines 133-135: when no bonus is on the field and more than the spawn
      interval has passed since the last spawn, spawn one and restart the interval.
    */
    method SpawnBonusIfDue(now: int, draw: Bonus.SpawnDraw) returns (raised: bool)
      requires Valid() && Bonus.ValidDraw(draw, width, height)
      modifies this`lastBonusSpawn, bonus
      ensures Valid() && Current() == old(Current())
      ensures var due := now - old(lastBonusSpawn) > bonusSpawnInterval && !old(bonus.active);
        (raised, bonus.State())
          == (if due then Bonus.Spawned(old(bonus.State()), now, width, height, draw) else (false, old(bonus.State())))
      ensures var due := now - old(lastBonusSpawn) > bonusSpawnInterval && !old(bonus.active);
        && (!due ==> !raised && lastBonusSpawn == old(lastBonusSpawn) && unchanged(bonus))
        && (due ==> raised == !(Bonus.NonEmpty(Bonus.XBand(draw.leftSide, width)) && Bonus.NonEmpty(Bonus.YBand(height))))
        && (due ==> bonus.kind == Some(Bonus.Catalog[draw.typeIndex]) && bonus.color == Bonus.Catalog[draw.typeIndex].color
                    && bonus.collectedTime == old(bonus.collectedTime))
        && (due && raised ==>
              && lastBonusSpawn == old(lastBonusSpawn) && !bonus.active
              && bonus.spawnTime == old(bonus.spawnTime) && bonus.blinkTimer == old(bonus.blinkTimer)
              && bonus.visible == old(bonus.visible) && bonus.rect.y == old(bonus.rect.y)
              && bonus.rect.x == (if Bonus.NonEmpty(Bonus.XBand(draw.leftSide, width)) then draw.x else old(bonus.rect.x)))
        && (due && !raised ==>
              && lastBonusSpawn == now && bonus.active && bonus.spawnTime == now
              && bonus.blinkTimer == 0 && bonus.visible
              && bonus.rect == Rect(draw.x, draw.y, 2 * BonusRadius, 2 * BonusRadius)
              && Bonus.InSpawnZone(bonus.rect, width, height))
    {
      raised := false;
      if now - lastBonusSpawn > bonusSpawnInterval && !bonus.active {
        raised := bonus.Spawn(now, width, height, draw);
        if raised {
          return;
        }
        lastBonusSpawn := now;
      }
    }

    /**
      Lines 137-155, the part of a frame after the spawn check: the new state is
      `Frame` of the old one with the effect collected from the bonus; a collected
      bonus leaves the field and its collection time is stamped.
    */
    method PlayFrame(now: int, keys: Keys, serveLeft: ServeDraw, serveRight: ServeDraw)
      requires Valid() && ValidServe(serveLeft) && ValidServe(serveRight)
      modifies this`activeEffects, bonus`active, bonus`collectedTime,
        this`paddleASpeed, this`paddleBSpeed, this`ball, this`ballSpeedX, this`ballSpeedY, this`lastSpeedup,
        this`paddleA, this`paddleB, this`scoreA, this`scoreB, this`winner, this`running
      ensures Valid()
      ensures var g := Collected(old(bonus.active), old(bonus.kind), old(bonus.rect), old(paddleA), old(paddleB));
        && Current() == Frame(old(Current()), g, now, keys, width, height, serveLeft, serveRight)
        && bonus.active == (old(bonus.active) && g.None?)
        && bonus.collectedTime == (if g.Some? then now else old(bonus.collectedTime))
        && bonus.State() == AfterCollection(old(bonus.State()), g, now)
    {
      var _ := BonusAndEscalation(now);
      MovePaddles(keys);
      MoveBall(now, serveLeft, serveRight);
    }

    /**
      Lines 137-151: collect the bonus, recompute both paddle speeds from the
      registry, then escalate the ball if it is due. Nothing else changes.
    */
    method BonusAndEscalation(now: int) returns (effect: Option<string>)
      requires Valid()
      modifies this`activeEffects, bonus`active, bonus`collectedTime,
        this`paddleASpeed, this`paddleBSpeed, this`ballSpeedX, this`ballSpeedY, this`lastSpeedup
      ensures Valid()
      ensures var g := Collected(old(bonus.active), old(bonus.kind), old(bonus.rect), paddleA, paddleB);
        && Current() == Escalated(WithSpeeds(WithGrant(old(Current()), g)), now)
        && effect == (if g.Some? then Some(RegistryKey(g.value.0, g.value.1)) else None)
        && bonus.State() == AfterCollection(old(bonus.State()), g, now)
    {
      effect := CollectBonus(now);
      ApplyBonusEffects();
      SpeedUpBallIfDue(now);
    }

    /**
      Lines 137-144: the bonus is tested against paddle A first and only then
      against paddle B, so at most one player collects it; a collected key is
      granted in the registry and the collection time is stamped.
    */
    method CollectBonus(now: int) returns (effect: Option<string>)
      requires Valid()
      modifies this`activeEffects, bonus`active, bonus`collectedTime
      ensures Valid()
      ensures var g := Collected(old(bonus.active), bonus.kind, bonus.rect, paddleA, paddleB);
        && Current() == WithGrant(old(Current()), g)
        && effect == (if g.Some? then Some(RegistryKey(g.value.0, g.value.1)) else None)
        && bonus.State() == AfterCollection(old(bonus.State()), g, now)
    {
      ghost var g := Collected(bonus.active, bonus.kind, bonus.rect, paddleA, paddleB);
      effect := bonus.CheckCollision(paddleA, A, now);
      if effect.None? {
        effect := bonus.CheckCollision(paddleB, B, now);
      }
      if effect.Some? {
        GrantKeepsExclusive(activeEffects, g.value.0, g.value.1);
        GrantEffect(effect.value);
      }
    }

    /**
      Lines 140-144: the key becomes true, then every other key ending with the
      key's last character (the player letter) becomes false.
    */
    method GrantEffect(effect: string)
      requires effect != ""
      modifies this`activeEffects
      ensures activeEffects == Granted(old(activeEffects), effect)
    {
      activeEffects := activeEffects[effect := true];
      var player := [effect[|effect| - 1]];
      ghost var before := activeEffects;
      var pending := activeEffects.Keys;
      while pending != {}
        invariant activeEffects.Keys == before.Keys && pending <= before.Keys
        invariant forall k :: k in pending ==> activeEffects[k] == before[k]
        invariant forall k :: k in before && k !in pending ==>
          activeEffects[k] == (if EndsWith(k, player) && k != effect then false else before[k])
        decreases pending
      {
        var key :| key in pending;
        if EndsWith(key, player) && key != effect {
          activeEffects := activeEffects[key := false];
        }
        pending := pending - {key};
      }
    }

    /**
      Lines 158-196: each paddle gets the boosted speed if its player holds the
      speed effect and the normal speed otherwise; then a paddle whose opponent
      holds the slow effect gets the slow speed.
    */
    method ApplyBonusEffects()
      requires HasRegistryKeys(activeEffects)
      modifies this`paddleASpeed, this`paddleBSpeed
      ensures paddleASpeed == PaddleSpeedFor(activeEffects, A)
      ensures paddleBSpeed == PaddleSpeedFor(activeEffects, B)
    {
      if Holds(activeEffects, IncreaseSpeed, A) {
        paddleASpeed := BoostedPaddleSpeed;
      } else {
        paddleASpeed := PaddleSpeed;
      }
      if Holds(activeEffects, IncreaseSpeed, B) {
        paddleBSpeed := BoostedPaddleSpeed;
      } else {
        paddleBSpeed := PaddleSpeed;
      }
      if Holds(activeEffects, SlowOpponent, A) {
        paddleBSpeed := SlowedPaddleSpeed;
      } else if !Holds(activeEffects, IncreaseSpeed, B) {
        paddleBSpeed := PaddleSpeed;
      }
      if Holds(activeEffects, SlowOpponent, B) {
        paddleASpeed := SlowedPaddleSpeed;
      } else if !Holds(activeEffects, IncreaseSpeed, A) {
        paddleASpeed := PaddleSpeed;
      }
    }

    /**
      Lines 148-151: once more than SPEEDUP_INTERVAL has passed since the last
      escalation, both speed components grow by half and the interval restarts.
    */
    method SpeedUpBallIfDue(now: int)
      modifies this`ballSpeedX, this`ballSpeedY, this`lastSpeedup
      ensures now - old(lastSpeedup) > SpeedupInterval ==>
        ballSpeedX == SpeedUp(old(ballSpeedX)) && ballSpeedY == SpeedUp(old(ballSpeedY)) && lastSpeedup == now
      ensures now - old(lastSpeedup) <= SpeedupInterval ==>
        ballSpeedX == old(ballSpeedX) && ballSpeedY == old(ballSpeedY) && lastSpeedup == old(lastSpeedup)
    {
      if now - lastSpeedup > SpeedupInterval {
        ballSpeedX := SpeedUp(ballSpeedX);
        ballSpeedY := SpeedUp(ballSpeedY);
        lastSpeedup := now;
      }
    }

    /** Lines 199-213: moves each paddle by its current speed as the held keys ask. */
    method MovePaddles(keys: Keys)
      modifies this`paddleA, this`paddleB
      ensures paddleA == MovedPaddle(old(paddleA), keys.aUp, keys.aDown, paddleASpeed, height)
      ensures paddleB == MovedPaddle(old(paddleB), keys.bUp, keys.bDown, paddleBSpeed, height)
      ensures Current() == PaddlesMoved(old(Current()), keys, height)
    {
      if keys.aUp && paddleA.Top() > 0 {
        paddleA := paddleA.(y := paddleA.y - paddleASpeed);
      }
      if keys.aDown && paddleA.Bottom() < height - 1 {
        paddleA := paddleA.(y := paddleA.y + paddleASpeed);
      }
      if keys.bUp && paddleB.Top() > 0 {
        paddleB := paddleB.(y := paddleB.y - paddleBSpeed);
      }
      if keys.bDown && paddleB.Bottom() < height - 1 {
        paddleB := paddleB.(y := paddleB.y + paddleBSpeed);
      }
    }

    /**
      Lines 216-252: moves and bounces the ball, then scores a left exit and a
      right exit; see MoveBallOutcome for what that means field by field.
    */
    method MoveBall(now: int, serveLeft: ServeDraw, serveRight: ServeDraw)
      requires Valid() && ValidServe(serveLeft) && ValidServe(serveRight)
      modifies this`ball, this`ballSpeedX, this`ballSpeedY, this`lastSpeedup, this`activeEffects,
        this`paddleA, this`paddleB, this`scoreA, this`scoreB, this`winner, this`running
      ensures Valid()
      ensures Current() == BallMoved(old(Current()), width, height, now, serveLeft, serveRight)
    {
      ghost var before := Current();
      BounceBall();
      ScoreLeftExit(now, serveLeft);
      ScoreRightExit(now, serveRight);
      BallMovedKeepsConsistent(before, width, height, now, serveLeft, serveRight);
    }

    /** Lines 221-236: the first half of move_ball. */
    method BounceBall()
      modifies this`ball, this`ballSpeedX, this`ballSpeedY
      ensures BallState(ball, ballSpeedX, ballSpeedY) ==
        Bounce(BallState(old(ball), old(ballSpeedX), old(ballSpeedY)), paddleA, paddleB, height)
    {
      ball := ball.(x := ball.x + ballSpeedX);
      ball := ball.(y := ball.y + ballSpeedY);
      if ball.Top() <= 0 || ball.Bottom() >= height - 1 {
        ballSpeedY := -ballSpeedY;
      }
      if ball.Collides(paddleA) {
        ball := ball.WithLeft(paddleA.Right());
        ballSpeedX := -ballSpeedX;
      }
      if ball.Collides(paddleB) {
        ball := ball.WithRight(paddleB.Left());
        ballSpeedX := -ballSpeedX;
      }
    }


    /** Lines 238-244: a ball at the left edge scores for B. */
    method ScoreLeftExit(now: int, serve: ServeDraw)
      requires ValidServe(serve) && WellKeyed(activeEffects)
      modifies this`ball, this`ballSpeedX, this`ballSpeedY, this`lastSpeedup, this`activeEffects,
        this`paddleA, this`paddleB, this`scoreB, this`winner, this`running
      ensures Current() == LeftExit(old(Current()), width, height, serve, now)
      ensures WellKeyed(activeEffects)
    {
      if ball.Left() <= 0 {
        scoreB := scoreB + 1;
        ResetGame(now, serve);
        if scoreB == WinScore {
          winner := Some(B);
          running := false;
        }
      }
    }

    /** Lines 246-252: a ball at the right edge scores for A. */
    method ScoreRightExit(now: int, serve: ServeDraw)
      requires ValidServe(serve) && WellKeyed(activeEffects)
      modifies this`ball, this`ballSpeedX, this`ballSpeedY, this`lastSpeedup, this`activeEffects,
        this`paddleA, this`paddleB, this`scoreA, this`winner, this`running
      ensures Current() == RightExit(old(Current()), width, height, serve, now)
      ensures WellKeyed(activeEffects)
    {
      if ball.Right() >= width {
        scoreA := scoreA + 1;
        ResetGame(now, serve);
        if scoreA == WinScore {
          winner := Some(A);
          running := false;
        }
      }
    }

    /**
      Lines 255-266: a new kick-off, every effect switched off and both paddles
      back to the selected paddle height.
    */
    method ResetGame(now: int, serve: ServeDraw)
      requires ValidServe(serve) && WellKeyed(activeEffects)
      modifies this`ball, this`ballSpeedX, this`ballSpeedY, this`lastSpeedup, this`activeEffects,
        this`paddleA, this`paddleB
      ensures Current() == RoundReset(old(Current()), width, height, serve, now)
      ensures activeEffects == InitialRegistry()
    {
      var k := ResetBall(width, height, serve, now);
      ball, ballSpeedX, ballSpeedY, lastSpeedup := k.ball, k.speedX, k.speedY, k.lastSpeedup;
      ghost var before := activeEffects;
      var pending := activeEffects.Keys;
      while pending != {}
        invariant activeEffects.Keys == before.Keys && pending <= before.Keys
        invariant forall k :: k in pending ==> activeEffects[k] == before[k]
        invariant forall k :: k in before && k !in pending ==> !activeEffects[k]
        modifies this`activeEffects
        decreases pending
      {
        var key :| key in pending;
        activeEffects := activeEffects[key := false];
        pending := pending - {key};
      }
      ClearedIsInitial(before);
      paddleA := paddleA.(h := Settings.CurrentPaddleHeight());
      paddleB := paddleB.(h := Settings.CurrentPaddleHeight());
    }
  }
}
