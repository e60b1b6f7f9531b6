/**
  The game's tuning constants (PONGAPP/constants.py). Floating-point factors that
  only ever multiply PADDLE_SPEED are given as the exact integers they produce.
*/
module Constants {
  /** The nominal screen size; the bonus spawn bands are computed from it. */
  const Width := 1000
  const Height := 600

  datatype Color = Color(r: int, g: int, b: int)
  const White := Color(255, 255, 255)
  const Red := Color(255, 0, 0)
  const Green := Color(0, 255, 0)
  const Yellow := Color(255, 255, 0)

  const SpeedupInterval := 10000
  const WinScore := 1
  const BallSpeedInitX := 5
  const BallSpeedInitY := 5
  const PaddleWidth := 10
  const PaddleHeight := 100
  const PaddleSpeed := 15
  const PaddleMarginX := 30

  /** PADDLE_SPEED * SPEED_BOOST, that is 15 * 1.8. */
  const BoostedPaddleSpeed := 27
  /** PADDLE_SPEED * SPEED_SLOW, that is 15 * 0.6. */
  const SlowedPaddleSpeed := 9

  const BonusRadius := 25
  const BonusSpawnInterval := 15000
  const BonusDuration := 10000
  const BonusBlinkInterval := 20
  const BonusMarginX := 50
  const BonusLeftZone := Width / 3
  const BonusRightZone := Width * 2 / 3
}
