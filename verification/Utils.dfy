/**
  Helpers of PONGAPP/utils.py: the ball's kick-off values and the "minutes:seconds"
  clock display. The random sign draws and the clock reading are parameters.
*/
module Utils {
  import opened Constants
  import opened Geometry
  import Settings

  // ---------------------------------------------------------------------------
  // Decimal rendering, as Python's str() of an int

  predicate IsDigit(c: char) { '0' <= c <= '9' }

  predicate AllDigits(s: string) { forall i :: 0 <= i < |s| ==> IsDigit(s[i]) }

  function DigitChar(d: int): (c: char)
    requires 0 <= d < 10
    ensures IsDigit(c) && c as int - '0' as int == d
  {
    ('0' as int + d) as char
  }

  /** The decimal digits of `n`, most significant first, without leading zeros. */
  function NatToString(n: nat): (s: string)
    ensures 1 <= |s| && AllDigits(s)
    ensures n < 10 <==> |s| == 1
    ensures (|s| == 1 || s[0] != '0')
  {
    if n < 10 then [DigitChar(n)] else NatToString(n / 10) + [DigitChar(n % 10)]
  }

  /** The number a string of decimal digits denotes. */
  function DigitsValue(s: string): nat
    requires AllDigits(s)
  {
    if s == [] then 0 else DigitsValue(s[..|s| - 1]) * 10 + (s[|s| - 1] as int - '0' as int)
  }

  lemma {:induction false} NatToStringReadsBack(n: nat)
    ensures DigitsValue(NatToString(n)) == n
  {
    if n >= 10 {
      var s := NatToString(n);
      assert s[..|s| - 1] == NatToString(n / 10);
      NatToStringReadsBack(n / 10);
    }
  }

  /** str(i): a minus sign for negative numbers, then the digits of |i|. */
  function IntToString(i: int): string
  {
    if i < 0 then "-" + NatToString(-i) else NatToString(i)
  }

  /** The number a string written by IntToString denotes. */
  function SignedValue(s: string): int
    requires s != [] && AllDigits(if s[0] == '-' then s[1..] else s)
  {
    if s[0] == '-' then -(DigitsValue(s[1..]) as int) else DigitsValue(s)
  }

  lemma IntToStringReadsBack(i: int)
    ensures var s := IntToString(i); s != [] && AllDigits(if s[0] == '-' then s[1..] else s) && SignedValue(s) == i
  {
    var s := IntToString(i);
    if i < 0 {
      assert s[1..] == NatToString(-i);
      NatToStringReadsBack(-i);
    } else {
      NatToStringReadsBack(i);
    }
  }

  /** Python's "{n:02d}" for 0 <= n < 100: exactly two digits, zero-padded. */
  function TwoDigits(n: nat): (s: string)
    requires n < 100
    ensures |s| == 2 && AllDigits(s) && DigitsValue(s) == n
  {
    if n < 10 then
      var s := ['0', DigitChar(n)];
      assert s[..1] == ['0'] && ['0'][..0] == [];
      assert DigitsValue(['0']) == 0;
      assert DigitsValue(s) == DigitsValue(s[..1]) * 10 + (s[1] as int - '0' as int);
      s
    else
      assert NatToString(n) == NatToString(n / 10) + [DigitChar(n % 10)];
      NatToStringReadsBack(n);
      NatToString(n)
  }

  // ---------------------------------------------------------------------------
  // format_time

  /**
    The whole minutes and the remaining whole seconds of a duration in milliseconds,
    with Python's floor division (Dafny's `/` and `%` agree with it for a positive
    divisor).
  */
  function TimeParts(milliseconds: int): (parts: (int, int))
    ensures 0 <= parts.1 < 60
    ensures parts.0 * 60 + parts.1 == milliseconds / 1000
  {
    var totalSeconds := milliseconds / 1000;
    (totalSeconds / 60, totalSeconds % 60)
  }

  /** Renders a duration as "<minutes>:<two-digit seconds>". */
  function FormatTime(milliseconds: int): (r: string)
    ensures |r| >= 4 && r[|r| - 3] == ':'
    ensures AllDigits(r[|r| - 2..]) && DigitsValue(r[|r| - 2..]) == TimeParts(milliseconds).1
  {
    var parts := TimeParts(milliseconds);
    var r := IntToString(parts.0) + ":" + TwoDigits(parts.1);
    assert r[|r| - 2..] == TwoDigits(parts.1);
    r
  }

  /** Reading the displayed minutes and seconds back gives the elapsed whole seconds. */
  lemma FormatTimeReadsBack(milliseconds: int)
    ensures var r := FormatTime(milliseconds);
      var m := r[..|r| - 3]; var s := r[|r| - 2..];
      m != [] && AllDigits(if m[0] == '-' then m[1..] else m) && AllDigits(s) &&
      SignedValue(m) * 60 + DigitsValue(s) == milliseconds / 1000 && DigitsValue(s) < 60
  {
    var parts := TimeParts(milliseconds);
    var r := FormatTime(milliseconds);
    assert r[..|r| - 3] == IntToString(parts.0);
    IntToStringReadsBack(parts.0);
  }

  lemma FormatTimeExample()
    ensures FormatTime(65000) == "1:05"
  {
    assert TimeParts(65000) == (1, 5);
  }

  // ---------------------------------------------------------------------------
  // reset_ball

  /** The two `random.choice([-1, 1])` draws of reset_ball. */
  datatype ServeDraw = ServeDraw(signX: int, signY: int)

  predicate ValidServe(d: ServeDraw) {
    (d.signX == -1 || d.signX == 1) && (d.signY == -1 || d.signY == 1)
  }

  /** What reset_ball returns: the ball, its velocity and the speed-up timer start. */
  datatype Kickoff = Kickoff(ball: Rect, speedX: int, speedY: int, lastSpeedup: int)

  /**
    A ball of the selected size centred on a `width` x `height` field, moving
    diagonally at the initial speed in the drawn directions; the speed-up timer
    starts at `now`.
  */
  function ResetBall(width: int, height: int, draw: ServeDraw, now: int): (k: Kickoff)
    requires ValidServe(draw)
    ensures k.ball.w == Settings.CurrentBallSize() && k.ball.h == Settings.CurrentBallSize()
    ensures k.ball.x + k.ball.w / 2 == width / 2 && k.ball.y + k.ball.h / 2 == height / 2
    ensures k.speedX != 0 && (k.speedX == BallSpeedInitX || k.speedX == -BallSpeedInitX)
    ensures k.speedY != 0 && (k.speedY == BallSpeedInitY || k.speedY == -BallSpeedInitY)
    ensures (k.speedX > 0 <==> draw.signX > 0) && (k.speedY > 0 <==> draw.signY > 0)
    ensures k.lastSpeedup == now
  {
    var size := Settings.CurrentBallSize();
    Kickoff(Rect(width / 2 - size / 2, height / 2 - size / 2, size, size),
            draw.signX * BallSpeedInitX, draw.signY * BallSpeedInitY, now)
  }
}
