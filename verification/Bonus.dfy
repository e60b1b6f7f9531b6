/**
  The power-up of PONGAPP/bonus.py: one reusable Bonus object that is spawned at
  a random place with a random type, expires after its duration if nobody takes
  it, or is collected by a paddle, which starts the collected effect's countdown.
  The clock reading `now` and the random draws are parameters.
*/
module Bonus {
  import opened Options
  import opened Constants
  import opened Geometry
  import opened Effects

  datatype BonusType = BonusType(name: string, color: Color, effect: EffectKind)

  /** The three bonus types a spawn chooses from. */
  const Catalog: seq<BonusType> :=
    [BonusType("FAST", Green, IncreaseSpeed),
     BonusType("BIG", Yellow, IncreaseSize),
     BonusType("SLOW", Red, SlowOpponent)]

  /**
    The random draws of one spawn: `random.choice` of the type and of the side,
    then `random.randint` of x within that side's band and of y.
  */
  datatype SpawnDraw = SpawnDraw(typeIndex: int, leftSide: bool, x: int, y: int)

  /** The inclusive x range of one side; both bands are fixed by the nominal width. */
  function XBand(leftSide: bool, width: int): (int, int)
  {
    if leftSide then (BonusMarginX, BonusLeftZone) else (BonusRightZone, width - BonusMarginX)
  }

  /** The inclusive y range: one paddle height away from the top and bottom. */
  function YBand(height: int): (int, int)
  {
    (PaddleHeight, height - PaddleHeight)
  }

  predicate NonEmpty(band: (int, int)) { band.0 <= band.1 }

  predicate InBand(v: int, band: (int, int)) { band.0 <= v <= band.1 }

  /**
    What the random module can return: an index into the catalog, and for a
    non-empty band a value inside it (randint raises ValueError on an empty one).
  */
  predicate ValidDraw(d: SpawnDraw, width: int, height: int)
  {
    && 0 <= d.typeIndex < |Catalog|
    && (NonEmpty(XBand(d.leftSide, width)) ==> InBand(d.x, XBand(d.leftSide, width)))
    && (NonEmpty(YBand(height)) ==> InBand(d.y, YBand(height)))
  }

  /** The area a spawned bonus's corner lies in. */
  predicate InSpawnZone(r: Rect, width: int, height: int)
  {
    (InBand(r.x, XBand(true, width)) || InBand(r.x, XBand(false, width))) &&
    InBand(r.y, YBand(height))
  }

  /** The fields of a bonus that its methods change, as a value. */
  datatype Snapshot = Snapshot(active: bool, kind: Option<BonusType>, rect: Rect, spawnTime: int,
                               collectedTime: int, color: Color, blinkTimer: int, visible: bool)

  /**
    `spawn` (lines 70-89) on a snapshot: whether randint raised ValueError, and
    the fields afterwards. The type and colour are replaced first, then x, then
    y; an empty band stops the spawn where it is.
  */
  function Spawned(s: Snapshot, now: int, width: int, height: int, draw: SpawnDraw): (r: (bool, Snapshot))
    requires 0 <= draw.typeIndex < |Catalog|
    ensures r.1.collectedTime == s.collectedTime && r.1.rect.w == s.rect.w && r.1.rect.h == s.rect.h
    ensures r.0 ==> !r.1.active
  {
    if s.active then (false, s)
    else
      var t := Catalog[draw.typeIndex];
      var typed := s.(kind := Some(t), color := t.color);
      if !NonEmpty(XBand(draw.leftSide, width)) then (true, typed)
      else if !NonEmpty(YBand(height)) then (true, typed.(rect := s.rect.(x := draw.x)))
      else (false, typed.(rect := s.rect.(x := draw.x, y := draw.y), active := true, spawnTime := now,
                          blinkTimer := 0, visible := true))
  }

  /**
    On the 600-pixel-wide screen the right band [666, 550] is empty, so a spawn on
    the right raises; on the 800-pixel screen both bands are usable.
  */
  lemma SpawnBandsByScreen()
    ensures !NonEmpty(XBand(false, 600)) && NonEmpty(XBand(true, 600))
    ensures NonEmpty(XBand(false, 800)) && NonEmpty(XBand(true, 800))
    ensures NonEmpty(YBand(300)) && NonEmpty(YBand(400))
  {
  }

  /** max(0, duration - elapsed) // 1000: the whole seconds left, never negative. */
  function RemainingSeconds(duration: int, elapsed: int): (s: int)
    requires duration >= 0
    ensures 0 <= s
    ensures elapsed >= 0 ==> s <= duration / 1000
    ensures elapsed <= duration ==> s * 1000 <= duration - elapsed < (s + 1) * 1000
    ensures elapsed >= duration ==> s == 0
  {
    var left := if duration - elapsed > 0 then duration - elapsed else 0;
    assert elapsed >= 0 ==> left / 1000 <= duration / 1000 by {
      if elapsed >= 0 { ThousandthsMonotone(left, duration); }
    }
    left / 1000
  }

  lemma ThousandthsMonotone(a: int, b: int)
    requires 0 <= a <= b
    ensures a / 1000 <= b / 1000
  {
  }

  class Bonus {
    const radius: int
    const duration: int
    var active: bool
    var kind: Option<BonusType>
    var rect: Rect
    var spawnTime: int
    var collectedTime: int
    var color: Color
    var blinkTimer: int
    var visible: bool

    function State(): Snapshot
      reads this
    {
      Snapshot(active, kind, rect, spawnTime, collectedTime, color, blinkTimer, visible)
    }

    ghost predicate Valid()
      reads this
    {
      && radius == BonusRadius && duration == BonusDuration
      && rect.w == 2 * radius && rect.h == 2 * radius
      && (active ==> kind.Some?)
      && (collectedTime != 0 ==> kind.Some?)
      && (kind.Some? ==> kind.value in Catalog && color == kind.value.color)
    }

    constructor ()
      ensures Valid() && !active && kind == None && color == White
      ensures rect == Rect(0, 0, 2 * BonusRadius, 2 * BonusRadius)
      ensures spawnTime == 0 && collectedTime == 0 && blinkTimer == 0 && visible
    {
      radius := BonusRadius;
      duration := BonusDuration;
      active := false;
      kind := None;
      rect := Rect(0, 0, 2 * BonusRadius, 2 * BonusRadius);
      spawnTime := 0;
      collectedTime := 0;
      color := White;
      blinkTimer := 0;
      visible := true;
    }

    /**
      Places the bonus if it is not already on the field. `raised` reports the
      ValueError of randint on an empty band; by then the type and colour (and,
      if the x band was usable, x) have already been replaced.
    */
    method Spawn(now: int, width: int, height: int, draw: SpawnDraw) returns (raised: bool)
      requires Valid() && ValidDraw(draw, width, height)
      modifies this
      ensures Valid() && collectedTime == old(collectedTime)
      ensures (raised, State()) == Spawned(old(State()), now, width, height, draw)
      ensures old(active) ==> !raised && unchanged(this)
      ensures !old(active) ==> kind == Some(Catalog[draw.typeIndex]) && color == Catalog[draw.typeIndex].color
      ensures !old(active) ==>
        raised == !(NonEmpty(XBand(draw.leftSide, width)) && NonEmpty(YBand(height)))
      ensures !old(active) && !raised ==>
        && active && spawnTime == now && blinkTimer == 0 && visible
        && rect == Rect(draw.x, draw.y, 2 * radius, 2 * radius)
        && InSpawnZone(rect, width, height)
      ensures raised ==>
        && !active && spawnTime == old(spawnTime) && blinkTimer == old(blinkTimer)
        && visible == old(visible) && rect.y == old(rect.y)
        && rect.x == (if NonEmpty(XBand(draw.leftSide, width)) then draw.x else old(rect.x))
        && rect.w == old(rect.w) && rect.h == old(rect.h)
    {
      raised := false;
      if !active {
        kind := Some(Catalog[draw.typeIndex]);
        color := Catalog[draw.typeIndex].color;
        if !NonEmpty(XBand(draw.leftSide, width)) {
          raised := true;
          return;
        }
        rect := rect.(x := draw.x);
        if !NonEmpty(YBand(height)) {
          raised := true;
          return;
        }
        rect := rect.(y := draw.y);
        active := true;
        spawnTime := now;
        blinkTimer := 0;
        visible := true;
      }
    }

    /** Removes an uncollected bonus once more than `duration` has passed since it spawned. */
    method Update(now: int)
      requires Valid()
      modifies this`active
      ensures Valid()
      ensures active == (old(active) && now - spawnTime <= duration)
    {
      if active && now - spawnTime > duration {
        active := false;
      }
    }

    /**
      The state-changing part of draw: while the bonus is on the field each call
      advances the blink counter and flips visibility every BonusBlinkInterval
      calls. Returns the seconds shown on the marker (when it is drawn) and in the
      collected-bonus banner (while the collected effect runs).
    */
    method Draw(now: int) returns (markerSeconds: Option<int>, bannerSeconds: Option<int>)
      requires Valid()
      modifies this`blinkTimer, this`visible
      ensures Valid()
      ensures active ==> blinkTimer == old(blinkTimer) + 1
      ensures active ==> (visible != old(visible) <==> blinkTimer % BonusBlinkInterval == 0)
      ensures !active ==> blinkTimer == old(blinkTimer) && visible == old(visible)
      ensures markerSeconds.Some? <==> active && visible
      ensures markerSeconds.Some? ==> markerSeconds.value == RemainingSeconds(duration, now - spawnTime)
      ensures bannerSeconds.Some? <==> IsActive(now)
      ensures bannerSeconds.Some? ==>
        bannerSeconds.value == RemainingSeconds(duration, now - collectedTime) &&
        (now >= collectedTime ==> 0 <= bannerSeconds.value <= duration / 1000)
    {
      markerSeconds, bannerSeconds := None, None;
      if active {
        blinkTimer := blinkTimer + 1;
        if blinkTimer % BonusBlinkInterval == 0 {
          visible := !visible;
        }
        if visible {
          markerSeconds := Some(RemainingSeconds(duration, now - spawnTime));
        }
      }
      if collectedTime > 0 {
        var remaining := if duration - (now - collectedTime) > 0 then duration - (now - collectedTime) else 0;
        if remaining > 0 {
          bannerSeconds := Some(remaining / 1000);
        }
      }
    }

    /**
      Collects the bonus if it is on the field and overlaps `paddle`: it leaves the
      field, the collection time is stamped and the player's composite registry
      key is returned.
    */
    method CheckCollision(paddle: Rect, player: Player, now: int) returns (effect: Option<string>)
      requires Valid()
      modifies this`active, this`collectedTime
      ensures Valid()
      ensures effect.Some? <==> old(active) && rect.Collides(paddle)
      ensures effect.Some? ==>
        && !active && collectedTime == now
        && effect.value == RegistryKey(kind.value.effect, player)
        && (IsActive(now) <==> now > 0) && !IsActive(now + duration)
      ensures effect.None? ==> active == old(active) && collectedTime == old(collectedTime)
    {
      if active && rect.Collides(paddle) {
        active := false;
        collectedTime := now;
        return Some(RegistryKey(kind.value.effect, player));
      }
      return None;
    }

    /** Whether a collected effect is still running at `now`. */
    function IsActive(now: int): (live: bool)
      reads this
      ensures live <==> collectedTime > 0 && now < collectedTime + duration
    {
      if collectedTime > 0 then now - collectedTime < duration else false
    }
  }
}
