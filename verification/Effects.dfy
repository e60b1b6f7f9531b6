/**
  The effect registry of PongGame (PONGAPP/game.py): a dictionary from string keys
  such as "increase_speed_a" to booleans, one key per effect kind and player, and
  the paddle speeds resolved from it. A collected bonus is reported as a composite
  key (PONGAPP/bonus.py) that the registry then grants.
*/
module Effects {
  import opened Constants

  datatype Player = A | B {
    /** The letter that names the player in composite keys. */
    function Letter(): (s: string)
      ensures |s| == 1
    {
      if A? then "a" else "b"
    }

    function Opponent(): (q: Player)
      ensures q != this
    {
      if A? then B else A
    }
  }

  datatype EffectKind = IncreaseSpeed | IncreaseSize | SlowOpponent {
    /** The `effect` field of the bonus catalog entry. */
    function Name(): (s: string)
      ensures |s| >= 2 && s[|s| - 1] != '_'
    {
      match this
      case IncreaseSpeed => "increase_speed"
      case IncreaseSize => "increase_size"
      case SlowOpponent => "slow_opponent"
    }
  }

  /** The registry's key for `kind` held by `player`, e.g. "increase_speed_a". */
  function RegistryKey(kind: EffectKind, player: Player): string
  {
    kind.Name() + "_" + player.Letter()
  }

  /** The key that check_collision builds as written: "increase_speed" + "a". */
  function CollectedKeyAsWritten(kind: EffectKind, player: Player): string
  {
    kind.Name() + player.Letter()
  }

  const RegistryKeys: set<string> :=
    {RegistryKey(IncreaseSpeed, A), RegistryKey(IncreaseSize, A), RegistryKey(SlowOpponent, A),
     RegistryKey(IncreaseSpeed, B), RegistryKey(IncreaseSize, B), RegistryKey(SlowOpponent, B)}

  type Registry = map<string, bool>

  /** The registry holds exactly the six keys it is created with. */
  predicate WellKeyed(m: Registry)
  {
    m.Keys == RegistryKeys
  }

  /** The registry holds at least the six keys the paddle-speed rules look up. */
  predicate HasRegistryKeys(m: Registry)
  {
    RegistryKeys <= m.Keys
  }

  lemma RegistryKeyListed(kind: EffectKind, player: Player)
    ensures RegistryKey(kind, player) in RegistryKeys
  {
  }

  /** Whether `player` currently holds `kind`. */
  function Holds(m: Registry, kind: EffectKind, player: Player): bool
    requires HasRegistryKeys(m)
  {
    RegistryKeyListed(kind, player);
    m[RegistryKey(kind, player)]
  }

  /** The registry at match start: every effect off. */
  function InitialRegistry(): (m: Registry)
    ensures WellKeyed(m)
    ensures forall k :: k in m ==> !m[k]
  {
    map k | k in RegistryKeys :: false
  }

  predicate EndsWith(s: string, suffix: string)
  {
    |suffix| <= |s| && s[|s| - |suffix|..] == suffix
  }

  /**
    Granting `effect` (lines 140-144): the entry for `effect` becomes true, adding it
    if it is missing, and every other key that ends with the last character of
    `effect` (the player letter) becomes false.
  */
  function Granted(m: Registry, effect: string): (r: Registry)
    requires effect != ""
    ensures r.Keys == m.Keys + {effect} && r[effect]
  {
    map k | k in m.Keys + {effect} ::
      if k == effect then true
      else if EndsWith(k, [effect[|effect| - 1]]) then false
      else m[k]
  }

  /** Every entry switched off (the loop at lines 263-264). */
  function Cleared(m: Registry): (r: Registry)
    ensures r.Keys == m.Keys
    ensures forall k :: k in r ==> !r[k]
  {
    map k | k in m :: false
  }

  /** How many of its effects `player` holds. */
  function ActiveCount(m: Registry, player: Player): (n: nat)
    requires HasRegistryKeys(m)
    ensures n <= 3
  {
    (if Holds(m, IncreaseSpeed, player) then 1 else 0) +
    (if Holds(m, IncreaseSize, player) then 1 else 0) +
    (if Holds(m, SlowOpponent, player) then 1 else 0)
  }

  /** At most one effect kind is on per player. */
  predicate Exclusive(m: Registry)
    requires HasRegistryKeys(m)
  {
    ActiveCount(m, A) <= 1 && ActiveCount(m, B) <= 1
  }

  /**
    The speed of `player`'s paddle as the registry determines it (lines 166-196):
    being slowed by the opponent wins over one's own boost, because the slow rule
    is applied after the boost rule.
  */
  function PaddleSpeedFor(m: Registry, player: Player): (speed: int)
    requires HasRegistryKeys(m)
    ensures speed == SlowedPaddleSpeed <==> Holds(m, SlowOpponent, player.Opponent())
    ensures speed == BoostedPaddleSpeed <==>
      !Holds(m, SlowOpponent, player.Opponent()) && Holds(m, IncreaseSpeed, player)
    ensures speed == PaddleSpeed <==>
      !Holds(m, SlowOpponent, player.Opponent()) && !Holds(m, IncreaseSpeed, player)
  {
    if Holds(m, SlowOpponent, player.Opponent()) then SlowedPaddleSpeed
    else if Holds(m, IncreaseSpeed, player) then BoostedPaddleSpeed
    else PaddleSpeed
  }

  /**
    A player who holds the speed boost while the opponent holds the slow effect
    moves at the slow speed: the slow rule (lines 188-196) runs after the boost
    rule (lines 166-174) and overwrites it.
  */
  lemma SlowBeatsBoost(m: Registry, player: Player)
    requires HasRegistryKeys(m)
    requires Holds(m, IncreaseSpeed, player) && Holds(m, SlowOpponent, player.Opponent())
    ensures PaddleSpeedFor(m, player) == SlowedPaddleSpeed
  {
  }

  // ---------------------------------------------------------------------------
  // Facts about the keys

  /** A composite key ends with the letter of the player it names. */
  lemma {:induction false} KeyEndsWithPlayer(key: string, stem: string, player: Player, other: Player)
    requires key == stem + player.Letter()
    ensures key != "" && key[|key| - 1] == player.Letter()[0]
    ensures EndsWith(key, [other.Letter()[0]]) <==> player == other
  {
  }

  lemma {:induction false} RegistryKeyInjective(k1: EffectKind, p1: Player, k2: EffectKind, p2: Player)
    ensures RegistryKey(k1, p1) == RegistryKey(k2, p2) <==> k1 == k2 && p1 == p2
  {
    var s1, s2 := RegistryKey(k1, p1), RegistryKey(k2, p2);
    if s1 == s2 {
      KeyEndsWithPlayer(s1, k1.Name() + "_", p1, p2);
      KeyEndsWithPlayer(s2, k2.Name() + "_", p2, p1);
      assert k1.Name() == s1[..|s1| - 2] == s2[..|s2| - 2] == k2.Name();
      assert k1.Name()[0] == k2.Name()[0] && |k1.Name()| == |k2.Name()|;
    }
  }

  /** The as-written composite key is none of the registry's six keys. */
  lemma {:induction false} AsWrittenKeyNotRegistered(kind: EffectKind, player: Player)
    ensures CollectedKeyAsWritten(kind, player) !in RegistryKeys
  {
    var s := CollectedKeyAsWritten(kind, player);
    forall k: EffectKind, q: Player
      ensures s != RegistryKey(k, q)
    {
      var t := RegistryKey(k, q);
      assert t[|t| - 2] == '_';
      assert s[|s| - 2] == kind.Name()[|kind.Name()| - 1] != '_';
    }
  }

  // ---------------------------------------------------------------------------
  // Granting a registry key (the intended behaviour)

  /**
    Granting `kind` to `player` turns that entry on and `player`'s other two
    entries off, leaves the opponent's three entries as they were, keeps the key
    set and keeps the registry exclusive.
  */
  lemma {:induction false} GrantRegistryKey(m: Registry, kind: EffectKind, player: Player, k: EffectKind, q: Player)
    requires WellKeyed(m)
    ensures var r := Granted(m, RegistryKey(kind, player));
      WellKeyed(r) &&
      Holds(r, k, q) == (if q == player then k == kind else Holds(m, k, q))
  {
    var e := RegistryKey(kind, player);
    RegistryKeyListed(kind, player);
    var r := Granted(m, e);
    assert r.Keys == RegistryKeys;
    var key := RegistryKey(k, q);
    KeyEndsWithPlayer(e, kind.Name() + "_", player, player);
    KeyEndsWithPlayer(key, k.Name() + "_", q, player);
    RegistryKeyInjective(k, q, kind, player);
  }

  lemma {:induction false} GrantKeepsExclusive(m: Registry, kind: EffectKind, player: Player)
    requires WellKeyed(m) && Exclusive(m)
    ensures var r := Granted(m, RegistryKey(kind, player));
      WellKeyed(r) && Exclusive(r) && ActiveCount(r, player) == 1
  {
    var r := Granted(m, RegistryKey(kind, player));
    GrantRegistryKey(m, kind, player, IncreaseSpeed, A);
    GrantRegistryKey(m, kind, player, IncreaseSize, A);
    GrantRegistryKey(m, kind, player, SlowOpponent, A);
    GrantRegistryKey(m, kind, player, IncreaseSpeed, B);
    GrantRegistryKey(m, kind, player, IncreaseSize, B);
    GrantRegistryKey(m, kind, player, SlowOpponent, B);
  }

  // ---------------------------------------------------------------------------
  // Granting the as-written key

  /**
    Granting the as-written key adds a key the registry did not have (see
    AsWrittenKeyNotRegistered) and turns none of the six
    registry entries on: `player`'s entries are switched off and the opponent's
    are kept.
  */
  lemma {:induction false} GrantAsWritten(m: Registry, kind: EffectKind, player: Player, k: EffectKind, q: Player)
    requires HasRegistryKeys(m)
    ensures var r := Granted(m, CollectedKeyAsWritten(kind, player));
      r.Keys == m.Keys + {CollectedKeyAsWritten(kind, player)} && HasRegistryKeys(r) &&
      Holds(r, k, q) == (q != player && Holds(m, k, q))
  {
    var e := CollectedKeyAsWritten(kind, player);
    AsWrittenKeyNotRegistered(kind, player);
    var r := Granted(m, e);
    var key := RegistryKey(k, q);
    RegistryKeyListed(k, q);
    KeyEndsWithPlayer(e, kind.Name(), player, player);
    KeyEndsWithPlayer(key, k.Name() + "_", q, player);
  }

  /** The registry after granting each collected (effect, player) pair in turn with the as-written key. */
  function GrantedAllAsWritten(m: Registry, grants: seq<(EffectKind, Player)>): (r: Registry)
    ensures m.Keys <= r.Keys
    decreases |grants|
  {
    if grants == [] then m
    else GrantedAllAsWritten(Granted(m, CollectedKeyAsWritten(grants[0].0, grants[0].1)), grants[1..])
  }

  /** None of the six effects is on. */
  predicate NoneHeld(m: Registry)
    requires HasRegistryKeys(m)
  {
    forall k: EffectKind, q: Player :: !Holds(m, k, q)
  }

  /**
    With the as-written keys, no sequence of collections ever turns an effect on:
    from a registry with every effect off, both paddles stay at the normal speed.
  */
  lemma {:induction false} AsWrittenNeverGrants(m: Registry, grants: seq<(EffectKind, Player)>)
    requires HasRegistryKeys(m) && NoneHeld(m)
    ensures var r := GrantedAllAsWritten(m, grants);
      HasRegistryKeys(r) && NoneHeld(r)
      && PaddleSpeedFor(r, A) == PaddleSpeed && PaddleSpeedFor(r, B) == PaddleSpeed
    decreases |grants|
  {
    if grants != [] {
      var m1 := Granted(m, CollectedKeyAsWritten(grants[0].0, grants[0].1));
      forall k: EffectKind, q: Player
        ensures HasRegistryKeys(m1) && !Holds(m1, k, q)
      {
        GrantAsWritten(m, grants[0].0, grants[0].1, k, q);
      }
      AsWrittenNeverGrants(m1, grants[1..]);
    }
  }

  /**
    Collecting a FAST bonus as player A at match start: as written, A's paddle
    keeps the normal speed; with the registry key it gets the boosted speed.
  */
  lemma CollectingFastAtStart()
    ensures PaddleSpeedFor(Granted(InitialRegistry(), CollectedKeyAsWritten(IncreaseSpeed, A)), A) == PaddleSpeed
    ensures PaddleSpeedFor(Granted(InitialRegistry(), RegistryKey(IncreaseSpeed, A)), A) == BoostedPaddleSpeed
  {
  }

  // ---------------------------------------------------------------------------
  // Clearing

  lemma ClearedIsInitial(m: Registry)
    requires WellKeyed(m)
    ensures Cleared(m) == InitialRegistry()
    ensures Exclusive(Cleared(m)) && PaddleSpeedFor(Cleared(m), A) == PaddleSpeed
    ensures PaddleSpeedFor(Cleared(m), B) == PaddleSpeed
  {
  }
}
