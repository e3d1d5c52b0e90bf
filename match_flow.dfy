/**
 * The phase machine that the screens of src/components/BattleGame.jsx put
 * around the handlers: which handler a screen can fire, and the invariant
 * that every state reached from the first render keeps.
 */
module MatchFlow {
  import opened Wrappers
  import opened Battle

  /** What a user (or the computer's timer) can do. */
  datatype Action =
    | ChooseWorld(world: World)        // a world button: startNewGame(world)
    | Rematch                          // "Rematch": startNewGame(selectedWorld)
    | ChooseNewWorld                   // "Choose New World" or "Home": returnToWorldSelection
    | Turn(base: nat, critical: bool)  // the attack button (turn 0) or the timer (turn 1): attack

  /**
   * The world buttons exist only on the selection screen, the two victory
   * buttons only on the victory screen, "Home" and the attack button only on
   * the battle screen, and the timer fires only while playing. Math.random
   * yields a base roll in 5..24.
   */
  predicate Enabled(m: Match, a: Action)
  {
    match a
    case ChooseWorld(_) => m.phase == WorldSelection
    case Rematch => m.phase == Victory
    case ChooseNewWorld => m.phase != WorldSelection
    case Turn(base, _) => m.phase == Playing && IsBaseRoll(base)
  }

  /**
   * The actions each screen offers: the world list only its world buttons,
   * the battle screen "Home" and a turn (the attack button on turn 0, the
   * timer on turn 1), the victory screen "Rematch" and "Choose New World".
   */
  lemma OfferedActions(m: Match, a: Action)
    ensures m.phase == WorldSelection ==> (Enabled(m, a) <==> a.ChooseWorld?)
    ensures m.phase == Playing ==>
              (Enabled(m, a) <==> a.ChooseNewWorld? || (a.Turn? && IsBaseRoll(a.base)))
    ensures m.phase == Victory ==> (Enabled(m, a) <==> a.Rematch? || a.ChooseNewWorld?)
  {
  }

  /** One action; an action no screen offers leaves the state as it is. */
  function Step(m: Match, username: Option<string>, a: Action): (r: Match)
    ensures !Enabled(m, a) ==> r == m
    ensures Enabled(m, a) && !a.Turn? ==> IsFreshStart(r, username)
    ensures Enabled(m, a) && a.ChooseWorld? ==> r.phase == Playing && r.world == Some(a.world)
    ensures Enabled(m, a) && a.Rematch? ==> r.phase == Playing && r.world == m.world
    ensures Enabled(m, a) && a.ChooseNewWorld? ==> r.phase == WorldSelection && r.world == None
    ensures Enabled(m, a) && a.Turn? ==> r.world == m.world && |r.log| == |m.log| + 1 && r.log[1..] == m.log
    ensures Enabled(m, a) && a.Turn? ==> r == Attack(m, a.base, a.critical)
  {
    if !Enabled(m, a) then m
    else match a
      case ChooseWorld(w) => StartNewGame(m, username, Some(w))
      case Rematch => StartNewGame(m, username, m.world)
      case ChooseNewWorld => ReturnToWorldSelection(m, username)
      case Turn(base, critical) => Attack(m, base, critical)
  }

  /** The actions in order. */
  function Run(m: Match, username: Option<string>, actions: seq<Action>): Match
    decreases |actions|
  {
    if actions == [] then m else Run(Step(m, username, actions[0]), username, actions[1..])
  }

  /** Bounds that each combatant's own counters satisfy: every hit deals 5..36. */
  predicate StatsConsistent(s: Stats)
  {
    s.criticalHits <= s.attacksMade &&
    5 * s.attacksMade <= s.damageDealt <= 36 * s.attacksMade
  }

  /**
   * What holds of one combatant: its vitals are in range, its counters agree
   * with 5..36 damage per hit, and its opponent's health is exactly what its
   * damage left of 100.
   */
  predicate FighterConsistent(f: Fighter, opponent: Fighter)
  {
    0 <= f.health <= MaxHealth && 0 <= f.energy <= MaxEnergy &&
    StatsConsistent(f.stats) &&
    opponent.health == Max(0, MaxHealth - f.stats.damageDealt)
  }

  /** The invariant of every reachable state. */
  predicate Consistent(m: Match)
  {
    FighterConsistent(m.players.first, m.players.second) &&
    FighterConsistent(m.players.second, m.players.first) &&
    (m.winner.Some? <==> m.phase == Victory) &&
    (m.phase == Victory ==>
       m.world.Some? && m.turn == m.winner.value &&
       m.players.At(m.turn).health > 0 && m.players.At(Other(m.turn)).health == 0) &&
    (m.phase == Playing ==>
       m.world.Some? && m.players.first.health > 0 && m.players.second.health > 0) &&
    (m.phase == WorldSelection ==> m.world.None?) &&
    m.round == |m.log| + (if m.phase == Victory then 0 else 1) &&
    m.powerActivations == NoActivations
  }

  /** The invariant includes the bounds on health and energy. */
  lemma ConsistentIsBounded(m: Match)
    requires Consistent(m)
    ensures Bounded(m.players)
  {
    forall s: Side ensures 0 <= m.players.At(s).health <= MaxHealth {
    }
  }

  lemma InitialConsistent(username: Option<string>)
    ensures Consistent(Initial(username))
  {
  }

  /** A fresh start in any phase but Victory satisfies the invariant. */
  lemma FreshStartConsistent(m: Match, username: Option<string>)
    requires IsFreshStart(m, username)
    requires m.phase != Victory
    requires m.phase == Playing <==> m.world.Some?
    ensures Consistent(m)
  {
  }

  /** On the victory screen "Rematch" keeps the world; "Choose New World" clears it. */
  lemma VictoryChoices(m: Match, username: Option<string>)
    requires m.phase == Victory
    ensures var r := Step(m, username, Rematch);
            r.phase == Playing && r.world == m.world && IsFreshStart(r, username)
    ensures var r := Step(m, username, ChooseNewWorld);
            r.phase == WorldSelection && r.world == None && IsFreshStart(r, username)
  {
  }

  /** A recovery turn on the battle screen keeps the invariant. */
  lemma RecoveryConsistent(m: Match, base: nat, critical: bool)
    requires Consistent(m) && m.phase == Playing && IsBaseRoll(base)
    requires m.players.At(m.turn).energy < EnergyGate
    ensures Consistent(Attack(m, base, critical))
  {
    RecoveryTurn(m, base, critical);
  }

  /** Counting a hit of a legal roll keeps a combatant's counters consistent. */
  lemma CountHitConsistent(s: Stats, base: nat, critical: bool)
    requires StatsConsistent(s) && IsBaseRoll(base)
    ensures StatsConsistent(CountHit(s, FinalDamage(base, critical), critical))
  {
  }

  /** The health a hit of `damage` leaves agrees with the hitter's new damage total. */
  lemma ClampedHealth(dealt: nat, damage: nat, health: int)
    requires health == Max(0, MaxHealth - dealt)
    ensures Max(0, health - damage) == Max(0, MaxHealth - (dealt + damage))
  {
  }

  /** A hit on the battle screen keeps the invariant. */
  lemma HitConsistent(m: Match, base: nat, critical: bool)
    requires Consistent(m) && m.phase == Playing && IsBaseRoll(base)
    requires m.players.At(m.turn).energy >= EnergyGate
    ensures Consistent(Attack(m, base, critical))
  {
    HitTurn(m, base, critical);
    var t := m.turn;
    var a, d := m.players.At(t), m.players.At(Other(t));
    var r := Attack(m, base, critical);
    var a', d' := r.players.At(t), r.players.At(Other(t));
    ClampedHealth(a.stats.damageDealt, FinalDamage(base, critical), d.health);
    assert FighterConsistent(a', d');
    assert FighterConsistent(d', a');
    if t == 0 {
      assert r.players.first == a' && r.players.second == d';
    } else {
      assert r.players.first == d' && r.players.second == a';
    }
  }

  /** An attack on the battle screen keeps the invariant. */
  lemma AttackConsistent(m: Match, base: nat, critical: bool)
    requires Consistent(m) && m.phase == Playing && IsBaseRoll(base)
    ensures Consistent(Attack(m, base, critical))
  {
    if m.players.At(m.turn).energy < EnergyGate {
      RecoveryConsistent(m, base, critical);
    } else {
      HitConsistent(m, base, critical);
    }
  }

  /** Every action keeps the invariant. */
  lemma StepConsistent(m: Match, username: Option<string>, a: Action)
    requires Consistent(m)
    ensures Consistent(Step(m, username, a))
  {
    if Enabled(m, a) {
      match a
      case ChooseWorld(w) =>
        FreshStartConsistent(StartNewGame(m, username, Some(w)), username);
      case Rematch =>
        FreshStartConsistent(StartNewGame(m, username, m.world), username);
      case ChooseNewWorld =>
        FreshStartConsistent(ReturnToWorldSelection(m, username), username);
      case Turn(base, critical) =>
        AttackConsistent(m, base, critical);
    }
  }

  lemma {:induction false} RunConsistent(m: Match, username: Option<string>, actions: seq<Action>)
    requires Consistent(m)
    ensures Consistent(Run(m, username, actions))
    decreases |actions|
  {
    if actions != [] {
      StepConsistent(m, username, actions[0]);
      RunConsistent(Step(m, username, actions[0]), username, actions[1..]);
    }
  }

  /**
   * From the first render, whatever happens: health stays in [0, 100] and
   * energy in [0, 50], a winner exists exactly in the victory phase and its
   * opponent is the one at 0 health, and the round counter is one more than
   * the number of turns played, except after the winning turn.
   */
  lemma ReachableConsistent(username: Option<string>, actions: seq<Action>)
    ensures Consistent(Run(Initial(username), username, actions))
    ensures Bounded(Run(Initial(username), username, actions).players)
  {
    InitialConsistent(username);
    RunConsistent(Initial(username), username, actions);
    ConsistentIsBounded(Run(Initial(username), username, actions));
  }

  /**
   * Within one match (no handler but attack fired), no stat of either side
   * decreases and no health increases.
   */
  lemma {:induction false} TurnsOnlyGrowStats(m: Match, username: Option<string>, actions: seq<Action>)
    requires Consistent(m)
    requires forall k :: 0 <= k < |actions| ==> actions[k].Turn?
    ensures var r := Run(m, username, actions);
            forall s: Side ::
              StatsLe(m.players.At(s).stats, r.players.At(s).stats) &&
              r.players.At(s).health <= m.players.At(s).health
    decreases |actions|
  {
    if actions != [] {
      var m' := Step(m, username, actions[0]);
      StepConsistent(m, username, actions[0]);
      TurnsOnlyGrowStats(m', username, actions[1..]);
    }
  }
}
