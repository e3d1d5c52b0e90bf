/**
 * The battle rules of src/components/BattleGame.jsx, as values.
 *
 * A `Match` is one snapshot of the component's state (phase, selected world,
 * the two combatants, whose turn it is, the combat log, the winner, the round
 * counter and the never-used power-activation counters). Each handler of the
 * component becomes a function from the old snapshot to the new one; the
 * class in battle_game.dfy performs the same updates in place and is proved
 * to agree with these functions.
 *
 * Randomness is an input: a turn receives the base damage roll (5..24) and
 * whether the hit is critical.
 */
module Battle {
  import opened Wrappers

  /** The five entries of WORLDS. A world is only a tag: no turn reads it. */
  datatype World = Amazon | DarkLands | Alaska | Europe | Africa

  /** The values of `gameState`. */
  datatype Phase = WorldSelection | Playing | Victory

  /** An index into the two-element roster: 0 is the local player, 1 the computer. */
  type Side = i: nat | i < 2

  const MaxHealth := 100
  const MaxEnergy := 50
  /** Energy below this makes the turn a recovery turn. */
  const EnergyGate := 10
  /** Energy gained on a recovery turn (before the cap). */
  const EnergyRecovery := 15
  /** Energy paid for every attack. */
  const AttackCost := 10
  const MinBaseDamage := 5
  const MaxBaseDamage := 24

  /** `(currentTurn + 1) % 2`: the index of the other combatant. */
  function Other(s: Side): (o: Side)
    ensures o != s && o == (s + 1) % 2
  {
    1 - s
  }

  function Min(a: int, b: int): int { if a <= b then a else b }

  function Max(a: int, b: int): int { if a >= b then a else b }

  /** The `stats` record of a combatant. */
  datatype Stats = Stats(attacksMade: nat, damageDealt: nat, criticalHits: nat)

  const NoStats := Stats(0, 0, 0)

  /** A combatant record: name, faction and avatar are cosmetic. */
  datatype Fighter = Fighter(name: string, faction: string, avatar: string,
                             health: int, energy: int, stats: Stats)

  /** The `players` array, which always has exactly two entries. */
  datatype Roster = Roster(first: Fighter, second: Fighter) {

    function At(s: Side): Fighter
    {
      if s == 0 then first else second
    }

    /** The roster with the combatant at index `s` replaced. */
    function With(s: Side, f: Fighter): (r: Roster)
      ensures r.At(s) == f && r.At(Other(s)) == At(Other(s))
    {
      if s == 0 then this.(first := f) else this.(second := f)
    }
  }

  /** One line of `combatLog`, kept as the data its message is built from. */
  datatype LogEntry =
    | RecoversEnergy(name: string)
    | DealsDamage(name: string, damage: nat, critical: bool)

  /** The `powerActivations` counters: reset with every match, never incremented. */
  datatype PowerActivations = PowerActivations(player1: nat, player2: nat)

  const NoActivations := PowerActivations(0, 0)

  datatype Match = Match(
    phase: Phase,
    world: Option<World>,
    players: Roster,
    turn: Side,
    log: seq<LogEntry>,
    winner: Option<Side>,
    round: nat,
    powerActivations: PowerActivations)

  /** A combatant as a match (re)starts it. */
  predicate IsFreshFighter(f: Fighter)
  {
    f.health == MaxHealth && f.energy == MaxEnergy && f.stats == NoStats
  }

  /** getInitialPlayerState: `username` is None when the argument is undefined. */
  function InitialPlayerState(username: Option<string>): (r: Roster)
    ensures r.first.name == username.GetOr("Player") && r.second.name == "Computer"
    ensures IsFreshFighter(r.first) && IsFreshFighter(r.second)
  {
    Roster(
      Fighter(username.GetOr("Player"), "House Saksa", "Black Fox", MaxHealth, MaxEnergy, NoStats),
      Fighter("Computer", "House Khilnuk", "Golden Vulture", MaxHealth, MaxEnergy, NoStats))
  }

  /** The component's state when it is first mounted. */
  function Initial(username: Option<string>): (m: Match)
    ensures m.phase == WorldSelection && m.world == None
    ensures m.players == InitialPlayerState(username)
    ensures m.turn == 0 && m.log == [] && m.winner == None && m.round == 1
  {
    Match(WorldSelection, None, InitialPlayerState(username), 0, [], None, 1, NoActivations)
  }

  /** True when the match is back at its starting position; phase and world are not part of it. */
  predicate IsFreshStart(m: Match, username: Option<string>)
  {
    m.players == InitialPlayerState(username) && m.turn == 0 && m.log == [] &&
    m.winner == None && m.round == 1 && m.powerActivations == NoActivations
  }

  /** resetGame: a fresh roster and counters; phase and world are left alone. */
  function ResetGame(m: Match, username: Option<string>): (r: Match)
    ensures IsFreshStart(r, username)
    ensures r.phase == m.phase && r.world == m.world
  {
    m.(players := InitialPlayerState(username), turn := 0, log := [], winner := None,
       round := 1, powerActivations := NoActivations)
  }

  /** startNewGame(world): reset, select the world, and play. */
  function StartNewGame(m: Match, username: Option<string>, world: Option<World>): (r: Match)
    ensures IsFreshStart(r, username)
    ensures r.phase == Playing && r.world == world
  {
    ResetGame(m, username).(world := world, phase := Playing)
  }

  /** returnToWorldSelection: back to the world list with no world selected. */
  function ReturnToWorldSelection(m: Match, username: Option<string>): (r: Match)
    ensures IsFreshStart(r, username)
    ensures r.phase == WorldSelection && r.world == None
  {
    ResetGame(m.(phase := WorldSelection, world := None), username)
  }

  /** What Math.random can produce for the base damage: floor(random * 20) + 5. */
  predicate IsBaseRoll(base: int)
  {
    MinBaseDamage <= base <= MaxBaseDamage
  }

  /** The damage of a hit: the base roll, or floor(base * 1.5) when critical. */
  function FinalDamage(base: nat, critical: bool): (d: nat)
    requires IsBaseRoll(base)
    ensures 5 <= d <= 36 && base <= d
    ensures !critical ==> d == base
    ensures critical ==> 2 * d <= 3 * base < 2 * d + 2
  {
    if critical then (3 * base) / 2 else base
  }

  /** The attacker's stats after dealing `damage`. */
  function CountHit(s: Stats, damage: nat, critical: bool): (r: Stats)
    ensures StatsLe(s, r)
    ensures r.attacksMade == s.attacksMade + 1 && r.damageDealt == s.damageDealt + damage
    ensures r.criticalHits == s.criticalHits + (if critical then 1 else 0)
  {
    Stats(s.attacksMade + 1, s.damageDealt + damage,
          if critical then s.criticalHits + 1 else s.criticalHits)
  }

  /** Component-wise `<=` on stats. */
  predicate StatsLe(s: Stats, t: Stats)
  {
    s.attacksMade <= t.attacksMade && s.damageDealt <= t.damageDealt &&
    s.criticalHits <= t.criticalHits
  }

  /** Both combatants have health in [0, 100] and energy in [0, 50]. */
  predicate Bounded(p: Roster)
  {
    forall s: Side :: 0 <= p.At(s).health <= MaxHealth && 0 <= p.At(s).energy <= MaxEnergy
  }

  /** Name, faction and avatar of both combatants agree. */
  predicate SameIdentities(p: Roster, q: Roster)
  {
    forall s: Side ::
      p.At(s).name == q.At(s).name && p.At(s).faction == q.At(s).faction &&
      p.At(s).avatar == q.At(s).avatar
  }

  /**
   * attack(): one turn of the combatant at index `m.turn`.
   * An attacker with less than 10 energy recovers 15 (capped at 50) and the
   * turn passes. Otherwise it hits for FinalDamage(base, critical), its stats
   * count the hit, the defender's health drops (not below 0), and it pays 10
   * energy. A defender left at 0 health ends the match with the attacker as
   * winner; otherwise the turn passes and the round advances.
   */
  function Attack(m: Match, base: nat, critical: bool): (r: Match)
    requires IsBaseRoll(base)
    ensures r.world == m.world && r.powerActivations == m.powerActivations
    ensures SameIdentities(m.players, r.players)
    ensures Bounded(m.players) ==> Bounded(r.players)
    ensures forall s: Side :: StatsLe(m.players.At(s).stats, r.players.At(s).stats)
    ensures forall s: Side :: 0 <= m.players.At(s).health ==>
              0 <= r.players.At(s).health <= m.players.At(s).health
    ensures |r.log| == |m.log| + 1 && r.log[1..] == m.log
    ensures r.round == m.round + 1 || r.round == m.round
    ensures r.round == m.round + 1 ==>
              r.turn == Other(m.turn) && r.phase == m.phase && r.winner == m.winner
    ensures r.round == m.round ==>
              r.turn == m.turn && r.phase == Victory && r.winner == Some(m.turn) &&
              r.players.At(Other(m.turn)).health == 0
  {
    var attacker := m.players.At(m.turn);
    var defender := m.players.At(Other(m.turn));
    if attacker.energy < EnergyGate then
      var recovered := attacker.(energy := Min(MaxEnergy, attacker.energy + EnergyRecovery));
      m.(players := m.players.With(m.turn, recovered),
         log := [RecoversEnergy(attacker.name)] + m.log,
         turn := Other(m.turn),
         round := m.round + 1)
    else
      var damage := FinalDamage(base, critical);
      var attacker' := attacker.(stats := CountHit(attacker.stats, damage, critical),
                                 energy := attacker.energy - AttackCost);
      var defender' := defender.(health := Max(0, defender.health - damage));
      var hit := m.(players := m.players.With(m.turn, attacker').With(Other(m.turn), defender'),
                    log := [DealsDamage(attacker.name, damage, critical)] + m.log);
      if defender'.health <= 0 then
        hit.(winner := Some(m.turn), phase := Victory)
      else
        hit.(turn := Other(m.turn), round := m.round + 1)
  }

  /** A turn whose attacker has less than 10 energy only recovers energy and passes the turn. */
  lemma RecoveryTurn(m: Match, base: nat, critical: bool)
    requires IsBaseRoll(base)
    requires m.players.At(m.turn).energy < EnergyGate
    ensures var a := m.players.At(m.turn);
            var r := Attack(m, base, critical);
            r.players.At(m.turn) == a.(energy := Min(MaxEnergy, a.energy + EnergyRecovery)) &&
            r.players.At(Other(m.turn)) == m.players.At(Other(m.turn)) &&
            r.turn == Other(m.turn) && r.round == m.round + 1 &&
            r.phase == m.phase && r.winner == m.winner &&
            r.log == [RecoversEnergy(a.name)] + m.log
  {
  }

  /**
   * A turn whose attacker has at least 10 energy: exact stats bookkeeping,
   * clamped damage, the flat energy cost, and the victory test.
   */
  lemma HitTurn(m: Match, base: nat, critical: bool)
    requires IsBaseRoll(base)
    requires m.players.At(m.turn).energy >= EnergyGate
    ensures var a, d := m.players.At(m.turn), m.players.At(Other(m.turn));
            var r := Attack(m, base, critical);
            var a', d' := r.players.At(m.turn), r.players.At(Other(m.turn));
            var damage := FinalDamage(base, critical);
            a'.stats.attacksMade == a.stats.attacksMade + 1 &&
            a'.stats.damageDealt == a.stats.damageDealt + damage &&
            a'.stats.criticalHits == a.stats.criticalHits + (if critical then 1 else 0) &&
            a'.energy == a.energy - AttackCost && a'.energy >= 0 && a'.health == a.health &&
            d'.health == Max(0, d.health - damage) && d'.energy == d.energy && d'.stats == d.stats &&
            r.log == [DealsDamage(a.name, damage, critical)] + m.log &&
            (d'.health == 0 ==> r.phase == Victory && r.winner == Some(m.turn) &&
                                r.turn == m.turn && r.round == m.round) &&
            (d'.health != 0 ==> r.phase == m.phase && r.winner == m.winner &&
                                r.turn == Other(m.turn) && r.round == m.round + 1) &&
            (m.phase == Playing ==> (r.phase == Victory <==> d'.health == 0))
  {
  }

  /** The selected world takes no part in a turn. */
  lemma WorldNotConsulted(m: Match, world: Option<World>, base: nat, critical: bool)
    requires IsBaseRoll(base)
    ensures Attack(m.(world := world), base, critical) == Attack(m, base, critical).(world := world)
  {
  }
}
