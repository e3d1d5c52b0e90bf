/**
 * The BattleGame component of src/components/BattleGame.jsx as an object
 * whose handlers update its state in place. The combatants are objects too:
 * attack() changes the attacker's energy and stats and the defender's health
 * on the objects themselves. Every handler is proved to leave the state that
 * the matching function of module Battle computes from the old state.
 */
module BattleGame {
  import opened Wrappers
  import opened Battle

  /** One entry of the `players` array. */
  class Combatant {
    const name: string
    const faction: string
    const avatar: string
    var health: int
    var energy: int
    var stats: Stats

    constructor (name: string, faction: string, avatar: string)
      ensures this.name == name && this.faction == faction && this.avatar == avatar
      ensures health == MaxHealth && energy == MaxEnergy && stats == NoStats
    {
      this.name, this.faction, this.avatar := name, faction, avatar;
      health, energy, stats := MaxHealth, MaxEnergy, NoStats;
    }

    /** The record this object holds right now. */
    function Value(): Fighter
      reads this
    {
      Fighter(name, faction, avatar, health, energy, stats)
    }
  }

  class Game {
    /** The component's `telegramUsername` prop; None stands for undefined. */
    const telegramUsername: Option<string>

    var gameState: Phase
    var selectedWorld: Option<World>
    var players: seq<Combatant>
    var currentTurn: Side
    var combatLog: seq<LogEntry>
    var winner: Combatant?
    var battleRound: nat
    var powerActivations: PowerActivations

    /** Two distinct combatants; a winner, when there is one, is one of them. */
    ghost predicate Valid()
      reads this
    {
      |players| == 2 && players[0] != players[1] && (winner == null || winner in players)
    }

    /** The state as a value of Battle.Match; the winner object becomes its index. */
    ghost function State(): Match
      requires Valid()
      reads this, players[0], players[1]
    {
      Match(gameState, selectedWorld, Roster(players[0].Value(), players[1].Value()),
            currentTurn, combatLog,
            if winner == null then None else if winner == players[0] then Some(0) else Some(1),
            battleRound, powerActivations)
    }

    /** getInitialPlayerState: two new combatant objects. */
    static method InitialPlayers(username: Option<string>) returns (ps: seq<Combatant>)
      ensures |ps| == 2 && fresh(ps[0]) && fresh(ps[1]) && ps[0] != ps[1]
      ensures Roster(ps[0].Value(), ps[1].Value()) == InitialPlayerState(username)
    {
      var player := new Combatant(username.GetOr("Player"), "House Saksa", "Black Fox");
      var computer := new Combatant("Computer", "House Khilnuk", "Golden Vulture");
      ps := [player, computer];
    }

    /** The first render: the world list, with a fresh roster. */
    constructor (telegramUsername: Option<string>)
      ensures Valid() && fresh(players[0]) && fresh(players[1])
      ensures State() == Initial(telegramUsername)
    {
      var roster := InitialPlayers(telegramUsername);
      this.telegramUsername := telegramUsername;
      gameState := WorldSelection;
      selectedWorld := None;
      players := roster;
      currentTurn := 0;
      combatLog := [];
      winner := null;
      battleRound := 1;
      powerActivations := NoActivations;
    }

    method ResetGame()
      requires Valid()
      modifies this
      ensures Valid() && fresh(players[0]) && fresh(players[1])
      ensures State() == Battle.ResetGame(old(State()), telegramUsername)
    {
      players := InitialPlayers(telegramUsername);
      currentTurn := 0;
      combatLog := [];
      winner := null;
      battleRound := 1;
      powerActivations := NoActivations;
    }

    method StartNewGame(world: Option<World>)
      requires Valid()
      modifies this
      ensures Valid() && fresh(players[0]) && fresh(players[1])
      ensures State() == Battle.StartNewGame(old(State()), telegramUsername, world)
    {
      ResetGame();
      selectedWorld := world;
      gameState := Playing;
    }

    method ReturnToWorldSelection()
      requires Valid()
      modifies this
      ensures Valid() && fresh(players[0]) && fresh(players[1])
      ensures State() == Battle.ReturnToWorldSelection(old(State()), telegramUsername)
    {
      gameState := WorldSelection;
      selectedWorld := None;
      ResetGame();
    }

    /**
     * attack(): the turn of `players[currentTurn]`, with the base damage roll
     * and the critical-hit roll passed in. The combatant objects are changed
     * in place; the array of them stays the same.
     */
    method Attack(base: nat, isCritical: bool)
      requires Valid() && IsBaseRoll(base)
      modifies this, players[0], players[1]
      ensures Valid() && players == old(players)
      ensures State() == Battle.Attack(old(State()), base, isCritical)
    {
      if players[currentTurn].energy < EnergyGate {
        RecoverEnergy(base, isCritical);
      } else {
        Strike(base, isCritical);
      }
    }

    /** The energy-recovery phase of attack(): +15 energy, capped at 50, and the turn passes. */
    method RecoverEnergy(ghost base: nat, ghost isCritical: bool)
      requires Valid() && IsBaseRoll(base)
      requires players[currentTurn].energy < EnergyGate
      modifies this, players[currentTurn]
      ensures Valid() && players == old(players)
      ensures State() == Battle.Attack(old(State()), base, isCritical)
    {
      ghost var m := State();
      RecoveryTurn(m, base, isCritical);
      var attacker := players[currentTurn];
      var defender := players[(currentTurn + 1) % 2];
      attacker.energy := Min(MaxEnergy, attacker.energy + EnergyRecovery);
      combatLog := [RecoversEnergy(attacker.name)] + combatLog;
      currentTurn := (currentTurn + 1) % 2;
      battleRound := battleRound + 1;
      SameRoster(m.turn, attacker, defender, players, Battle.Attack(m, base, isCritical).players);
    }

    /** The attack phase of attack(): damage, stats, energy cost, and the victory test. */
    method Strike(base: nat, isCritical: bool)
      requires Valid() && IsBaseRoll(base)
      requires players[currentTurn].energy >= EnergyGate
      modifies this, players[0], players[1]
      ensures Valid() && players == old(players)
      ensures State() == Battle.Attack(old(State()), base, isCritical)
    {
      ghost var m := State();
      HitTurn(m, base, isCritical);
      var attacker := players[currentTurn];
      var defender := players[(currentTurn + 1) % 2];
      var finalDamage := FinalDamage(base, isCritical);

      var stats := attacker.stats;
      stats := stats.(attacksMade := stats.attacksMade + 1);
      stats := stats.(damageDealt := stats.damageDealt + finalDamage);
      if isCritical {
        stats := stats.(criticalHits := stats.criticalHits + 1);
      }
      attacker.stats := stats;

      defender.health := Max(0, defender.health - finalDamage);
      attacker.energy := attacker.energy - AttackCost;

      combatLog := [DealsDamage(attacker.name, finalDamage, isCritical)] + combatLog;
      SameRoster(m.turn, attacker, defender, players, Battle.Attack(m, base, isCritical).players);

      if defender.health <= 0 {
        winner := attacker;
        gameState := Victory;
      } else {
        currentTurn := (currentTurn + 1) % 2;
        battleRound := battleRound + 1;
      }
    }
  }

  /** The roster read off the two objects is `p` when the objects hold p's records at their indices. */
  lemma SameRoster(t: Side, attacker: Combatant, defender: Combatant, players: seq<Combatant>, p: Roster)
    requires |players| == 2 && attacker == players[t] && defender == players[Other(t)]
    requires attacker.Value() == p.At(t) && defender.Value() == p.At(Other(t))
    ensures Roster(players[0].Value(), players[1].Value()) == p
  {
  }
}
