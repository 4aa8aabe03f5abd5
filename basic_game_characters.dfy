/** The basic game-characters exercise: a Character with health and
    strength, and the Warrior's attack, which takes health off its enemy. */
module BasicGameCharacters {
  import Limits

  const INITIAL_HEALTH: int := 100
  const MIN_STRENGTH: int := 0
  const MAX_STRENGTH: int := 1000

  /** generateRandomStrength(min, max): the distribution's draw, which lies
      in the closed range [min, max]. */
  function GenerateRandomStrength(minStrength: int, maxStrength: int, draw: int): (r: int)
    requires minStrength <= draw <= maxStrength
    ensures minStrength <= r <= maxStrength
  {
    draw
  }

  /** The damage a Warrior deals, as written: the enemy's strength minus the
      attacker's. */
  function Damage(attackerStrength: int, enemyStrength: int): (d: int)
    ensures d + attackerStrength == enemyStrength
  {
    enemyStrength - attackerStrength
  }

  /** The enemy's health after an attack with the given damage: a
      non-negative damage takes min(damage, health) off; a negative damage
      leaves health as it was (the enemy only defends). */
  function HealthAfterAttack(health: int, damage: int): (h: int)
    ensures damage < 0 ==> h == health
    ensures 0 <= health && 0 <= damage ==> 0 <= h <= health
    ensures 0 <= damage && damage >= health ==> h == 0
    ensures 0 <= damage <= health ==> h == health - damage
  {
    if damage >= 0 then
      health - (if damage > health then health else damage)
    else
      health
  }

  function HealthAfterAttacks(health: int, damage: int, n: nat): int
    decreases n
  {
    if n == 0 then health else HealthAfterAttacks(HealthAfterAttack(health, damage), damage, n - 1)
  }

  /** n attacks with the same non-negative damage leave max(health - n * damage, 0). */
  lemma {:induction false} RepeatedAttacks(health: int, damage: int, n: nat)
    requires 0 <= health && 0 <= damage
    ensures HealthAfterAttacks(health, damage, n) == Limits.Max(health - n * damage, 0)
  {
    if n > 0 {
      var next := HealthAfterAttack(health, damage);
      RepeatedAttacks(next, damage, n - 1);
      if damage <= health {
        assert health - damage - (n - 1) * damage == health - n * damage;
      } else {
        assert health - n * damage <= 0 by {
          assert n * damage >= damage;
        }
      }
    }
  }

  datatype AttackOutcome =
    | Hit(damage: int)   // "Successful attack", with the damage printed
    | Defended           // the enemy's defend() ran instead

  class Character {
    const name: string
    var health: int
    var strength: int

    /** Character(name): health 100 and a strength drawn from [0, 1000]. */
    constructor (name: string, strengthDraw: int)
      requires MIN_STRENGTH <= strengthDraw <= MAX_STRENGTH
      ensures GetName() == name && GetHealth() == INITIAL_HEALTH && GetStrength() == strengthDraw
      ensures MIN_STRENGTH <= GetStrength() <= MAX_STRENGTH
    {
      this.name := name;
      health := INITIAL_HEALTH;
      strength := GenerateRandomStrength(MIN_STRENGTH, MAX_STRENGTH, strengthDraw);
    }

    function GetStrength(): int
      reads this
    {
      strength
    }

    function GetHealth(): int
      reads this
    {
      health
    }

    function GetName(): string {
      name
    }

    method SetStrength(newStrength: int)
      modifies this`strength
      ensures GetStrength() == newStrength && GetHealth() == old(GetHealth())
    {
      strength := newStrength;
    }

    /** Stores the new health as it is, negative values included. */
    method SetHealth(newHealth: int)
      modifies this`health
      ensures GetHealth() == newHealth && GetStrength() == old(GetStrength())
    {
      health := newHealth;
    }

    /** Warrior::attack(enemy). */
    method Attack(enemy: Character) returns (outcome: AttackOutcome)
      requires Limits.IsInt32(enemy.GetStrength() - GetStrength())
      modifies enemy`health
      ensures var damage := Damage(old(GetStrength()), old(enemy.GetStrength()));
              && (damage >= 0 ==> outcome == Hit(damage))
              && (damage < 0 ==> outcome == Defended)
              && enemy.GetHealth() == HealthAfterAttack(old(enemy.GetHealth()), damage)
      ensures GetStrength() == old(GetStrength()) && enemy.GetStrength() == old(enemy.GetStrength())
      ensures enemy != this ==> GetHealth() == old(GetHealth())
    {
      var damage := enemy.GetStrength() - this.strength;
      if damage >= 0 {
        var enemyHealth := enemy.GetHealth();
        enemy.SetHealth(enemyHealth - (if damage > enemyHealth then enemyHealth else damage));
        outcome := Hit(damage);
      } else {
        outcome := Defended;
      }
    }
  }

  /** With the damage as written, an attacker of strength 30 takes 20 off a
      defender of strength 50 per attack (100, then 80, then 60), while an
      attacker of strength 50 leaves a defender of strength 30 untouched. */
  lemma AttackScenarios()
    ensures HealthAfterAttack(100, Damage(30, 50)) == 80
    ensures HealthAfterAttack(80, Damage(30, 50)) == 60
    ensures HealthAfterAttack(100, Damage(50, 30)) == 100
  {
  }

  /** The run of main: Igor attacks thomas twice. */
  method Demo(igorDraw: int, thomasDraw: int) returns (first: int, second: int)
    requires MIN_STRENGTH <= igorDraw <= MAX_STRENGTH && MIN_STRENGTH <= thomasDraw <= MAX_STRENGTH
    ensures first == HealthAfterAttack(INITIAL_HEALTH, thomasDraw - igorDraw)
    ensures second == HealthAfterAttack(first, thomasDraw - igorDraw)
    ensures thomasDraw < igorDraw ==> first == INITIAL_HEALTH && second == INITIAL_HEALTH
  {
    var warrior1 := new Character("Igor", igorDraw);
    var warrior2 := new Character("thomas", thomasDraw);
    var _ := warrior1.Attack(warrior2);
    first := warrior2.GetHealth();
    var _ := warrior1.Attack(warrior2);
    second := warrior2.GetHealth();
  }
}
