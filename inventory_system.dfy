/** The inventory exercise: items with a usage counter that each kind of
    item wears down in its own way, and an inventory holding item pointers. */
module InventorySystem {
  import Errors
  import Limits
  import Sequences
  import Uuid

  /** Potion, Weapon and Armor, the three concrete subclasses of Item. */
  datatype ItemKind = Potion | Weapon | Armor

  const INITIAL_USAGE: int := 100
  const ITEM_NOT_FOUND: string := "Item not found "

  /** How much one use of a weapon or an armor takes off its usage. */
  function Wear(kind: ItemKind): int {
    match kind
    case Potion => 0
    case Weapon => 10
    case Armor => 20
  }

  /** The usage an item is left with after one call of its use(). */
  function UsageAfterUse(kind: ItemKind, usage: int): (r: int)
    ensures usage <= 0 ==> r == usage
    ensures usage > 0 ==> 0 <= r < usage
    ensures usage > 0 && kind == Potion ==> r == 0
    ensures usage > 0 && kind != Potion ==> r == Limits.Max(usage - Wear(kind), 0)
  {
    match kind
    case Potion =>
      if usage > 0 then 0 else usage
    case _ =>
      if usage <= 0 then usage
      else
        var amountUsed := usage - Wear(kind);
        if amountUsed > 0 then amountUsed else 0
  }

  /** The usage after n successive uses. */
  function UsageAfterUses(kind: ItemKind, usage: int, n: nat): int
    decreases n
  {
    if n == 0 then usage else UsageAfterUses(kind, UsageAfterUse(kind, usage), n - 1)
  }

  /** A used-up potion stays used up: a second use changes nothing. */
  lemma PotionUseIdempotent(usage: int)
    ensures UsageAfterUse(Potion, UsageAfterUse(Potion, usage)) == UsageAfterUse(Potion, usage)
  {
  }

  /** From a non-negative usage, n uses of a weapon or an armor leave
      max(usage - n * wear, 0), and any use of a potion leaves 0. */
  lemma {:induction false} RepeatedUse(kind: ItemKind, usage: int, n: nat)
    requires usage >= 0
    ensures kind != Potion ==> UsageAfterUses(kind, usage, n) == Limits.Max(usage - n * Wear(kind), 0)
    ensures kind == Potion && n > 0 ==> UsageAfterUses(kind, usage, n) == 0
    ensures 0 <= UsageAfterUses(kind, usage, n) <= usage
  {
    if n > 0 {
      var next := UsageAfterUse(kind, usage);
      RepeatedUse(kind, next, n - 1);
      if kind != Potion && usage > 0 && usage - Wear(kind) > 0 {
        assert usage - Wear(kind) - (n - 1) * Wear(kind) == usage - n * Wear(kind);
      }
    }
  }

  /** A fresh weapon is broken after exactly ten uses, a fresh armor after five. */
  lemma UsesUntilBroken()
    ensures UsageAfterUses(Weapon, INITIAL_USAGE, 9) > 0 && UsageAfterUses(Weapon, INITIAL_USAGE, 10) == 0
    ensures UsageAfterUses(Armor, INITIAL_USAGE, 4) > 0 && UsageAfterUses(Armor, INITIAL_USAGE, 5) == 0
  {
    RepeatedUse(Weapon, INITIAL_USAGE, 9);
    RepeatedUse(Weapon, INITIAL_USAGE, 10);
    RepeatedUse(Armor, INITIAL_USAGE, 4);
    RepeatedUse(Armor, INITIAL_USAGE, 5);
  }

  class Item {
    const kind: ItemKind
    const id: string
    var usage: int

    /** A new item: usage 100 and a fresh version-4 UUID as its id. */
    constructor (kind: ItemKind, draws: seq<int>, variant: int)
      requires Uuid.ValidDraws(draws, variant)
      ensures this.kind == kind && usage == INITIAL_USAGE
      ensures id == Uuid.UuidText(draws, variant) && Uuid.IsUuidV4Text(id)
    {
      var text := Uuid.GenerateUuidV4(draws, variant);
      this.kind := kind;
      id := text;
      usage := INITIAL_USAGE;
    }

    function GetUsage(): int
      reads this
    {
      usage
    }

    method SetUsage(newUsage: int)
      modifies this
      ensures usage == newUsage
    {
      usage := newUsage;
    }

    /** use(), dispatched on the kind of item. */
    method Use()
      modifies this
      ensures usage == UsageAfterUse(kind, old(usage))
    {
      match kind
      case Potion =>
        if GetUsage() > 0 {
          SetUsage(0);
        }
      case _ =>
        if GetUsage() <= 0 {
          return;
        }
        var amountUsed := GetUsage() - Wear(kind);
        if amountUsed > 0 {
          SetUsage(amountUsed);
        } else {
          SetUsage(0);
        }
    }
  }

  class Inventory {
    var itens: seq<Item>

    constructor ()
      ensures itens == []
    {
      itens := [];
    }

    method Add(item: Item)
      modifies this
      ensures itens == old(itens) + [item]
    {
      itens := itens + [item];
    }

    /** Erases every entry that is the same pointer as item. */
    method Remove(item: Item)
      modifies this
      ensures itens == Sequences.RemoveAll(old(itens), item)
    {
      var i := 0;
      while i < |itens|
        invariant 0 <= i <= |itens|
        invariant itens[..i] + Sequences.RemoveAll(itens[i..], item) == Sequences.RemoveAll(old(itens), item)
        decreases |itens| - i
      {
        Sequences.EraseStep(itens, i, item);
        if itens[i] == item {
          itens := itens[..i] + itens[i + 1..];
        } else {
          i := i + 1;
        }
      }
      assert itens[i..] == [];
    }

    /** The count that size() prints. */
    function Size(): nat
      reads this
    {
      |itens|
    }

    /** std::find over the item pointers: the first match, or the end. */
    method Find(item: Item) returns (pos: nat)
      ensures pos <= |itens|
      ensures pos < |itens| ==> itens[pos] == item
      ensures item !in itens[..pos]
    {
      pos := 0;
      while pos < |itens| && itens[pos] != item
        invariant pos <= |itens|
        invariant item !in itens[..pos]
      {
        assert itens[..pos + 1] == itens[..pos] + [itens[pos]];
        pos := pos + 1;
      }
    }

    /** Uses item if it is in the inventory, and throws otherwise. */
    method Use(item: Item) returns (outcome: Errors.Outcome)
      modifies item
      ensures item in itens ==> outcome == Errors.Done && item.usage == UsageAfterUse(item.kind, old(item.usage))
      ensures item !in itens ==> outcome == Errors.Thrown(Errors.OutOfRange(ITEM_NOT_FOUND)) && item.usage == old(item.usage)
    {
      var pos := Find(item);
      var isItemInArray := pos != |itens|;
      assert isItemInArray <==> item in itens by {
        if pos == |itens| {
          assert itens[..pos] == itens;
        }
      }
      if !isItemInArray {
        return Errors.Thrown(Errors.OutOfRange(ITEM_NOT_FOUND));
      } else {
        item.Use();
        outcome := Errors.Done;
      }
    }
  }

  /** The run of main: two potions added, the second used, the first
      removed, then a weapon that was never added is used. */
  method Demo(draws: seq<(seq<int>, int)>) returns (sizes: seq<nat>, potion2Usage: int, last: Errors.Outcome)
    requires |draws| == 4 && Uuid.ValidDrawSets(draws)
    ensures sizes == [2, 2, 1]
    ensures potion2Usage == 0
    ensures last == Errors.Thrown(Errors.OutOfRange(ITEM_NOT_FOUND))
  {
    var potion := new Item(Potion, draws[0].0, draws[0].1);
    var potion2 := new Item(Potion, draws[1].0, draws[1].1);
    var weapon := new Item(Weapon, draws[2].0, draws[2].1);
    var armor := new Item(Armor, draws[3].0, draws[3].1);
    var inventory := new Inventory();
    inventory.Add(potion);
    inventory.Add(potion2);
    sizes := [inventory.Size(), inventory.Size()];
    var _ := inventory.Use(potion2);
    potion2Usage := potion2.usage;
    ghost var added := inventory.itens;
    assert added == [potion, potion2] && added[1..] == [potion2] && added[2..] == [];
    inventory.Remove(potion);
    Sequences.RemoveAllCons(added, potion);
    Sequences.RemoveAllCons(added[1..], potion);
    assert inventory.itens == [potion2];
    sizes := sizes + [inventory.Size()];
    last := inventory.Use(weapon);
  }
}
