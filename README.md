# C++ fundamentals exercises, modelled in Dafny

This project models the parts of a set of C++ teaching exercises that carry
exact sequential logic, one Dafny module per exercise file:

- `InventorySystem` (`inventory_system.dfy`): items whose usage counter
  starts at 100 and that a potion, a weapon or an armor wears down in its own
  way; an inventory of item pointers with `add`, remove-every-match and a
  membership-checked `use` that throws `out_of_range("Item not found ")`.
- `Uuid` (`uuid.dfy`): `generate_uuid_v4`, which both the inventory and the
  game-events exercise define with the same text.  It formats 30 draws from
  0..15 and one draw from 8..11 as the 8-4-4-4-12 lower-case hex form with
  version digit `4` and variant digit `8`..`b` (section 3 and section 4.4 of
  RFC 4122).  The draws are parameters; the formatter is proved to produce a
  well-formed text, and the draws are proved to be readable back from it (and
  every well-formed text to come from some draws).
- `GameEvents` (`game_events.dfy`): events with an action and a time; a
  timeline of event pointers with append, remove-every-match and the
  order-preserving query of the events at a time.
- `CustomString` (`custom_string.dfy`): the `String` class.  Its `const`
  operations (`substr`, `find`, `+`, `==`, `!=`) are functions over the
  characters; construction, copy and `+=` act on a class whose `str`/`len`
  fields keep `len == |str|` and no NUL.  `npos` is `size_t(-1)` on a 64-bit
  `size_t`.
- `GenericDataStructure` (`generic_data_structure.dfy`): `LinkedList<T>`
  over heap nodes, with a ghost sequence `Contents` (head first) that the
  node chain is proved to spell out; `remove` on an empty list yields
  `EmptyListException`.
- `GridBasedGame` (`grid_based_game.dfy`): a rows x columns `array2` of
  nullable entity handles; `operator()(row, column)` is split into a read
  (`At`) and a write through the returned reference (`Put`), both
  bounds-checked.
- `GeometryOperations` (`geometry_operations.dfy`): `Point` and `Point3D`
  as values, with component-wise `+`, `-`, `==`, `!=`.
- `BasicGameCharacters` (`basic_game_characters.dfy`): `Character` state,
  its getters and setters, and the Warrior's `attack`.
- `Factorial`, `Fibonacci`, `DefaultArguments`, `PassingByReference`: the
  loops of `getFactorial` and `printFactorial`, the Fibonacci printer (given
  `n`, returning the numbers), `power(base, exponent = 2)` (returning its
  result) and `swap(int*, int*)`.

Helper modules: `Errors` (the thrown exceptions as `Result`/`Outcome`
values), `Limits` (int, long and size_t ranges, and `Max`/`Min`), `Sequences` (order-keeping
`Filter` and `RemoveAll`, shared by the two erase loops and the time query)
and `Decimal` (how `cout` writes an `int`).

Four behaviours of the code are easy to misread, and the model keeps them
as written:

- The removal loops erase every entry equal to the pointer, not only the
  first.
- `generate_uuid_v4` fixes the version digit to `4` and draws the variant
  digit from 8..11.
- The Warrior's damage is the enemy's strength minus the attacker's, as
  `main.cpp:13` computes it.  So an attacker of strength 50 does not hurt a
  defender of strength 30, while an attacker of strength 30 takes 20 per
  attack off a defender of strength 50 (`AttackScenarios`).
- An attack never raises a health that is at least 0.  It can raise a
  negative one, though: `setHealth` accepts negative values, and a hit then
  sets the health to `health - health`, which is 0 (`HealthAfterAttack`).

Each `Demo` method replays the `main` of its exercise and states what it
prints.

## Model

| member | source | states |
|---|---|---|
| `Uuid.HexDigit` | projects/c++_fundamentals/object_oriented_programming/invetory_system/main.cpp:22-25 | a value below 16 is written as one lower-case hex digit, and reading that digit gives back the value |
| `Uuid.EmitHex` | projects/c++_fundamentals/object_oriented_programming/invetory_system/main.cpp:23-25 | one counted loop appends exactly the hex digits of the next `count` draws, in draw order |
| `Uuid.GenerateUuidV4` | projects/c++_fundamentals/object_oriented_programming/invetory_system/main.cpp:15-44 | the returned id is the 8-4-4-4-12 text of the draws, and it is a well-formed version-4 UUID text |
| `Uuid.UuidTextAt` | projects/c++_fundamentals/object_oriented_programming/invetory_system/main.cpp:23-42 | the text is 36 characters long, with '-' at 8, 13, 18 and 23, '4' at 14, the variant digit at 19, and each nibble draw at its own position |
| `Uuid.UuidTextIsV4` | projects/c++_fundamentals/object_oriented_programming/invetory_system/main.cpp:18-43 | for every set of draws the text is 36 characters long, with dashes at 8, 13, 18 and 23, lower-case hex elsewhere, '4' at 14 and one of 8, 9, a, b at 19 |
| `Uuid.NibblePos` | projects/c++_fundamentals/object_oriented_programming/invetory_system/main.cpp:23-42 | each of the 30 nibble draws lands on a hex position that is neither a dash, nor the version digit, nor the variant digit |
| `Uuid.NibblePosOnto` | projects/c++_fundamentals/object_oriented_programming/invetory_system/main.cpp:23-42 | every hex position other than 14 and 19 holds some nibble draw |
| `Uuid.DrawsOf` | projects/c++_fundamentals/object_oriented_programming/invetory_system/main.cpp:15-44 | a well-formed text yields 30 values in 0..15 and a variant in 8..11 |
| `Uuid.DrawsOfUuidText` | projects/c++_fundamentals/object_oriented_programming/invetory_system/main.cpp:15-44 | the draws can be read back from the text, so distinct draws give distinct ids |
| `Uuid.UuidTextOfDraws` | projects/c++_fundamentals/object_oriented_programming/invetory_system/main.cpp:15-44 | every well-formed version-4 text is the output for some draws |
| `InventorySystem.UsageAfterUse` | projects/c++_fundamentals/object_oriented_programming/invetory_system/main.cpp:64-106 | a use leaves a usage <= 0 unchanged; it strictly lowers a positive usage but never below 0; a potion goes to 0; a weapon or an armor goes to max(u - 10, 0) or max(u - 20, 0) |
| `InventorySystem.PotionUseIdempotent` | projects/c++_fundamentals/object_oriented_programming/invetory_system/main.cpp:64-71 | a second use of a potion changes nothing |
| `InventorySystem.RepeatedUse` | projects/c++_fundamentals/object_oriented_programming/invetory_system/main.cpp:76-106 | from a usage u >= 0, n uses of a weapon or an armor leave max(u - n * wear, 0), any use of a potion leaves 0, and the usage stays within [0, u] |
| `InventorySystem.UsesUntilBroken` | projects/c++_fundamentals/object_oriented_programming/invetory_system/main.cpp:48-106 | a new weapon is broken after exactly 10 uses and a new armor after exactly 5 |
| `InventorySystem.Item.constructor` | projects/c++_fundamentals/object_oriented_programming/invetory_system/main.cpp:46-52 | a new item has usage 100 and a version-4 UUID text as its id |
| `InventorySystem.Item.SetUsage` | projects/c++_fundamentals/object_oriented_programming/invetory_system/main.cpp:57 | stores the given usage |
| `InventorySystem.Item.Use` | projects/c++_fundamentals/object_oriented_programming/invetory_system/main.cpp:62-107 | the new usage is UsageAfterUse of the item's kind and its old usage |
| `InventorySystem.Inventory.constructor` | projects/c++_fundamentals/object_oriented_programming/invetory_system/main.cpp:109-111 | a new inventory is empty |
| `InventorySystem.Inventory.Add` | projects/c++_fundamentals/object_oriented_programming/invetory_system/main.cpp:114 | the pointer is appended at the end |
| `InventorySystem.Inventory.Remove` | projects/c++_fundamentals/object_oriented_programming/invetory_system/main.cpp:116-124 | the entries become RemoveAll of the old entries and the pointer |
| `InventorySystem.Inventory.Find` | projects/c++_fundamentals/object_oriented_programming/invetory_system/main.cpp:129-130 | std::find gives the first position holding the pointer, or the end when the pointer is absent |
| `InventorySystem.Inventory.Use` | projects/c++_fundamentals/object_oriented_programming/invetory_system/main.cpp:128-136 | an absent item throws out_of_range("Item not found ") and is left unchanged; a present item gets exactly its own use(); no other object changes |
| `InventorySystem.Demo` | projects/c++_fundamentals/object_oriented_programming/invetory_system/main.cpp:139-155 | main prints sizes 2, 2 and 1, uses up potion2, and throws on using the weapon that was never added; each item gets its own draws, as each generate_uuid_v4 call draws afresh |
| `Sequences.Filter` | projects/c++_fundamentals/object_oriented_programming/game_events/main.cpp:83-88 | the selection holds only selected elements and every selected one, and it is the whole input when everything is selected |
| `Sequences.FilterAppend` | projects/c++_fundamentals/object_oriented_programming/game_events/main.cpp:83-88 | selecting from a concatenation is the concatenation of the selections |
| `Sequences.FilterCount` | projects/c++_fundamentals/object_oriented_programming/game_events/main.cpp:83-88 | each selected element is kept exactly as often as it occurs, and the others not at all |
| `Sequences.FilterIsSubsequence` | projects/c++_fundamentals/object_oriented_programming/game_events/main.cpp:83-88 | selection never reorders |
| `Sequences.RemoveAll` | projects/c++_fundamentals/object_oriented_programming/invetory_system/main.cpp:116-124 | the result does not contain the pointer, and it is the input when the pointer is absent |
| `Sequences.RemoveAllSpec` | projects/c++_fundamentals/object_oriented_programming/invetory_system/main.cpp:116-124 | every occurrence of the pointer goes, every other entry stays as often as it was there and in its order, and the size drops by the number of occurrences |
| `Sequences.EraseStep` | projects/c++_fundamentals/object_oriented_programming/game_events/main.cpp:72-78 | erasing a matching entry, or stepping past a different one, keeps "done part + RemoveAll(rest)" equal to the final result |
| `GameEvents.GameEvent.constructor` | projects/c++_fundamentals/object_oriented_programming/game_events/main.cpp:53-57 | getAction and getTime return the action and time the event was built with; its id is a version-4 UUID text made by the same generator as the inventory's |
| `GameEvents.AtTimeSpec` | projects/c++_fundamentals/object_oriented_programming/game_events/main.cpp:81-91 | the events at time t are exactly those whose time is t, each as often as on the timeline, in timeline order |
| `GameEvents.AtTimeCons` | projects/c++_fundamentals/object_oriented_programming/game_events/main.cpp:83-88 | the query looks at the head event, keeps it when its time matches, and goes on with the rest |
| `GameEvents.GameTimeline.constructor` | projects/c++_fundamentals/object_oriented_programming/game_events/main.cpp:67 | a new timeline is empty |
| `GameEvents.GameTimeline.AddEvent` | projects/c++_fundamentals/object_oriented_programming/game_events/main.cpp:69 | the event is appended at the end |
| `GameEvents.GameTimeline.RemoveEvent` | projects/c++_fundamentals/object_oriented_programming/game_events/main.cpp:71-79 | the timeline becomes RemoveAll of the old timeline and the event |
| `GameEvents.GameTimeline.GetEventsAtTime` | projects/c++_fundamentals/object_oriented_programming/game_events/main.cpp:81-91 | returns AtTime of the timeline and leaves the timeline as it was |
| `GameEvents.RemoveSecondScenario` | projects/c++_fundamentals/object_oriented_programming/game_events/main.cpp:95-106 | after events at 10, 10 and 20 and removal of the second, the timeline is the first and third, and only the first is at time 10 |
| `GameEvents.Demo` | projects/c++_fundamentals/object_oriented_programming/game_events/main.cpp:94-112 | main's query returns one event, "some-action" at 10; each event gets its own draws |
| `CustomString.CString` | projects/c++_fundamentals/object_oriented_programming/custom_string/main.cpp:13-16 | strlen/strcpy take the prefix of the buffer before its first NUL, and that prefix holds no NUL |
| `CustomString.CStringOfNoNul` | projects/c++_fundamentals/object_oriented_programming/custom_string/main.cpp:18-21 | copying a NUL-free string gives the same characters |
| `CustomString.Substr` | projects/c++_fundamentals/object_oriented_programming/custom_string/main.cpp:27-40 | throws out_of_range("Invalid start position") exactly when start > len; otherwise gives min(length, len - start) characters, those from start on |
| `CustomString.FindFrom` | projects/c++_fundamentals/object_oriented_programming/custom_string/main.cpp:42-49 | the first occurrence at or after i, or npos exactly when there is none from i on |
| `CustomString.Find` | projects/c++_fundamentals/object_oriented_programming/custom_string/main.cpp:42-49 | npos exactly when the substring does not occur; otherwise an index where it occurs with no occurrence before it |
| `CustomString.FindEmpty` | projects/c++_fundamentals/object_oriented_programming/custom_string/main.cpp:42-49 | the empty string is found at 0 |
| `CustomString.Concat` | projects/c++_fundamentals/object_oriented_programming/custom_string/main.cpp:51-60 | a + b has a's characters followed by b's, length a.len + b.len, and no NUL |
| `CustomString.StrCmpZero` | projects/c++_fundamentals/object_oriented_programming/custom_string/main.cpp:74-76 | strcmp is zero exactly when the two strings have the same characters |
| `CustomString.Equal` | projects/c++_fundamentals/object_oriented_programming/custom_string/main.cpp:74-76 | == holds exactly when the contents are equal |
| `CustomString.NotEqual` | projects/c++_fundamentals/object_oriented_programming/custom_string/main.cpp:78 | != holds exactly when the contents differ |
| `CustomString.String.constructor` | projects/c++_fundamentals/object_oriented_programming/custom_string/main.cpp:13-16 | the string holds the C string of the argument (the empty string by default), and len counts its characters |
| `CustomString.String.Copy` | projects/c++_fundamentals/object_oriented_programming/custom_string/main.cpp:18-21 | the copy has the same characters and length |
| `CustomString.String.Length` | projects/c++_fundamentals/object_oriented_programming/custom_string/main.cpp:25 | length() is the number of characters |
| `CustomString.String.Append` | projects/c++_fundamentals/object_oriented_programming/custom_string/main.cpp:62-72 | += makes the content the old content followed by the other's old content and adds the other's length to len, also when the other is the string itself |
| `CustomString.SelfAppend` | projects/c++_fundamentals/object_oriented_programming/custom_string/main.cpp:62-72 | for every valid string a, a += a leaves a's old content twice over and doubles len |
| `CustomString.HelloWorldScenario` | projects/c++_fundamentals/object_oriented_programming/custom_string/main.cpp:91-99 | "Hello, " + "world!" is "Hello, world!", its substr(7, 5) is "world", and "world" is found at 7 |
| `CustomString.Demo` | projects/c++_fundamentals/object_oriented_programming/custom_string/main.cpp:90-101 | main prints "Hello, world!", "world" and 7 |
| `GenericDataStructure.Node.constructor` | projects/c++_fundamentals/object_oriented_programming/generic_data_structure/main.cpp:9 | a node holds its data, and its chain is the data followed by the chain of its successor |
| `GenericDataStructure.LinkedList.constructor` | projects/c++_fundamentals/object_oriented_programming/generic_data_structure/main.cpp:25 | a new list is empty |
| `GenericDataStructure.LinkedList.Add` | projects/c++_fundamentals/object_oriented_programming/generic_data_structure/main.cpp:35-39 | the data becomes the head and the rest of the list is unchanged |
| `GenericDataStructure.LinkedList.Remove` | projects/c++_fundamentals/object_oriented_programming/generic_data_structure/main.cpp:41-48 | on an empty list throws EmptyListException and the list stays empty; otherwise drops only the head |
| `GenericDataStructure.LinkedList.Search` | projects/c++_fundamentals/object_oriented_programming/generic_data_structure/main.cpp:50-59 | true exactly when the data is an element of the list; the list is not changed |
| `GenericDataStructure.LinkedList.PrintList` | projects/c++_fundamentals/object_oriented_programming/generic_data_structure/main.cpp:61-68 | the nodes are visited head first, that is, most recently added first |
| `GenericDataStructure.AddThenRemove` | projects/c++_fundamentals/object_oriented_programming/generic_data_structure/main.cpp:35-48 | add(x) followed by remove() restores the list |
| `GenericDataStructure.Demo` | projects/c++_fundamentals/object_oriented_programming/generic_data_structure/main.cpp:71-87 | main prints 30 20 10, then 20 10, finds 20, and its fourth remove throws EmptyListException |
| `GridBasedGame.Entity.constructor` | projects/c++_fundamentals/object_oriented_programming/grid_based_game/main.cpp:13 | an entity keeps the id it was built with |
| `GridBasedGame.Grid.constructor` | projects/c++_fundamentals/object_oriented_programming/grid_based_game/main.cpp:21-22 | a new grid has the given rows and columns, and every cell is empty |
| `GridBasedGame.Grid.At` | projects/c++_fundamentals/object_oriented_programming/grid_based_game/main.cpp:24-31 | reading succeeds exactly when 0 <= row < rows and 0 <= column < columns and gives that cell; otherwise it throws out_of_range("Index out of range") |
| `GridBasedGame.Grid.Put` | projects/c++_fundamentals/object_oriented_programming/grid_based_game/main.cpp:24-31 | writing in range stores the entity in that cell only; out of range it throws and changes no cell |
| `GridBasedGame.WriteThenRead` | projects/c++_fundamentals/object_oriented_programming/grid_based_game/main.cpp:24-31 | a read of the cell just written returns the written entity |
| `GridBasedGame.EmptyGridAccess` | projects/c++_fundamentals/object_oriented_programming/grid_based_game/main.cpp:25-27 | with 0 rows every access throws, whatever the column |
| `GridBasedGame.Demo` | projects/c++_fundamentals/object_oriented_programming/grid_based_game/main.cpp:34-45 | the entity stored at (2, 3) is read back with id 1 |
| `GeometryOperations.Point.Plus` | projects/c++_fundamentals/object_oriented_programming/geometry_operations/main.cpp:9-11 | the sum is in the int range, and subtracting the operand from it gives back each coordinate |
| `GeometryOperations.Point.Minus` | projects/c++_fundamentals/object_oriented_programming/geometry_operations/main.cpp:13-15 | the difference is in the int range, and adding the operand to it gives back each coordinate |
| `GeometryOperations.Point.Equals` | projects/c++_fundamentals/object_oriented_programming/geometry_operations/main.cpp:17-19 | == holds exactly when the two points are the same value |
| `GeometryOperations.Point.NotEquals` | projects/c++_fundamentals/object_oriented_programming/geometry_operations/main.cpp:21 | != holds exactly when the points differ |
| `GeometryOperations.Point3D.Plus` | projects/c++_fundamentals/object_oriented_programming/geometry_operations/main.cpp:30-33 | although x and y go through Point::operator+, the sum is the component-wise sum of all three coordinates |
| `GeometryOperations.Point3D.Minus` | projects/c++_fundamentals/object_oriented_programming/geometry_operations/main.cpp:35-37 | adding the operand back to the difference gives each coordinate |
| `GeometryOperations.Point3D.Equals` | projects/c++_fundamentals/object_oriented_programming/geometry_operations/main.cpp:39-41 | == holds exactly when all three coordinates agree |
| `GeometryOperations.Point3D.NotEquals` | projects/c++_fundamentals/object_oriented_programming/geometry_operations/main.cpp:43 | != holds exactly when the points differ |
| `GeometryOperations.DefaultIsOrigin` | projects/c++_fundamentals/object_oriented_programming/geometry_operations/main.cpp:7 | default construction gives (0, 0) and (0, 0, 0) |
| `GeometryOperations.PlusMinusRoundTrip` | projects/c++_fundamentals/object_oriented_programming/geometry_operations/main.cpp:9-15 | (p + q) - q == p when no int overflow occurs |
| `GeometryOperations.PlusMinusRoundTrip3D` | projects/c++_fundamentals/object_oriented_programming/geometry_operations/main.cpp:30-37 | (p + q) - q == p for 3-D points when no int overflow occurs |
| `GeometryOperations.PlusProjects` | projects/c++_fundamentals/object_oriented_programming/geometry_operations/main.cpp:30-33 | the x/y part of a 3-D sum is the 2-D sum of the x/y parts |
| `GeometryOperations.MainScenario` | projects/c++_fundamentals/object_oriented_programming/geometry_operations/main.cpp:47-53 | (1,2)+(3,4) = (4,6) and (1,2,3)+(4,5,6) = (5,7,9) |
| `BasicGameCharacters.GenerateRandomStrength` | projects/c++_fundamentals/object_oriented_programming/basic_game_characters/Character.cpp:11-24 | the strength lies in the closed range [min, max] |
| `BasicGameCharacters.Damage` | projects/c++_fundamentals/object_oriented_programming/basic_game_characters/main.cpp:13 | the damage is the enemy's strength minus the attacker's |
| `BasicGameCharacters.HealthAfterAttack` | projects/c++_fundamentals/object_oriented_programming/basic_game_characters/main.cpp:15-25 | a negative damage leaves health unchanged; a damage of at least the health gives exactly 0; a damage of at most the health takes exactly the damage off; from health >= 0 the result lies in [0, health] |
| `BasicGameCharacters.RepeatedAttacks` | projects/c++_fundamentals/object_oriented_programming/basic_game_characters/main.cpp:15-18 | n attacks with the same damage d >= 0 from health h >= 0 leave max(h - n * d, 0) |
| `BasicGameCharacters.AttackScenarios` | projects/c++_fundamentals/object_oriented_programming/basic_game_characters/main.cpp:13-18 | strength 30 against 50 takes health 100 to 80 and then to 60; strength 50 against 30 leaves 100 |
| `BasicGameCharacters.Character.constructor` | projects/c++_fundamentals/object_oriented_programming/basic_game_characters/Character.cpp:26-31 | a new character has the given name, health 100 and a strength in [0, 1000] |
| `BasicGameCharacters.Character.SetStrength` | projects/c++_fundamentals/object_oriented_programming/basic_game_characters/Character.cpp:43 | getStrength then returns the new value; health is unchanged |
| `BasicGameCharacters.Character.SetHealth` | projects/c++_fundamentals/object_oriented_programming/basic_game_characters/Character.cpp:45 | getHealth then returns the new value, negative values included; strength is unchanged |
| `BasicGameCharacters.Character.Attack` | projects/c++_fundamentals/object_oriented_programming/basic_game_characters/main.cpp:12-26 | the enemy's health becomes HealthAfterAttack of its old health and the damage; a hit is reported for damage >= 0 and a defence otherwise; no strength changes, and the attacker's health changes only when it attacks itself |
| `BasicGameCharacters.Demo` | projects/c++_fundamentals/object_oriented_programming/basic_game_characters/main.cpp:37-49 | thomas's health after each of Igor's two attacks, and no loss at all when Igor is the stronger |
| `Factorial.Fact` | projects/c++_fundamentals/control_structures/factorial.cpp:7-14 | the factorial is at least 1 |
| `Factorial.FactStep` | projects/c++_fundamentals/control_structures/factorial.cpp:10-12 | getFactorial(n) = n * getFactorial(n - 1) for n >= 1 |
| `Factorial.ProductExtend` | projects/c++_fundamentals/control_structures/factorial.cpp:10-12 | a product of consecutive factors grows by its next factor on the right |
| `Factorial.FactIsProduct` | projects/c++_fundamentals/control_structures/factorial.cpp:10-12 | for n >= 0 the factorial is the product 1 * 2 * ... * n |
| `Factorial.FactMonotone` | projects/c++_fundamentals/control_structures/factorial.cpp:10-12 | the factorial never decreases with its argument |
| `Factorial.FactFitsInt32` | projects/c++_fundamentals/control_structures/factorial.cpp:7-13 | for n <= 12 the factorial fits in an int, and 13! no longer does |
| `Factorial.GetFactorial` | projects/c++_fundamentals/control_structures/factorial.cpp:7-14 | the loop returns the factorial (1 for n <= 0), and the result fits in an int |
| `Factorial.FactorialTextShape` | projects/c++_fundamentals/control_structures/factorial.cpp:16-31 | for n <= 1 the line is "n! = result"; for n > 1 it is "n! = n x ... x 1 = result", its factor list ending in 1 |
| `Factorial.LastFactorIsOne` | projects/c++_fundamentals/control_structures/factorial.cpp:21-26 | the last factor written is 1 |
| `Factorial.ThreeLine` | projects/c++_fundamentals/control_structures/factorial.cpp:16-31 | the line for 3 is "3! = 3 x 2 x 1 = 6" |
| `Factorial.PrintFactorial` | projects/c++_fundamentals/control_structures/factorial.cpp:16-31 | the loop writes exactly the printFactorial line |
| `Factorial.Demo` | projects/c++_fundamentals/control_structures/factorial.cpp:33-39 | main writes the lines for 0 to 10 in order |
| `Decimal.DigitChar` | projects/c++_fundamentals/control_structures/factorial.cpp:17 | a digit value is written as its decimal digit |
| `Decimal.NatText` | projects/c++_fundamentals/control_structures/factorial.cpp:17 | a number is written as at least one decimal digit, with no leading zero |
| `Decimal.DigitValue` | projects/c++_fundamentals/control_structures/factorial.cpp:17 | a decimal digit denotes a value below 10 |
| `Decimal.NatValueOfNatText` | projects/c++_fundamentals/control_structures/factorial.cpp:17 | reading the written digits gives back the number |
| `Decimal.IntTextInjective` | projects/c++_fundamentals/control_structures/factorial.cpp:17 | different ints are written differently |
| `Fibonacci.FibMonotone` | projects/c++_fundamentals/control_structures/fibonacci.cpp:26-29 | the Fibonacci numbers never decrease |
| `Fibonacci.FibValues` | projects/c++_fundamentals/control_structures/fibonacci.cpp:26-29 | Fib(92) is 7540113804746346429 and Fib(93) is 12200160415121876738 |
| `Fibonacci.FibFitsInt64` | projects/c++_fundamentals/control_structures/fibonacci.cpp:15 | every number printed for n <= 93 fits in a long, and Fib(93), the 94th, does not |
| `Fibonacci.FibonacciNumbers` | projects/c++_fundamentals/control_structures/fibonacci.cpp:14-32 | n <= 0 prints nothing; otherwise exactly n numbers: 0, then 1, then each the sum of the two before, the k-th being Fib(k - 1), all within a long |
| `DefaultArguments.PowAdd` | projects/c++_fundamentals/functions_and_recursion/default_arguments.cpp:8-10 | base^(m + n) = base^m * base^n |
| `DefaultArguments.Power` | projects/c++_fundamentals/functions_and_recursion/default_arguments.cpp:6-12 | the result is 1 for exponent <= 0 and base^exponent for exponent >= 0 |
| `DefaultArguments.Demo` | projects/c++_fundamentals/functions_and_recursion/default_arguments.cpp:14-17 | power(2, 4) is 16, power(2, 0) is 1, and power(b) with the default exponent is b * b |
| `PassingByReference.Cell.constructor` | projects/c++_fundamentals/functions_and_recursion/passingByReference.cpp:13-14 | a location holds the value it was initialised with |
| `PassingByReference.Swap` | projects/c++_fundamentals/functions_and_recursion/passingByReference.cpp:6-10 | *a holds the old *b and *b the old *a; no other location changes; when a and b are the same location its value stays |
| `PassingByReference.SwapTwice` | projects/c++_fundamentals/functions_and_recursion/passingByReference.cpp:6-10 | swapping twice restores both values |
| `PassingByReference.Demo` | projects/c++_fundamentals/functions_and_recursion/passingByReference.cpp:12-23 | x = 4 and y = 9 become x = 9 and y = 4 |

## Left out

- Console output (`cout`, `cerr`, `operator<<`, `size()`, `displayLife`, `defend`, the pointer printed in `getEventsAtTime`) is not modelled; the printed values are returned instead.
- The random engines (`random_device`, `mt19937` seeded by the clock) are not modelled; their draws are parameters with the ranges of their distributions.
- `BasicGameCharacters.GenerateRandomStrength`: takes the distribution's draw as a parameter and so only restates its range; how the engine's output becomes that draw is not modelled.
- `Item::operator==` and `GameEvent::operator==` compare ids, but no code reaches them: `remove`, `removeEvent` and `std::find` compare raw pointers, and the model does the same.
- The erase loops call `erase(it)` without taking the returned iterator, which is undefined behaviour in C++; the model gives them the evident meaning, removal of every matching entry.
- `getEventsAtTime` returns copies of the events; the model returns the event objects themselves, whose fields never change after construction.
- Memory handling (`new`/`delete[]`, destructors, `shared_ptr` reference counts) is not modelled.
- `Grid` with a negative row or column count, which `std::vector` rejects at construction, is not modelled; the dimensions are natural numbers.
- `CustomString.Substr`: a length of `SIZE_MAX`, for which `length + 1` wraps to 0, is not modelled.
- `DefaultArguments.Power`: the product is unbounded and 32-bit overflow is not modelled.
- Integer overflow elsewhere is excluded by preconditions: `getFactorial` for n <= 12, the Fibonacci printer for n <= 93, point sums and differences within int, and an attack whose damage fits in an int.
- As shown, the characters exercise does not compile: `Character.h` declares neither the getters nor the setters, and Warrior does not override the pure `attack()`, so Warrior stays abstract. The model keeps the arithmetic of `Warrior::attack(Character&)`. Warrior, Mage and Archer are not separate types; Mage and Archer add nothing.
- `move()` does nothing, and the Character name is only printed; neither is modelled beyond `GetName`.
