# Computer with installed games

A model of the `Computer` class of a small object-composition exercise. A
computer keeps an ordered list of installed games, the `installedGames` field.
- `installGame()` appends a new game named "Morrowind".
- `playGame()` scans the list in insertion order. It starts the first game
  named "Morrowind", or returns the fixed string "Game not installed" when
  there is none.
- `turnOn()` creates a power supply of its own, switches it on and drops it.

The Dafny project has three modules:

- `Games` (`game.dfy`): the `Game` value and its `Start` message. `Game.java`
  is not part of this model. `Start` returns "Playing " followed by the name,
  which is what the tests assert (`ComputerTest.java:39-40`).
- `Power` (`power_supply.dfy`): the `PowerSupply` class with its one-way
  `isOn` switch. `PowerSupply.java` is not part of this model. The switch to
  on is what `ComputerTest.java:13-15` observes. The off starting state is not
  observed by any test; it is Java's default value for a boolean field.
- `Computers` (`computer.dfy`): the `Computer` class and the functions that
  specify it. `FindFirst` is the first-match search for any title, and
  `PlayResult` is what `playGame` returns. `Installed` is the list after one
  `installGame`, and `InstallsFromFresh(k)` is the list after `k` installs on
  a new computer. The class methods are proved against these functions. The
  lemmas state the properties of the functions.

The `Computer.java` being modelled hard-codes "Morrowind" and has a
parameterless constructor. The tests, and the design they describe, use a
different API with a constructor-injected power supply, an optional
pre-installed list, `installGame(game)` and `playGame(title)`. That API has no
implementation in the modelled source, so the model follows the code.
`FindFirst` takes the title as a parameter, and `playGame` uses it with
"Morrowind".

## Model

| member | source | states |
|---|---|---|
| `Games.Start` | src/test/java/com/booleanuk/core/ComputerTest.java:39-40 | the message of a started game is "Playing " followed by exactly the game's name |
| `Games.StartInjective` | src/test/java/com/booleanuk/core/ComputerTest.java:39-40 | two games that give the same start message have the same name |
| `Power.PowerSupply.constructor` | src/main/java/com/booleanuk/core/Computer.java:9 | a new power supply is off |
| `Power.PowerSupply.TurnOn` | src/main/java/com/booleanuk/core/Computer.java:10 | after switching on, the supply is on, whatever its state was before |
| `Computers.FindFirst` | src/main/java/com/booleanuk/core/Computer.java:19-23 | the search finds nothing exactly when no game has the title; a found position holds the title and no earlier position does |
| `Computers.Installed` | src/main/java/com/booleanuk/core/Computer.java:13-16 | one install makes the list exactly one longer, keeps every earlier entry, and puts a "Morrowind" game last |
| `Computers.Computer.constructor` | src/main/java/com/booleanuk/core/Computer.java:6 | a new computer has no installed games |
| `Computers.Computer.TurnOn` | src/main/java/com/booleanuk/core/Computer.java:8-11 | switching on leaves the computer's state unchanged; the power supply it switches on is its own local object |
| `Computers.Computer.InstallGame` | src/main/java/com/booleanuk/core/Computer.java:13-16 | the new installed list is the old one with one "Morrowind" game appended |
| `Computers.Computer.PlayGame` | src/main/java/com/booleanuk/core/Computer.java:18-26 | the scan returns what the first-match specification gives. It returns the sentinel exactly when no "Morrowind" is installed, and otherwise the start message of an installed game. It leaves the list unchanged |
| `Computers.StartIsNotSentinel` | src/main/java/com/booleanuk/core/Computer.java:21-25 | a started game's message never equals "Game not installed", so the two outcomes cannot be confused |
| `Computers.PlayNotInstalledIff` | src/main/java/com/booleanuk/core/Computer.java:18-25 | playing returns "Game not installed" if and only if no installed game is named "Morrowind" |
| `Computers.PlayFirstMatch` | src/main/java/com/booleanuk/core/Computer.java:19-22 | when position i holds the first "Morrowind" in insertion order, playing returns the start message of the game at i, which is "Playing Morrowind" |
| `Computers.PlayOutcomes` | src/main/java/com/booleanuk/core/Computer.java:18-25 | playing returns one of exactly two strings: "Game not installed" or "Playing Morrowind" |
| `Computers.InstallKeepsPrefix` | src/main/java/com/booleanuk/core/Computer.java:15 | installing never changes an entry that was already installed |
| `Computers.InstallOnFresh` | src/main/java/com/booleanuk/core/Computer.java:6-16 | a new computer after k calls of `InstallGame` holds exactly the list the k-installs function describes, so its shape lemma applies to the class |
| `Computers.InstallsFromFreshShape` | src/main/java/com/booleanuk/core/Computer.java:6-16 | after k installs on a new computer the list holds exactly k games, all named "Morrowind" |
| `Computers.PlayAfterInstall` | src/main/java/com/booleanuk/core/Computer.java:13-25 | after an install, playing never returns the sentinel: it returns "Playing Morrowind" |
| `Computers.PlayStableUnderInstall` | src/main/java/com/booleanuk/core/Computer.java:13-25 | once a "Morrowind" is installed, further installs do not change what playing returns |

## Left out

- The body of `Game.start()`: `Game.java` is not part of this model. `Start` is defined from the test assertions, not from visible code.
- The internals of `PowerSupply`: `PowerSupply.java` is not part of this model. The class models the on switch that the tests observe, plus a starting state.
- Power.PowerSupply.constructor: the off starting state is assumed from Java's default for an uninitialised boolean field; no test observes it.
- The constructors `Computer(psu)` and `Computer(psu, games)`, `installGame(game)` and `playGame(title)`: they appear only in the tests and have no implementation in the modelled `Computer.java`.
- Null values and aliasing in `installedGames`: the Java field is public. The model covers any other code storing a list of real games there, because `PlayGame`'s contract holds for every list. It does not capture three cases:
  - a null entry, or a game whose name is null: Java's `playGame` then throws a NullPointerException at `Computer.java:20`;
  - the field itself set to null;
  - changes made through another reference to the same `ArrayList` object.
- `ArrayList` itself: the list is a Dafny `seq<Game>`. Java's `String.equals` is Dafny string equality.
