/** The computer: an append-only list of installed games, an install
    operation that always adds "Morrowind", a play operation that starts the
    first installed "Morrowind", and a turn-on operation that switches on a
    power supply of its own making. */
module Computers {
  import opened Games
  import opened Power

  datatype Option<T> = None | Some(value: T)

  /** The only title the computer installs and looks for. */
  const Morrowind: string := "Morrowind"

  /** What playing returns when no matching game is installed. */
  const NotInstalled: string := "Game not installed"

  /** True when no game in `games` carries the name `title`. */
  predicate Absent(games: seq<Game>, title: string)
  {
    forall j :: 0 <= j < |games| ==> games[j].name != title
  }

  /** The position of the first game named `title`, scanning in insertion
      order, or None when there is none. */
  function FindFirst(games: seq<Game>, title: string): (r: Option<nat>)
    ensures r.None? <==> Absent(games, title)
    ensures r.Some? ==> r.value < |games| && games[r.value].name == title
    ensures r.Some? ==> forall j :: 0 <= j < r.value ==> games[j].name != title
  {
    if |games| == 0 then None
    else if games[0].name == title then Some(0)
    else
      match FindFirst(games[1..], title)
      case None => None
      case Some(i) => Some(i + 1)
  }

  /** What `playGame` returns for a given list of installed games. */
  function PlayResult(games: seq<Game>): (r: string)
  {
    match FindFirst(games, Morrowind)
    case Some(i) => Start(games[i])
    case None => NotInstalled
  }

  /** The list `installGame` leaves behind: one more game, named "Morrowind",
      at the end, and every earlier entry where it was. */
  function Installed(games: seq<Game>): (r: seq<Game>)
    ensures |r| == |games| + 1
    ensures r[..|games|] == games
    ensures r[|games|].name == Morrowind
  {
    games + [Game(Morrowind)]
  }

  /** The list a fresh computer holds after `k` calls of `installGame`. */
  function InstallsFromFresh(k: nat): (r: seq<Game>)
  {
    if k == 0 then [] else Installed(InstallsFromFresh(k - 1))
  }

  /** Every game in `games` is named "Morrowind". */
  predicate OnlyMorrowind(games: seq<Game>)
  {
    forall j :: 0 <= j < |games| ==> games[j].name == Morrowind
  }

  class Computer {
    var installedGames: seq<Game>

    /** A new computer has nothing installed. */
    constructor ()
      ensures installedGames == []
    {
      installedGames := [];
    }

    /** Switches on a power supply the method creates itself and then drops;
        the computer's own state does not change. */
    method TurnOn()
      ensures unchanged(this)
    {
      var psu := new PowerSupply();
      psu.TurnOn();
    }

    /** Appends a new "Morrowind" game to the installed list. */
    method InstallGame()
      modifies this
      ensures installedGames == Installed(old(installedGames))
    {
      var game := Game(Morrowind);
      installedGames := installedGames + [game];
    }

    /** Starts the first installed "Morrowind", scanning in insertion order,
        or reports that none is installed. */
    method PlayGame() returns (s: string)
      ensures s == PlayResult(installedGames)
      ensures s == NotInstalled <==> Absent(installedGames, Morrowind)
      ensures s != NotInstalled ==> exists i :: 0 <= i < |installedGames| && s == Start(installedGames[i])
    {
      var i := 0;
      while i < |installedGames|
        invariant 0 <= i <= |installedGames|
        invariant forall j :: 0 <= j < i ==> installedGames[j].name != Morrowind
      {
        var g := installedGames[i];
        if g.name == Morrowind {
          PlayFirstMatch(installedGames, i);
          return Start(g);
        }
        i := i + 1;
      }
      PlayNotInstalledIff(installedGames);
      return NotInstalled;
    }
  }

  /** A new computer after `k` calls of `InstallGame` holds exactly
      `InstallsFromFresh(k)`: the function describes the class. */
  method InstallOnFresh(k: nat) returns (c: Computer)
    ensures fresh(c)
    ensures c.installedGames == InstallsFromFresh(k)
  {
    c := new Computer();
    var i := 0;
    while i < k
      invariant 0 <= i <= k
      invariant c.installedGames == InstallsFromFresh(i)
    {
      c.InstallGame();
      i := i + 1;
    }
  }

  /** A started game's message is never the not-installed sentinel: the two
      differ in their first character. */
  lemma StartIsNotSentinel(g: Game)
    ensures Start(g) != NotInstalled
  {
    assert Start(g)[0] == 'P';
    assert NotInstalled[0] == 'G';
  }

  /** Playing reports the sentinel exactly when no "Morrowind" is installed. */
  lemma PlayNotInstalledIff(games: seq<Game>)
    ensures PlayResult(games) == NotInstalled <==> Absent(games, Morrowind)
  {
    match FindFirst(games, Morrowind)
    case Some(i) => StartIsNotSentinel(games[i]);
    case None =>
  }

  /** When the game at `i` is the first "Morrowind" in insertion order,
      playing starts that game, and the message is "Playing Morrowind". */
  lemma PlayFirstMatch(games: seq<Game>, i: nat)
    requires i < |games| && games[i].name == Morrowind
    requires forall j :: 0 <= j < i ==> games[j].name != Morrowind
    ensures PlayResult(games) == Start(games[i])
    ensures PlayResult(games) == PlayingPrefix + Morrowind
  {
  }

  /** Playing has only two outcomes: the sentinel or "Playing Morrowind". */
  lemma PlayOutcomes(games: seq<Game>)
    ensures PlayResult(games) == NotInstalled || PlayResult(games) == PlayingPrefix + Morrowind
  {
  }

  /** Installing never removes or reorders what was already installed. */
  lemma InstallKeepsPrefix(games: seq<Game>, j: nat)
    requires j < |games|
    ensures Installed(games)[j] == games[j]
  {
    assert Installed(games)[..|games|][j] == games[j];
  }

  /** After `k` installs on a fresh computer there are exactly `k` games, all
      named "Morrowind". */
  lemma {:induction false} InstallsFromFreshShape(k: nat)
    ensures |InstallsFromFresh(k)| == k
    ensures OnlyMorrowind(InstallsFromFresh(k))
  {
    if k > 0 {
      InstallsFromFreshShape(k - 1);
      var prev := InstallsFromFresh(k - 1);
      forall j | 0 <= j < k
        ensures InstallsFromFresh(k)[j].name == Morrowind
      {
        if j < k - 1 {
          InstallKeepsPrefix(prev, j);
        }
      }
    }
  }

  /** Once a game has been installed, playing never reports the sentinel:
      it starts "Morrowind". */
  lemma PlayAfterInstall(games: seq<Game>)
    ensures PlayResult(Installed(games)) == PlayingPrefix + Morrowind
  {
    var after := Installed(games);
    PlayNotInstalledIff(after);
    assert !Absent(after, Morrowind) by {
      assert after[|games|].name == Morrowind;
    }
    PlayOutcomes(after);
  }

  /** Installing does not change what playing returns once a "Morrowind" is
      already installed: the first match stays the first match. */
  lemma PlayStableUnderInstall(games: seq<Game>)
    requires !Absent(games, Morrowind)
    ensures PlayResult(Installed(games)) == PlayResult(games)
  {
    PlayNotInstalledIff(games);
    PlayOutcomes(games);
    PlayAfterInstall(games);
  }
}
