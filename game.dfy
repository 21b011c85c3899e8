/** A game that can be installed on a computer. Its source file is not part
    of this model: the name is the only field the computer's code reads, and
    the meaning of `start()` is taken from the assertions of the tests. */
module Games {

  /** A game is an immutable value identified by its name. */
  datatype Game = Game(name: string)

  /** The fixed prefix of the message a started game returns. */
  const PlayingPrefix: string := "Playing "

  /** Starting a game yields "Playing " followed by the game's name. */
  function Start(g: Game): (r: string)
    ensures |r| == |PlayingPrefix| + |g.name|
    ensures r[..|PlayingPrefix|] == PlayingPrefix && r[|PlayingPrefix|..] == g.name
  {
    PlayingPrefix + g.name
  }

  /** The message determines the game: two games that start with the same
      message have the same name. */
  lemma StartInjective(g: Game, h: Game)
    requires Start(g) == Start(h)
    ensures g == h
  {
    assert g.name == Start(g)[|PlayingPrefix|..];
    assert h.name == Start(h)[|PlayingPrefix|..];
  }
}
