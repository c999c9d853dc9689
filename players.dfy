/** The content of a board cell, which is also the marker of a player. */
module Players {

  datatype Player = Empty | Cross | Nought

  /** The text a player is displayed as. */
  function Name(p: Player): (s: string)
    ensures |s| > 0
  {
    match p
    case Cross => "Cross"
    case Nought => "Nought"
    case Empty => "_"
  }

  /** Different players are displayed differently, so a displayed name identifies the player. */
  lemma NameInjective(p: Player, q: Player)
    ensures Name(p) == Name(q) <==> p == q
  {
  }
}
