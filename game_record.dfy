/** The game record the Frontend/public screens (library, card, detail,
    statistics) receive from the API. Text fields the server leaves out are
    the empty string (JavaScript's falsy value for text); a missing number is
    None. */
module GameRecord {
  import opened Wrappers

  datatype Game = Game(
    id: string,
    title: string,
    platform: string,
    genre: string,
    releaseDate: string,
    coverImage: string,
    status: string,
    score: Option<nat>,
    hoursPlayed: Option<nat>)

  /** `game.score > 0`: a missing score (`undefined > 0`) is false. */
  predicate IsRated(g: Game)
  {
    g.score.Some? && g.score.value > 0
  }

  /** A number field read with `|| 0`. */
  function OrZero(v: Option<nat>): nat
  {
    match v
    case Some(n) => n
    case None => 0
  }
}
