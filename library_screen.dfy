/** The library screen of the src/ client (src/components/Bibliotecajuegos/BibliotecaJuegos.jsx):
    the list of games it fetches, the delete handler that drops a game by
    `_id` once the server confirms, and what it renders. */
module LibraryScreen {
  import opened Wrappers
  import opened JsValue
  import GamesApi

  /** `games.filter(game => game._id !== gameId)`. */
  function RemoveById(games: seq<JsObject>, gameId: Js): (r: seq<JsObject>)
    ensures |r| <= |games|
  {
    if games == [] then []
    else (if StrictEquals(Get(games[0], "_id"), gameId) then [] else [games[0]]) + RemoveById(games[1..], gameId)
  }

  /** How many games carry the id `gameId`. */
  function Matches(games: seq<JsObject>, gameId: Js): nat
  {
    if games == [] then 0
    else (if StrictEquals(Get(games[0], "_id"), gameId) then 1 else 0) + Matches(games[1..], gameId)
  }

  /** `xs` is `ys` with some games dropped and the rest in their order. */
  predicate Subsequence(xs: seq<JsObject>, ys: seq<JsObject>)
  {
    if ys == [] then xs == []
    else (xs != [] && xs[0] == ys[0] && Subsequence(xs[1..], ys[1..])) || Subsequence(xs, ys[1..])
  }

  /** After the filter no game with that id remains. */
  lemma {:induction false} RemoveByIdRemoves(games: seq<JsObject>, gameId: Js)
    ensures forall g :: g in RemoveById(games, gameId) ==> !StrictEquals(Get(g, "_id"), gameId)
  {
    if games != [] {
      RemoveByIdRemoves(games[1..], gameId);
    }
  }

  /** Every other game stays, as often as it was there, and the kept games
      are in their original order. */
  lemma {:induction false} RemoveByIdKeeps(games: seq<JsObject>, gameId: Js)
    ensures forall g :: !StrictEquals(Get(g, "_id"), gameId) ==>
      multiset(RemoveById(games, gameId))[g] == multiset(games)[g]
    ensures Subsequence(RemoveById(games, gameId), games)
  {
    if games != [] {
      RemoveByIdKeeps(games[1..], gameId);
      assert games == [games[0]] + games[1..];
      assert multiset(games) == multiset{games[0]} + multiset(games[1..]);
      var rest := RemoveById(games[1..], gameId);
      if !StrictEquals(Get(games[0], "_id"), gameId) {
        assert ([games[0]] + rest)[1..] == rest;
      } else {
        assert RemoveById(games, gameId) == rest;
      }
    }
  }

  /** Exactly the matching games are dropped; with distinct ids, deleting an
      id that is in the list shortens it by one. */
  lemma {:induction false} RemoveByIdLength(games: seq<JsObject>, gameId: Js)
    ensures |RemoveById(games, gameId)| == |games| - Matches(games, gameId)
    ensures Matches(games, gameId) == 0 ==> RemoveById(games, gameId) == games
  {
    if games != [] {
      RemoveByIdLength(games[1..], gameId);
      if Matches(games, gameId) == 0 {
        assert [games[0]] + games[1..] == games;
      }
    }
  }

  /** What the screen renders, in the order of its early returns. */
  datatype LibraryView = Loading | Failed(message: string) | Empty | Grid(games: seq<JsObject>)

  class Library {
    var games: seq<JsObject>
    var loading: bool
    var error: Option<string>

    constructor ()
      ensures games == [] && loading && error == None
    {
      games := [];
      loading := true;
      error := None;
    }

    /** The start of `fetchAllGames`, run on mount and whenever a card
        reports an update. */
    method BeginFetch() returns (request: GamesApi.Request)
      modifies this
      ensures request == GamesApi.GetGamesRequest()
      ensures loading && error == None && games == old(games)
    {
      loading := true;
      error := None;
      request := GamesApi.GetGamesRequest();
    }

    /** The end of `fetchAllGames`: the fetched list replaces the old one, or
        the error is kept and the list stays; loading ends either way. */
    method FinishFetch(result: Result<seq<JsObject>>)
      modifies this
      ensures !loading
      ensures result.Ok? ==> games == result.value && error == old(error)
      ensures result.Err? ==> games == old(games) && error == Some(result.message)
    {
      match result {
        case Ok(data) => games := data;
        case Err(m) => error := Some(m);
      }
      loading := false;
    }

    /** `handleDeleteGame(gameId)`: after the user confirms, the game is
        deleted on the server and, once that succeeds, dropped from the list.
        A failure keeps the list, sets the error and shows an alert. */
    method DeleteGame(gameId: Js, confirmed: bool, resp: GamesApi.Response)
      returns (request: Option<GamesApi.Request>, alerted: bool)
      modifies this
      ensures loading == old(loading)
      ensures !confirmed ==> request == None && !alerted && games == old(games) && error == old(error)
      ensures confirmed ==> request == Some(GamesApi.DeleteGameRequest(ToString(gameId)))
      ensures confirmed && GamesApi.DeleteGameResult(resp).Ok? ==>
        games == RemoveById(old(games), gameId) && error == old(error) && !alerted
      ensures confirmed && GamesApi.DeleteGameResult(resp).Err? ==>
        games == old(games) && error == Some(GamesApi.DeleteGameResult(resp).message) && alerted
    {
      if !confirmed {
        return None, false;
      }
      request := Some(GamesApi.DeleteGameRequest(ToString(gameId)));
      match GamesApi.DeleteGameResult(resp) {
        case Ok(_) =>
          games := RemoveById(games, gameId);
          alerted := false;
        case Err(m) =>
          error := Some(m);
          alerted := true;
      }
    }

    /** The render: loading first, then the error, then the empty message or
        the grid of cards. */
    function View(): (v: LibraryView)
      reads this
      ensures loading ==> v == Loading
      ensures !loading && error.Some? ==> v == Failed(error.value)
      ensures !loading && error.None? ==> (v == Empty <==> games == [])
      ensures !loading && error.None? && games != [] ==> v == Grid(games)
    {
      if loading then Loading
      else if error.Some? then Failed(error.value)
      else if |games| == 0 then Empty
      else Grid(games)
    }
  }

  /** A confirmed delete that the server accepts leaves a grid without the
      deleted game, every other game kept in order; a refused one leaves the
      screen showing the error. */
  lemma DeleteOutcome(games: seq<JsObject>, gameId: Js, resp: GamesApi.Response)
    ensures GamesApi.DeleteGameResult(resp).Ok? ==>
      var rest := RemoveById(games, gameId);
      (forall g :: g in rest ==> !StrictEquals(Get(g, "_id"), gameId))
      && Subsequence(rest, games)
      && |rest| == |games| - Matches(games, gameId)
    ensures !resp.ok ==> GamesApi.DeleteGameResult(resp) == Err(GamesApi.DeleteFailed)
  {
    RemoveByIdRemoves(games, gameId);
    RemoveByIdKeeps(games, gameId);
    RemoveByIdLength(games, gameId);
  }
}
