/** The library page of the GAMETRAKER-Frontend screens
    (GAMETRAKER-Frontend/node_modules/publlic/pages/BibliotecaJuegos.js): the
    query parameters built from the filters, the local case-insensitive sort
    of the fetched games, the genre options offered to the filter controls
    and the delete flow. */
module LibraryPage {
  import opened Wrappers
  import Text
  import opened GameRecord
  import Ordering

  // ---------------------------------------------------------------------------
  // Query parameters

  /** One property of the `params` object, in insertion order. */
  datatype Param = Param(name: string, value: string)

  /** The properties whose value is truthy (a non-empty string), in order. */
  function Present(ps: seq<Param>): (r: seq<Param>)
    ensures forall p :: p in r <==> p in ps && p.value != []
  {
    if ps == [] then []
    else (if ps[0].value != [] then [ps[0]] else []) + Present(ps[1..])
  }

  /** The value stored under `name`, if any. */
  function Lookup(ps: seq<Param>, name: string): Option<string>
  {
    if ps == [] then None
    else if ps[0].name == name then Some(ps[0].value)
    else Lookup(ps[1..], name)
  }

  /** The `params` object of `fetchGames`: `search`, `status` and `genre` are
      set, in that order, only for a non-empty filter value. */
  method BuildParams(searchTerm: string, filterStatus: string, filterGenre: string)
    returns (params: seq<Param>)
    ensures params == Present([Param("search", searchTerm), Param("status", filterStatus),
                               Param("genre", filterGenre)])
  {
    ghost var a, b, c := Param("search", searchTerm), Param("status", filterStatus), Param("genre", filterGenre);
    assert [a, b, c][1..] == [b, c] && [b, c][1..] == [c] && [c][1..] == [];
    ghost var want := (if a.value != [] then [a] else []) + (if b.value != [] then [b] else [])
                    + (if c.value != [] then [c] else []);
    assert Present([c]) == (if c.value != [] then [c] else []);
    assert Present([b, c]) == (if b.value != [] then [b] else []) + Present([c]);
    assert Present([a, b, c]) == want;
    params := [];
    if searchTerm != [] {
      params := params + [Param("search", searchTerm)];
    }
    if filterStatus != [] {
      params := params + [Param("status", filterStatus)];
    }
    if filterGenre != [] {
      params := params + [Param("genre", filterGenre)];
    }
    assert params == want;
  }

  /** Each filter can be read back from the parameters exactly when it is
      non-empty. */
  lemma ParamsLookup(searchTerm: string, filterStatus: string, filterGenre: string)
    ensures var params := Present([Param("search", searchTerm), Param("status", filterStatus),
                                   Param("genre", filterGenre)]);
      && Lookup(params, "search") == (if searchTerm != [] then Some(searchTerm) else None)
      && Lookup(params, "status") == (if filterStatus != [] then Some(filterStatus) else None)
      && Lookup(params, "genre") == (if filterGenre != [] then Some(filterGenre) else None)
  {
    var a, b, c := Param("search", searchTerm), Param("status", filterStatus), Param("genre", filterGenre);
    assert [a, b, c][1..] == [b, c] && [b, c][1..] == [c] && [c][1..] == [];
    assert "search"[1] != "status"[1] && "search"[0] != "genre"[0] && "status"[0] != "genre"[0];
    var pc := if c.value != [] then [c] else [];
    var pb := if b.value != [] then [b] else [];
    var pa := if a.value != [] then [a] else [];
    assert Present([c]) == pc;
    assert Present([b, c]) == pb + pc;
    assert Present([a, b, c]) == pa + (pb + pc);
    LookupAppend(pb, pc, "search");
    LookupAppend(pb, pc, "status");
    LookupAppend(pb, pc, "genre");
    LookupAppend(pa, pb + pc, "search");
    LookupAppend(pa, pb + pc, "status");
    LookupAppend(pa, pb + pc, "genre");
  }

  lemma {:induction false} LookupAppend(xs: seq<Param>, ys: seq<Param>, name: string)
    ensures Lookup(xs + ys, name) == if Lookup(xs, name).Some? then Lookup(xs, name) else Lookup(ys, name)
  {
    if xs != [] {
      assert (xs + ys)[1..] == xs[1..] + ys;
      LookupAppend(xs[1..], ys, name);
    } else {
      assert xs + ys == ys;
    }
  }

  // ---------------------------------------------------------------------------
  // The local sort

  /** The values of the sort select. */
  datatype SortField = ByTitle | ByReleaseDate | ByScore

  /** `a[sortBy]`, lowercased when it is a string; None for a game without a
      score. */
  function SortValue(g: Game, field: SortField): Option<Ordering.Key>
  {
    match field
    case ByTitle => Some(Ordering.Txt(Text.ToLower(g.title)))
    case ByReleaseDate => Some(Ordering.Txt(Text.ToLower(g.releaseDate)))
    case ByScore => if g.score.Some? then Some(Ordering.Num(g.score.value)) else None
  }

  /** The comparator of `data.sort`: -1, 1 or 0 from `<` and `>` on the
      lowercased values, signs inverted unless the order is "asc". Comparing
      with `undefined` is false both ways, so a game without a score compares
      0; a missing title or date is read here as the empty text. */
  function CompareGames(a: Game, b: Game, field: SortField, order: string): (r: int)
    ensures -1 <= r <= 1
  {
    match (SortValue(a, field), SortValue(b, field))
    case (Some(x), Some(y)) => Ordering.Compare(x, y, order == "asc")
    case _ => 0
  }

  /** String keys compare without regard to case: the result is that of
      `<` on the lowercased texts, 0 exactly when they are equal, and "asc"
      puts the smaller first while any other order puts it last. */
  lemma CompareGamesIgnoresCase(a: Game, b: Game, field: SortField, order: string)
    requires field == ByTitle || field == ByReleaseDate
    ensures var x := if field == ByTitle then a.title else a.releaseDate;
            var y := if field == ByTitle then b.title else b.releaseDate;
      && (CompareGames(a, b, field, order) == 0 <==> Text.ToLower(x) == Text.ToLower(y))
      && (order == "asc" ==>
            (CompareGames(a, b, field, order) == -1 <==> Ordering.StrLt(Text.ToLower(x), Text.ToLower(y))))
      && (order != "asc" ==>
            (CompareGames(a, b, field, order) == 1 <==> Ordering.StrLt(Text.ToLower(x), Text.ToLower(y))))
  {
    var x := if field == ByTitle then a.title else a.releaseDate;
    var y := if field == ByTitle then b.title else b.releaseDate;
    Ordering.CompareFacts(Ordering.Txt(Text.ToLower(x)), Ordering.Txt(Text.ToLower(y)), true);
  }

  /** With "asc" a smaller key gives -1 and a larger one 1; any other order
      inverts both; equal keys give 0; a missing score gives 0. */
  lemma CompareGamesSigns(a: Game, b: Game, field: SortField, order: string)
    ensures SortValue(a, field).Some? && SortValue(b, field).Some? ==>
      var x := SortValue(a, field).value;
      var y := SortValue(b, field).value;
      && (Ordering.KeyLt(x, y) ==> CompareGames(a, b, field, order) == (if order == "asc" then -1 else 1))
      && (Ordering.KeyLt(y, x) ==> CompareGames(a, b, field, order) == (if order == "asc" then 1 else -1))
      && (x == y ==> CompareGames(a, b, field, order) == 0)
    ensures SortValue(a, field).None? || SortValue(b, field).None? ==> CompareGames(a, b, field, order) == 0
  {
    if SortValue(a, field).Some? && SortValue(b, field).Some? {
      Ordering.CompareFacts(SortValue(a, field).value, SortValue(b, field).value, order == "asc");
    }
  }

  /** The key the sort places a game by: its sort value, with a missing
      score placed as 0. */
  function RankKey(field: SortField): Game -> Ordering.Key
  {
    g => match SortValue(g, field) case Some(k) => k case None => Ordering.Num(0)
  }

  /** `data.sort(comparator)`, stable. */
  function SortGames(data: seq<Game>, field: SortField, order: string): seq<Game>
  {
    Ordering.Sort(data, RankKey(field), order == "asc")
  }

  /** A game has a value for the sort field. */
  predicate HasSortValue(g: Game, field: SortField)
  {
    SortValue(g, field).Some?
  }

  /** The stored list is a permutation of the fetched data; when every game
      has the sort field, no pair is out of order for the comparator, and
      games that compare equal keep their fetched order. */
  lemma SortGamesCorrect(data: seq<Game>, field: SortField, order: string)
    ensures multiset(SortGames(data, field, order)) == multiset(data)
    ensures |SortGames(data, field, order)| == |data|
    ensures (forall g :: g in data ==> HasSortValue(g, field)) ==>
      forall i, j :: 0 <= i < j < |data| ==>
        CompareGames(SortGames(data, field, order)[i], SortGames(data, field, order)[j], field, order) <= 0
    ensures forall k :: Ordering.WithKey(SortGames(data, field, order), RankKey(field), k)
                     == Ordering.WithKey(data, RankKey(field), k)
  {
    var r := SortGames(data, field, order);
    Ordering.SortCorrect(data, RankKey(field), order == "asc");
    if forall g :: g in data ==> HasSortValue(g, field) {
      forall i, j | 0 <= i < j < |data| ensures CompareGames(r[i], r[j], field, order) <= 0 {
        assert r[i] in multiset(data) && r[j] in multiset(data);
        assert r[i] in data && r[j] in data;
      }
    }
  }

  // ---------------------------------------------------------------------------
  // Genre options

  /** `Array.from(new Set(xs))`: the distinct values in order of first
      occurrence. */
  function Dedup(xs: seq<string>): seq<string>
  {
    if xs == [] then []
    else
      var d := Dedup(xs[..|xs| - 1]);
      var x := xs[|xs| - 1];
      if x in d then d else d + [x]
  }

  /** The values of each game's genre that are truthy, in order. */
  function Genres(games: seq<Game>): (r: seq<string>)
    ensures forall t :: t in r <==> t != [] && exists g :: g in games && g.genre == t
  {
    if games == [] then []
    else (if games[0].genre != [] then [games[0].genre] else []) + Genres(games[1..])
  }

  /** `availableGenres`. */
  function AvailableGenres(games: seq<Game>): seq<string>
  {
    Dedup(Genres(games))
  }

  lemma {:induction false} DedupFacts(xs: seq<string>)
    ensures forall x :: x in Dedup(xs) <==> x in xs
    ensures forall i, j :: 0 <= i < j < |Dedup(xs)| ==> Dedup(xs)[i] != Dedup(xs)[j]
  {
    if xs != [] {
      var init := xs[..|xs| - 1];
      DedupFacts(init);
      assert xs == init + [xs[|xs| - 1]];
    }
  }

  /** The genre options are distinct, non-empty, and exactly the genres some
      game of the list has. */
  lemma AvailableGenresCorrect(games: seq<Game>)
    ensures forall t :: t in AvailableGenres(games) <==> t != [] && exists g :: g in games && g.genre == t
    ensures forall i, j :: 0 <= i < j < |AvailableGenres(games)| ==>
      AvailableGenres(games)[i] != AvailableGenres(games)[j]
  {
    DedupFacts(Genres(games));
  }

  // ---------------------------------------------------------------------------
  // The screen

  const DeletedAlert := "Juego y sus reseñas eliminados con éxito."
  const DeleteFailedPrefix := "Error al eliminar el juego: "

  datatype LibraryView =
    | Loading
    | Failed(message: string)
    | List(games: seq<Game>, genreOptions: seq<string>, showsNoGamesMessage: bool)

  class LibraryScreen {
    var games: seq<Game>
    var loading: bool
    var error: Option<string>
    var searchTerm: string
    var filterStatus: string
    var filterGenre: string
    var sortBy: SortField
    var sortOrder: string

    constructor ()
      ensures games == [] && loading && error == None
      ensures searchTerm == "" && filterStatus == "" && filterGenre == ""
      ensures sortBy == ByTitle && sortOrder == "asc"
    {
      games := [];
      loading := true;
      error := None;
      searchTerm := "";
      filterStatus := "";
      filterGenre := "";
      sortBy := ByTitle;
      sortOrder := "asc";
    }

    /** The start of `fetchGames`: loading on, error cleared, and the query
        parameters of the request. */
    method BeginFetch() returns (params: seq<Param>)
      modifies this
      ensures loading && error == None && games == old(games)
      ensures params == Present([Param("search", searchTerm), Param("status", filterStatus),
                                 Param("genre", filterGenre)])
      ensures searchTerm == old(searchTerm) && filterStatus == old(filterStatus)
      ensures filterGenre == old(filterGenre) && sortBy == old(sortBy) && sortOrder == old(sortOrder)
    {
      loading := true;
      error := None;
      params := BuildParams(searchTerm, filterStatus, filterGenre);
    }

    /** The end of `fetchGames`: the fetched data, sorted locally, replaces
        the list; on failure the message is kept and the list stays.
        Loading ends either way. */
    method FinishFetch(result: Result<seq<Game>>)
      modifies this
      ensures !loading
      ensures result.Ok? ==> games == SortGames(result.value, sortBy, sortOrder) && error == old(error)
      ensures result.Err? ==> games == old(games) && error == Some(result.message)
      ensures searchTerm == old(searchTerm) && filterStatus == old(filterStatus)
      ensures filterGenre == old(filterGenre) && sortBy == old(sortBy) && sortOrder == old(sortOrder)
    {
      match result {
        case Ok(data) => games := SortGames(data, sortBy, sortOrder);
        case Err(msg) => error := Some(msg);
      }
      loading := false;
    }

    /** `handleDelete`: without confirmation nothing is sent; otherwise the
        delete is sent, and only its success (`outcome` None) asks for a new
        fetch. Either end of the delete shows an alert. The list itself is not
        touched here. */
    method HandleDelete(confirmed: bool, outcome: Option<string>)
      returns (sent: bool, refetch: bool, alert: Option<string>)
      ensures sent == confirmed
      ensures refetch <==> confirmed && outcome.None?
      ensures !confirmed ==> alert == None
      ensures confirmed && outcome.None? ==> alert == Some(DeletedAlert)
      ensures confirmed && outcome.Some? ==> alert == Some(DeleteFailedPrefix + outcome.value)
    {
      sent := false;
      refetch := false;
      alert := None;
      if confirmed {
        sent := true;
        match outcome {
          case None =>
            alert := Some(DeletedAlert);
            refetch := true;
          case Some(m) =>
            alert := Some(DeleteFailedPrefix + m);
        }
      }
    }

    /** `if (error)` on the stored message: an empty message is falsy and
        shows no error. */
    predicate HasError()
      reads this
    {
      error.Some? && error.value != []
    }

    /** What the page shows: loading first, then the error, then the list with
        the genre options, and the no-games message exactly when it is empty. */
    function View(): (v: LibraryView)
      reads this
      ensures loading ==> v == Loading
      ensures !loading && HasError() ==> v == Failed(error.value)
      ensures v.List? <==> !loading && !HasError()
      ensures v.List? ==> v.games == games
      ensures v.List? ==> (v.showsNoGamesMessage <==> |games| == 0)
    {
      if loading then Loading
      else if HasError() then Failed(error.value)
      else List(games, AvailableGenres(games), |games| == 0)
    }
  }
}
