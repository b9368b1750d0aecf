/** The game card of the src/ screens (src/components/Tarjetajuego/TarjetaJuego.jsx):
    its own star row, and the handlers that toggle `completed`, change the
    rating and change the hours played through the single-field API helpers,
    patching the one field from the server's answer. */
module GameCard {
  import opened Wrappers
  import opened JsValue
  import Numerals
  import StarRating
  import GamesApi

  // ---------------------------------------------------------------------------
  // The card's star row

  /** `star <= (hoverRating || rating)`, with `rating` the game's raw value. */
  predicate InnerStarFilled(star: int, hoverRating: int, rating: Js)
  {
    NumAtMost(star, Or(Num(hoverRating), rating))
  }

  /** The fill flags of the stars valued 1..5. */
  function InnerStars(hoverRating: int, rating: Js): (row: seq<bool>)
    ensures |row| == 5
    ensures forall i :: 0 <= i < 5 ==> row[i] == InnerStarFilled(i + 1, hoverRating, rating)
  {
    seq(5, i requires 0 <= i < 5 => InnerStarFilled(i + 1, hoverRating, rating))
  }

  /** A hovered star fills the stars up to it whatever the rating; with no
      hover a rating that reads as the integer `r` fills exactly `r` of the
      five stars (clamped), the same row as the shared widget's. */
  lemma InnerStarsFill(hoverRating: int, rating: Js)
    ensures hoverRating != 0 ==> InnerStars(hoverRating, rating) == StarRating.Row(5, hoverRating)
    ensures hoverRating == 0 && ToNumber(rating).Num? ==>
      InnerStars(hoverRating, rating) == StarRating.Row(5, ToNumber(rating).n)
      && StarRating.CountFilled(InnerStars(hoverRating, rating)) == StarRating.Clamp(ToNumber(rating).n, 5)
    ensures hoverRating == 0 && ToNumber(rating).NaN? ==>
      forall i :: 0 <= i < 5 ==> !InnerStars(hoverRating, rating)[i]
  {
    if hoverRating != 0 {
      assert InnerStars(hoverRating, rating) == StarRating.Row(5, hoverRating);
    } else if ToNumber(rating).Num? {
      assert InnerStars(hoverRating, rating) == StarRating.Row(5, ToNumber(rating).n);
      StarRating.RowCount(5, ToNumber(rating).n);
    }
  }

  /** The hover state of the card's star row. Unlike the shared widget it
      has no effect on `readOnly`: a hover set before the card became
      read-only stays. */
  class CardStars {
    var hoverRating: int

    constructor ()
      ensures hoverRating == 0
    {
      hoverRating := 0;
    }

    /** `onMouseEnter`: `!readOnly && setHoverRating(star)`. */
    method MouseEnter(star: int, readOnly: bool)
      modifies this
      ensures hoverRating == if readOnly then old(hoverRating) else star
    {
      if !readOnly {
        hoverRating := star;
      }
    }

    /** `onMouseLeave`: `!readOnly && setHoverRating(0)`. */
    method MouseLeave(readOnly: bool)
      modifies this
      ensures hoverRating == if readOnly then old(hoverRating) else 0
    {
      if !readOnly {
        hoverRating := 0;
      }
    }

    /** `onClick`: `!readOnly && onRatingChange(star)`; the value handed on. */
    method Click(star: int, readOnly: bool) returns (forwarded: Option<int>)
      ensures forwarded == if readOnly then None else Some(star)
    {
      forwarded := if readOnly then None else Some(star);
    }
  }

  // ---------------------------------------------------------------------------
  // Reading the server's answer

  /** `v[key]` for a key no primitive has: reading a property of `null` or
      `undefined` throws a TypeError. */
  function Property(v: Js, key: string): (r: Result<Js>)
    ensures v.Obj? ==> r == Ok(Get(v.fields, key))
    ensures r.Err? <==> v.Null? || v.Undefined?
  {
    match v
    case Null => Err("TypeError: Cannot read properties of null (reading '" + key + "')")
    case Undefined => Err("TypeError: Cannot read properties of undefined (reading '" + key + "')")
    case Obj(fields) => Ok(Get(fields, key))
    case _ => Ok(Undefined)
  }

  /** `(await call)[key]`: the field of the updated game, or what was thrown. */
  function ReturnedField(resp: GamesApi.Response, key: string): (r: Result<Js>)
    ensures !resp.ok ==> r.Err?
  {
    match GamesApi.UpdateGameResult(resp)
    case Ok(updated) => Property(updated, key)
    case Err(m) => Err(m)
  }

  /** `game._id` as it is written into the request path. */
  function IdOf(g: JsObject): string
  {
    ToString(Get(g, "_id"))
  }

  /** What the card renders, in the order of its early returns. */
  datatype CardView = LoadingDetails | FailedDetails(message: string) | NoGame | Shown(game: JsObject)

  class Card {
    const isDetailPage: bool
    var game: Option<JsObject>
    var loading: bool
    var error: Option<string>

    constructor (initialGame: Option<JsObject>, isDetailPage: bool)
      ensures this.isDetailPage == isDetailPage && game == initialGame
      ensures !loading && error == None
    {
      this.isDetailPage := isDetailPage;
      game := initialGame;
      loading := false;
      error := None;
    }

    /** The effect on `[id, isDetailPage, initialGame]`: on a detail page with
        an id, start fetching that game; otherwise take the game passed in. */
    method SyncGame(routeId: string, initialGame: Option<JsObject>) returns (fetch: Option<GamesApi.Request>)
      modifies this
      ensures isDetailPage && routeId != [] ==>
        fetch == Some(GamesApi.GetGameByIdRequest(routeId)) && loading && game == old(game)
      ensures !(isDetailPage && routeId != []) ==>
        fetch == None && game == initialGame && loading == old(loading)
      ensures error == old(error)
    {
      if isDetailPage && routeId != [] {
        loading := true;
        fetch := Some(GamesApi.GetGameByIdRequest(routeId));
      } else {
        game := initialGame;
        fetch := None;
      }
    }

    /** The end of `fetchGameDetails`. */
    method FinishDetails(resp: GamesApi.Response)
      modifies this
      ensures !loading
      ensures GamesApi.GetGameByIdResult(resp).Ok? ==>
        game == GamesApi.AsRecord(GamesApi.GetGameByIdResult(resp).value) && error == old(error)
      ensures GamesApi.GetGameByIdResult(resp).Err? ==>
        game == old(game) && error == Some(GamesApi.GetGameByIdResult(resp).message)
    {
      match GamesApi.GetGameByIdResult(resp) {
        case Ok(data) => game := GamesApi.AsRecord(data);
        case Err(m) => error := Some(m);
      }
      loading := false;
    }

    /** The shared tail of the three handlers: the field `key` of the updated
        game replaces the card's, or the error is kept; loading ends. */
    method Apply(key: string, resp: GamesApi.Response, hasOnUpdate: bool) returns (notified: bool)
      requires game.Some?
      modifies this
      ensures !loading
      ensures ReturnedField(resp, key).Ok? ==>
        game == Some(old(game).value[key := ReturnedField(resp, key).value])
        && error == old(error) && notified == hasOnUpdate
      ensures ReturnedField(resp, key).Err? ==>
        game == old(game) && error == Some(ReturnedField(resp, key).message) && !notified
    {
      match ReturnedField(resp, key) {
        case Ok(v) =>
          game := Some(game.value[key := v]);
          notified := hasOnUpdate;
        case Err(m) =>
          error := Some(m);
          notified := false;
      }
      loading := false;
    }

    /** `handleToggleCompleted`: asks for the negation of `completed`. */
    method ToggleCompleted(resp: GamesApi.Response, hasOnUpdate: bool)
      returns (request: Option<GamesApi.Request>, notified: bool)
      modifies this
      ensures old(game).None? ==>
        request == None && !notified && game == old(game) && loading == old(loading) && error == old(error)
      ensures old(game).Some? ==>
        request == Some(GamesApi.CompletedRequest(IdOf(old(game).value), Bool(!Truthy(Get(old(game).value, "completed")))))
        && !loading
      ensures old(game).Some? && ReturnedField(resp, "completed").Ok? ==>
        game == Some(old(game).value["completed" := ReturnedField(resp, "completed").value])
        && error == old(error) && notified == hasOnUpdate
      ensures old(game).Some? && ReturnedField(resp, "completed").Err? ==>
        game == old(game) && error == Some(ReturnedField(resp, "completed").message) && !notified
    {
      if game.None? {
        return None, false;
      }
      var g := game.value;
      request := Some(GamesApi.CompletedRequest(IdOf(g), Bool(!Truthy(Get(g, "completed")))));
      loading := true;
      notified := Apply("completed", resp, hasOnUpdate);
    }

    /** `handleRatingChange(newRating)`: nothing happens without a game or
        when the rating is already `newRating`. */
    method RatingChange(newRating: int, resp: GamesApi.Response, hasOnUpdate: bool)
      returns (request: Option<GamesApi.Request>, notified: bool)
      modifies this
      ensures old(game).None? || StrictEquals(Num(newRating), Get(old(game).value, "rating")) ==>
        request == None && !notified && game == old(game) && loading == old(loading) && error == old(error)
      ensures old(game).Some? && !StrictEquals(Num(newRating), Get(old(game).value, "rating")) ==>
        request == Some(GamesApi.RatingRequest(IdOf(old(game).value), Num(newRating)))
        && !loading
        && (ReturnedField(resp, "rating").Ok? ==>
              game == Some(old(game).value["rating" := ReturnedField(resp, "rating").value])
              && error == old(error) && notified == hasOnUpdate)
        && (ReturnedField(resp, "rating").Err? ==>
              game == old(game) && error == Some(ReturnedField(resp, "rating").message) && !notified)
    {
      if game.None? || StrictEquals(Num(newRating), Get(game.value, "rating")) {
        return None, false;
      }
      request := Some(GamesApi.RatingRequest(IdOf(game.value), Num(newRating)));
      loading := true;
      notified := Apply("rating", resp, hasOnUpdate);
    }

    /** `handleHoursPlayedChange` for the typed `text`: `parseInt(text, 10)`
        must be a number, not negative and not the current value. */
    method HoursChange(text: string, resp: GamesApi.Response, hasOnUpdate: bool)
      returns (request: Option<GamesApi.Request>, notified: bool)
      modifies this
      ensures old(game).None? || HoursIgnored(Numerals.ParseInt(text), old(game).value) ==>
        request == None && !notified && game == old(game) && loading == old(loading) && error == old(error)
      ensures old(game).Some? && !HoursIgnored(Numerals.ParseInt(text), old(game).value) ==>
        request == Some(GamesApi.HoursRequest(IdOf(old(game).value), Num(Numerals.ParseInt(text).value)))
        && !loading
        && (ReturnedField(resp, "hoursPlayed").Ok? ==>
              game == Some(old(game).value["hoursPlayed" := ReturnedField(resp, "hoursPlayed").value])
              && error == old(error) && notified == hasOnUpdate)
        && (ReturnedField(resp, "hoursPlayed").Err? ==>
              game == old(game) && error == Some(ReturnedField(resp, "hoursPlayed").message) && !notified)
    {
      if game.None? {
        return None, false;
      }
      var newHours := Numerals.ParseInt(text);
      if HoursIgnored(newHours, game.value) {
        return None, false;
      }
      request := Some(GamesApi.HoursRequest(IdOf(game.value), Num(newHours.value)));
      loading := true;
      notified := Apply("hoursPlayed", resp, hasOnUpdate);
    }

    /** The early returns of the render. */
    function View(): (v: CardView)
      reads this
      ensures loading && isDetailPage ==> v == LoadingDetails
      ensures !(loading && isDetailPage) && isDetailPage && error.Some? ==> v == FailedDetails(error.value)
      ensures !(loading && isDetailPage) && !(isDetailPage && error.Some?) ==>
        v == if game.Some? then Shown(game.value) else NoGame
    {
      if loading && isDetailPage then LoadingDetails
      else if error.Some? && isDetailPage then FailedDetails(error.value)
      else if game.None? then NoGame
      else Shown(game.value)
    }
  }

  /** `isNaN(newHours) || newHours < 0 || newHours === game.hoursPlayed`. */
  predicate HoursIgnored(newHours: Option<int>, g: JsObject)
  {
    match newHours
    case None => true
    case Some(h) => h < 0 || StrictEquals(Num(h), Get(g, "hoursPlayed"))
  }

  /** Typing a non-negative integer that differs from the stored hours is
      never ignored; typing the stored value, a negative one or an empty
      input always is. */
  lemma HoursGuard(g: JsObject, n: int)
    ensures !HoursIgnored(Numerals.ParseInt(Numerals.IntToString(n)), g)
            <==> n >= 0 && Get(g, "hoursPlayed") != Num(n)
    ensures HoursIgnored(Numerals.ParseInt(""), g)
  {
    Numerals.ParseIntRoundTrip(n);
  }

  /** The toggle request carries the negation of the current `completed` as
      the only field of its body. */
  lemma ToggleBody(g: JsObject)
    ensures GamesApi.CompletedRequest(IdOf(g), Bool(!Truthy(Get(g, "completed")))).body
            == Some(map["completed" := Bool(!Truthy(Get(g, "completed")))])
  {
    GamesApi.SingleFieldBodies(IdOf(g), Bool(!Truthy(Get(g, "completed"))));
  }
}
