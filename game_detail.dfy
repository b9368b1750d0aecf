/** The detail page of the Frontend/public client (Frontend/public/pages/GameDetail.js):
    the game and its reviews are fetched separately into one screen state that
    shares a single error, the game can be deleted, and reviews can be edited
    and re-fetched. */
module GameDetail {
  import opened Wrappers
  import opened JsValue
  import GamesApi
  import CardDisplay

  const DeletedAlert := "Juego eliminado con éxito."
  const DeleteFailedPrefix := "Error al eliminar el juego: "
  const ReviewDeletedAlert := "Reseña eliminada con éxito."
  const ReviewDeleteFailedPrefix := "Error al eliminar la reseña: "

  /** The reviews part of the detail view. */
  datatype ReviewsPart = ReviewsLoading | ReviewsShown(reviews: seq<Js>, editing: Option<Js>)

  /** What the page renders, in the order of its early returns. */
  datatype DetailView =
    | LoadingGame
    | Failed(message: string)
    | NotFound
    | Detail(game: JsObject, lines: CardDisplay.CardLines, reviews: ReviewsPart)

  /** The confirmation `handleDeleteGame` asks for. */
  function DeletePrompt(game: JsObject): string
  {
    "¿Estás seguro de que quieres eliminar \"" + ToString(Get(game, "title")) + "\" y todas sus reseñas?"
  }

  class DetailScreen {
    const id: string
    var game: Option<JsObject>
    var reviews: seq<Js>
    var loadingGame: bool
    var loadingReviews: bool
    /** The message of the last failure; an empty message is falsy and shows
        no error. */
    var error: Option<string>
    var reviewToEdit: Option<Js>

    constructor (routeId: string)
      ensures id == routeId && game == None && reviews == []
      ensures loadingGame && loadingReviews && error == None && reviewToEdit == None
    {
      id := routeId;
      game := None;
      reviews := [];
      loadingGame := true;
      loadingReviews := true;
      error := None;
      reviewToEdit := None;
    }

    /** `if (error)` on the stored message. */
    predicate HasError()
      reads this
    {
      error.Some? && error.value != []
    }

    /** The render: the game's loading first, then the error, then a missing
        game, then the detail with its reviews part. */
    function View(): (v: DetailView)
      reads this
      ensures loadingGame ==> v == LoadingGame
      ensures !loadingGame && HasError() ==> v == Failed(error.value)
      ensures !loadingGame && !HasError() && game.None? ==> v == NotFound
      ensures v.Detail? <==> !loadingGame && !HasError() && game.Some?
      ensures v.Detail? ==> v.game == game.value && v.lines == CardDisplay.Lines(game.value)
      ensures v.Detail? ==> (v.reviews == ReviewsLoading <==> loadingReviews)
    {
      if loadingGame then LoadingGame
      else if HasError() then Failed(error.value)
      else if game.None? then NotFound
      else Detail(game.value, CardDisplay.Lines(game.value),
                  if loadingReviews then ReviewsLoading else ReviewsShown(reviews, reviewToEdit))
    }

    /** The start of `fetchGameDetails`: the error is cleared. */
    method BeginGameFetch()
      modifies this
      ensures loadingGame && error == None
      ensures game == old(game) && reviews == old(reviews) && loadingReviews == old(loadingReviews)
      ensures reviewToEdit == old(reviewToEdit)
    {
      loadingGame := true;
      error := None;
    }

    /** The end of `fetchGameDetails`; `result` is what `getGameById` gave
        or the message it threw. */
    method FinishGameFetch(result: Result<Js>)
      modifies this
      ensures !loadingGame
      ensures result.Ok? ==> game == GamesApi.AsRecord(result.value) && error == old(error)
      ensures result.Err? ==> game == old(game) && error == Some(result.message)
      ensures reviews == old(reviews) && loadingReviews == old(loadingReviews) && reviewToEdit == old(reviewToEdit)
    {
      match result {
        case Ok(data) => game := GamesApi.AsRecord(data);
        case Err(m) => error := Some(m);
      }
      loadingGame := false;
    }

    /** The start of `fetchReviews`; unlike the game fetch it leaves the error
        as it was. */
    method BeginReviewsFetch()
      modifies this
      ensures loadingReviews
      ensures game == old(game) && reviews == old(reviews) && loadingGame == old(loadingGame)
      ensures error == old(error) && reviewToEdit == old(reviewToEdit)
    {
      loadingReviews := true;
    }

    /** The end of `fetchReviews`. A failure writes the shared error, so the
        whole page shows it in place of the game. */
    method FinishReviewsFetch(result: Result<seq<Js>>)
      modifies this
      ensures !loadingReviews
      ensures result.Ok? ==> reviews == result.value && error == old(error)
      ensures result.Err? ==> reviews == old(reviews) && error == Some(result.message)
      ensures game == old(game) && loadingGame == old(loadingGame) && reviewToEdit == old(reviewToEdit)
      ensures result.Err? && result.message != [] && !loadingGame ==> View() == Failed(result.message)
    {
      match result {
        case Ok(data) => reviews := data;
        case Err(m) => error := Some(m);
      }
      loadingReviews := false;
    }

    /** `handleDeleteGame`: the page leaves for '/' only when the user
        confirmed and the delete succeeded; `outcome` is None on success and
        the thrown message otherwise. The button exists only on a shown game. */
    method DeleteGame(confirmed: bool, outcome: Option<string>)
      returns (prompt: string, navigated: bool, alert: Option<string>)
      requires game.Some?
      ensures prompt == DeletePrompt(game.value)
      ensures navigated <==> confirmed && outcome.None?
      ensures !confirmed ==> alert == None
      ensures confirmed && outcome.None? ==> alert == Some(DeletedAlert)
      ensures confirmed && outcome.Some? ==> alert == Some(DeleteFailedPrefix + outcome.value)
    {
      prompt := DeletePrompt(game.value);
      if !confirmed {
        return prompt, false, None;
      }
      match outcome {
        case None =>
          alert := Some(DeletedAlert);
          navigated := true;
        case Some(m) =>
          alert := Some(DeleteFailedPrefix + m);
          navigated := false;
      }
    }

    /** `handleReviewSaved`: the reviews are fetched again and editing ends. */
    method ReviewSaved()
      modifies this
      ensures loadingReviews && reviewToEdit == None
      ensures game == old(game) && reviews == old(reviews) && loadingGame == old(loadingGame) && error == old(error)
    {
      BeginReviewsFetch();
      reviewToEdit := None;
    }

    /** `handleDeleteReview(reviewId)`: after confirmation and a successful
        delete the reviews are fetched again. */
    method DeleteReview(confirmed: bool, outcome: Option<string>) returns (refetch: bool, alert: Option<string>)
      modifies this
      ensures refetch <==> confirmed && outcome.None?
      ensures refetch ==> loadingReviews && alert == Some(ReviewDeletedAlert)
      ensures !refetch ==> loadingReviews == old(loadingReviews)
      ensures confirmed && outcome.Some? ==> alert == Some(ReviewDeleteFailedPrefix + outcome.value)
      ensures !confirmed ==> alert == None
      ensures game == old(game) && reviews == old(reviews) && loadingGame == old(loadingGame)
      ensures error == old(error) && reviewToEdit == old(reviewToEdit)
    {
      if !confirmed {
        return false, None;
      }
      match outcome {
        case None =>
          alert := Some(ReviewDeletedAlert);
          BeginReviewsFetch();
          refetch := true;
        case Some(m) =>
          alert := Some(ReviewDeleteFailedPrefix + m);
          refetch := false;
      }
    }

    /** `handleEditReview(reviewId)`. */
    method EditReview(reviewId: Js)
      modifies this
      ensures reviewToEdit == Some(reviewId)
      ensures game == old(game) && reviews == old(reviews) && loadingGame == old(loadingGame)
      ensures loadingReviews == old(loadingReviews) && error == old(error)
    {
      reviewToEdit := Some(reviewId);
    }

    /** `handleCancelEditReview`. */
    method CancelEditReview()
      modifies this
      ensures reviewToEdit == None
      ensures game == old(game) && reviews == old(reviews) && loadingGame == old(loadingGame)
      ensures loadingReviews == old(loadingReviews) && error == old(error)
    {
      reviewToEdit := None;
    }
  }

  /** On the detail, the status class, the stars and the hours line follow
      the card rules: a score in 1..5 shows that many full stars, a score or
      hours value that is not positive hides its line. */
  lemma DetailLines(game: JsObject, s: int, h: int)
    requires Get(game, "score") == Num(s) && Get(game, "hoursPlayed") == Num(h)
    ensures 1 <= s <= 5 ==>
      CardDisplay.Lines(game).stars == Some(CardDisplay.RenderStars(Num(s)))
      && |CardDisplay.RenderStars(Num(s)).value| == 5
    ensures s <= 0 ==> CardDisplay.Lines(game).stars == None
    ensures CardDisplay.Lines(game).hours.Some? <==> h > 0
    ensures Get(game, "status").Str? ==> CardDisplay.Lines(game).statusClass.Ok?
  {
    if 1 <= s <= 5 {
      CardDisplay.RenderStarsInRange(s);
    }
    CardDisplay.DisplayGates(game, h);
  }
}
