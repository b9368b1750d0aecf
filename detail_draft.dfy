/** The second detail page (Frontend/public/pages/Gamedeatil.jsx), written
    against placeholder data: the same view precedence as the first, lists
    shown joined with ", ", a reviews section with its empty message, and
    review editing state. Its loads and deletes cannot fail as written; the
    model keeps the failure paths the code spells out. */
module DetailDraft {
  import opened Wrappers
  import opened JsValue
  import Text
  import CardDisplay

  const LoadFailed := "Error al cargar los detalles del juego."
  const DeletedAlert := "Juego eliminado (simulado)."
  const ReviewDeletedAlert := "Reseña eliminada (simulado)."
  const UpdateLabel := "Actualizar Reseña"
  const PublishLabel := "Publicar Reseña"

  /** The values of the review rating selector. */
  const RatingOptions: seq<int> := [0, 1, 2, 3, 4, 5]

  /** The selector offers each of 0..5 once, in increasing order. */
  lemma RatingOptionsExact()
    ensures forall v :: v in RatingOptions <==> 0 <= v <= 5
    ensures forall i, j :: 0 <= i < j < |RatingOptions| ==> RatingOptions[i] < RatingOptions[j]
  {
    forall v | 0 <= v <= 5 ensures v in RatingOptions {
      assert RatingOptions[v] == v;
    }
  }

  /** How `join` prints one item: `null` and `undefined` print as nothing. */
  function ItemText(x: Js): string
  {
    if x.Undefined? || x.Null? then [] else ToString(x)
  }

  /** `list.join(sep)`; a value that is not an array has no `join`. */
  function JoinList(list: Js, sep: string): (r: Result<string>)
    ensures r.Ok? <==> list.Arr?
  {
    match list
    case Arr(items) => Ok(Text.Join(seq(|items|, i requires 0 <= i < |items| => ItemText(items[i])), sep))
    case _ => Err("TypeError: list.join is not a function")
  }

  /** Each text after the first, with the blank that follows the comma. */
  function SpaceLed(parts: seq<string>): (r: seq<string>)
    ensures |r| == |parts|
    ensures forall i :: 0 <= i < |parts| ==> r[i] == " " + parts[i]
  {
    seq(|parts|, i requires 0 <= i < |parts| => " " + parts[i])
  }

  lemma SplitCons(c: char, t: string, sep: char)
    requires c != sep
    ensures Text.Split([c] + t, sep) == [[c] + Text.Split(t, sep)[0]] + Text.Split(t, sep)[1..]
  {
    assert ([c] + t)[1..] == t;
  }

  lemma JoinStep(parts: seq<string>)
    requires |parts| >= 2
    ensures Text.Join(parts, ", ") == parts[0] + [','] + ([' '] + Text.Join(parts[1..], ", "))
  {
  }

  lemma SpaceLedCons(parts: seq<string>)
    requires |parts| >= 1
    ensures SpaceLed(parts) == [" " + parts[0]] + SpaceLed(parts[1..])
  {
  }

  /** Joining with ", " texts that hold no comma can be undone: splitting
      the result at the commas gives the first text, then each of the others
      behind its blank. */
  lemma {:induction false} JoinCommaSpace(parts: seq<string>)
    requires |parts| >= 1
    requires forall i :: 0 <= i < |parts| ==> ',' !in parts[i]
    ensures Text.Split(Text.Join(parts, ", "), ',') == [parts[0]] + SpaceLed(parts[1..])
  {
    if |parts| == 1 {
      Text.SplitNoSep(parts[0], ',');
      assert SpaceLed(parts[1..]) == [];
    } else {
      var rest := parts[1..];
      var j := Text.Join(rest, ", ");
      JoinCommaSpace(rest);
      assert rest[1..] == parts[2..];
      JoinStep(parts);
      Text.SplitPiece(parts[0], [' '] + j, ',');
      SplitCons(' ', j, ',');
      SpaceLedCons(rest);
    }
  }

  /** The platforms or genres line for an array of texts. */
  lemma JoinedList(items: seq<string>)
    ensures JoinList(Arr(seq(|items|, i requires 0 <= i < |items| => Str(items[i]))), ", ") == Ok(Text.Join(items, ", "))
  {
    var arr := seq(|items|, i requires 0 <= i < |items| => Str(items[i]));
    assert seq(|arr|, i requires 0 <= i < |arr| => ItemText(arr[i])) == items;
  }

  /** One review of the list, with the stars of its rating. */
  datatype ReviewLine = ReviewLine(review: JsObject, stars: Result<string>)

  /** The reviews section below the game. */
  datatype ReviewsPart = ReviewsLoading | NoReviews | ReviewList(lines: seq<ReviewLine>)

  /** The page, in the order of its early returns. */
  datatype DraftView =
    | LoadingGame
    | Failed(message: string)
    | NotFound
    | Detail(game: JsObject, platforms: Result<string>, genres: Result<string>,
             stars: Result<string>, reviews: ReviewsPart)

  function ReviewLines(reviews: seq<JsObject>): (r: seq<ReviewLine>)
    ensures |r| == |reviews|
    ensures forall i :: 0 <= i < |reviews| ==>
      r[i].review == reviews[i] && r[i].stars == CardDisplay.RenderStars(Get(reviews[i], "rating"))
  {
    seq(|reviews|, i requires 0 <= i < |reviews| =>
          ReviewLine(reviews[i], CardDisplay.RenderStars(Get(reviews[i], "rating"))))
  }

  class DraftScreen {
    const id: string
    var game: Option<JsObject>
    var reviews: seq<JsObject>
    var loadingGame: bool
    var loadingReviews: bool
    var error: Option<string>
    var reviewToEdit: Option<JsObject>

    constructor (routeId: string)
      ensures id == routeId && game == None && reviews == []
      ensures loadingGame && loadingReviews && error == None && reviewToEdit == None
    {
      id := routeId;
      game := None;
      reviews := [];
      loadingGame := true;
      loadingReviews := true;
      error := None;
      reviewToEdit := None;
    }

    function ReviewsSection(): (p: ReviewsPart)
      reads this
      ensures p == NoReviews <==> !loadingReviews && |reviews| == 0
      ensures p == ReviewsLoading <==> loadingReviews
      ensures p.ReviewList? ==> !loadingReviews && |reviews| > 0 && p.lines == ReviewLines(reviews)
    {
      if loadingReviews then ReviewsLoading
      else if |reviews| == 0 then NoReviews
      else ReviewList(ReviewLines(reviews))
    }

    /** The render: `loadingGame` before `error`, `error` before a missing
        game; the detail joins platforms and genres with ", ". */
    function View(): (v: DraftView)
      reads this
      ensures loadingGame ==> v == LoadingGame
      ensures !loadingGame && error.Some? && error.value != [] ==> v == Failed(error.value)
      ensures v.Detail? <==> !loadingGame && !(error.Some? && error.value != []) && game.Some?
      ensures !loadingGame && !(error.Some? && error.value != []) && game.None? ==> v == NotFound
      ensures v.Detail? ==>
        v.game == game.value
        && v.platforms == JoinList(Get(game.value, "platforms"), ", ")
        && v.genres == JoinList(Get(game.value, "genres"), ", ")
        && v.stars == CardDisplay.RenderStars(Get(game.value, "rating"))
        && v.reviews == ReviewsSection()
    {
      if loadingGame then LoadingGame
      else if error.Some? && error.value != [] then Failed(error.value)
      else if game.None? then NotFound
      else Detail(game.value,
                  JoinList(Get(game.value, "platforms"), ", "),
                  JoinList(Get(game.value, "genres"), ", "),
                  CardDisplay.RenderStars(Get(game.value, "rating")),
                  ReviewsSection())
    }

    /** The label of the review button: `reviewToEdit ? ... : ...`. */
    function ButtonLabel(): (s: string)
      reads this
      ensures s == UpdateLabel <==> reviewToEdit.Some?
      ensures s == PublishLabel <==> reviewToEdit.None?
    {
      if reviewToEdit.Some? then UpdateLabel else PublishLabel
    }

    /** The start of `fetchGameDetails`: the error is cleared. */
    method BeginGameFetch()
      modifies this
      ensures loadingGame && error == None
      ensures game == old(game) && reviews == old(reviews) && loadingReviews == old(loadingReviews)
      ensures reviewToEdit == old(reviewToEdit)
    {
      loadingGame := true;
      error := None;
    }

    /** The end of `fetchGameDetails`: the loaded record, or the fixed
        message of the catch block. */
    method FinishGameFetch(result: Result<JsObject>)
      modifies this
      ensures !loadingGame
      ensures result.Ok? ==> game == Some(result.value) && error == old(error)
      ensures result.Err? ==> game == old(game) && error == Some(LoadFailed)
      ensures reviews == old(reviews) && loadingReviews == old(loadingReviews) && reviewToEdit == old(reviewToEdit)
    {
      match result {
        case Ok(data) => game := Some(data);
        case Err(_) => error := Some(LoadFailed);
      }
      loadingGame := false;
    }

    method BeginReviewsFetch()
      modifies this
      ensures loadingReviews
      ensures game == old(game) && reviews == old(reviews) && loadingGame == old(loadingGame)
      ensures error == old(error) && reviewToEdit == old(reviewToEdit)
    {
      loadingReviews := true;
    }

    /** The end of `fetchReviews`: a failure is only logged, so the error and
        the list stay as they were. */
    method FinishReviewsFetch(result: Result<seq<JsObject>>)
      modifies this
      ensures !loadingReviews
      ensures reviews == if result.Ok? then result.value else old(reviews)
      ensures game == old(game) && loadingGame == old(loadingGame)
      ensures error == old(error) && reviewToEdit == old(reviewToEdit)
    {
      if result.Ok? {
        reviews := result.value;
      }
      loadingReviews := false;
    }

    /** `handleDeleteGame`: nothing in the placeholder body can throw, so a
        confirmed delete always leaves for '/'. The button exists only on a
        shown game. */
    method DeleteGame(confirmed: bool) returns (prompt: string, navigated: bool, alert: Option<string>)
      requires game.Some?
      ensures prompt == "¿Estás seguro de que quieres eliminar \"" + ToString(Get(game.value, "title")) + "\"?"
      ensures navigated == confirmed
      ensures alert == if confirmed then Some(DeletedAlert) else None
    {
      prompt := "¿Estás seguro de que quieres eliminar \"" + ToString(Get(game.value, "title")) + "\"?";
      navigated := confirmed;
      alert := if confirmed then Some(DeletedAlert) else None;
    }

    /** `handleEditReview(review)`: the review to edit is remembered. */
    method EditReview(review: JsObject)
      modifies this
      ensures reviewToEdit == Some(review)
      ensures game == old(game) && reviews == old(reviews) && loadingGame == old(loadingGame)
      ensures loadingReviews == old(loadingReviews) && error == old(error)
    {
      reviewToEdit := Some(review);
    }

    /** `handleAddOrUpdateReview`: editing ends and the reviews are fetched
        again. */
    method AddOrUpdateReview()
      modifies this
      ensures reviewToEdit == None && loadingReviews
      ensures game == old(game) && reviews == old(reviews) && loadingGame == old(loadingGame) && error == old(error)
    {
      reviewToEdit := None;
      BeginReviewsFetch();
    }

    /** `handleDeleteReview`: a confirmed delete re-fetches the reviews. */
    method DeleteReview(confirmed: bool) returns (refetch: bool, alert: Option<string>)
      modifies this
      ensures refetch == confirmed
      ensures confirmed ==> loadingReviews && alert == Some(ReviewDeletedAlert)
      ensures !confirmed ==> loadingReviews == old(loadingReviews) && alert == None
      ensures game == old(game) && reviews == old(reviews) && loadingGame == old(loadingGame)
      ensures error == old(error) && reviewToEdit == old(reviewToEdit)
    {
      if confirmed {
        alert := Some(ReviewDeletedAlert);
        BeginReviewsFetch();
      } else {
        alert := None;
      }
      refetch := confirmed;
    }
  }

  /** Editing a review switches the button to its update label; saving
      switches it back and starts a new fetch of the reviews. */
  method EditThenSave(routeId: string, review: JsObject) returns (during: string, after: string, reloading: bool)
    ensures during == UpdateLabel && after == PublishLabel && reloading
  {
    var s := new DraftScreen(routeId);
    s.EditReview(review);
    during := s.ButtonLabel();
    s.AddOrUpdateReview();
    after := s.ButtonLabel();
    reloading := s.loadingReviews;
  }
}
