/** The display helpers of the Frontend/public card (Frontend/public/componets/CardJuego.js),
    which the detail pages repeat: the star string of a score, the CSS class
    of a status, and which optional lines a game shows. */
module CardDisplay {
  import opened Wrappers
  import opened JsValue
  import Text
  import Numerals

  const FullStar: char := '\U{2B50}'
  const EmptyStar: char := '\U{2606}'

  /** The count `str.repeat(v)` uses for the number `t` that `v` reads as:
      NaN counts as 0 and a negative count is a RangeError. */
  function Count(t: Js): (r: Result<nat>)
    ensures t.Num? && t.n >= 0 ==> r == Ok(t.n)
    ensures t.Num? && t.n < 0 ==> r.Err?
    ensures !t.Num? ==> r == Ok(0)
  {
    match t
    case Num(n) => if n < 0 then Err("RangeError: Invalid count value: " + Numerals.IntToString(n)) else Ok(n)
    case _ => Ok(0)
  }

  function RepeatCount(v: Js): Result<nat>
  {
    Count(ToNumber(v))
  }

  /** `5 - v`. */
  function FiveMinus(v: Js): (r: Js)
    ensures r.Num? || r.NaN?
  {
    match ToNumber(v)
    case Num(n) => Num(5 - n)
    case _ => NaN
  }

  /** `renderStars(score)`: `'⭐'.repeat(score || 0) + '☆'.repeat(5 - (score || 0))`. */
  function RenderStars(score: Js): Result<string>
  {
    var k := Or(score, Num(0));
    match RepeatCount(k)
    case Err(e) => Err(e)
    case Ok(full) =>
      match RepeatCount(FiveMinus(k))
      case Err(e) => Err(e)
      case Ok(empty) => Ok(Text.Repeat(FullStar, full) + Text.Repeat(EmptyStar, empty))
  }

  /** A score `s` in 0..5 gives five symbols: `s` full stars, then empty ones. */
  lemma RenderStarsInRange(s: int)
    requires 0 <= s <= 5
    ensures RenderStars(Num(s)) == Ok(Text.Repeat(FullStar, s) + Text.Repeat(EmptyStar, 5 - s))
    ensures var r := RenderStars(Num(s)).value;
      |r| == 5 && forall i :: 0 <= i < 5 ==> (r[i] == FullStar <==> i < s) && (r[i] == EmptyStar <==> s <= i)
  {
  }

  /** A falsy score renders as five empty stars. */
  lemma RenderStarsFalsy(score: Js)
    requires !Truthy(score)
    ensures RenderStars(score) == Ok(Text.Repeat(EmptyStar, 5))
  {
    assert Or(score, Num(0)) == Num(0);
    assert Text.Repeat(FullStar, 0) + Text.Repeat(EmptyStar, 5) == Text.Repeat(EmptyStar, 5);
  }

  /** A score below 0 or above 5 makes one of the counts negative: the
      render throws. */
  lemma RenderStarsOutOfRange(s: int)
    requires s < 0 || s > 5
    ensures RenderStars(Num(s)).Err?
  {
  }

  /** A score stored as its decimal text renders like the number. */
  lemma RenderStarsOfText(n: int)
    ensures RenderStars(Str(Numerals.IntToString(n))) == RenderStars(Num(n))
  {
    var t := Str(Numerals.IntToString(n));
    ToNumberOfString(n);
    assert Truthy(t) && Or(t, Num(0)) == t;
    assert ToNumber(t) == Num(n);
    assert RepeatCount(t) == Count(Num(n)) && FiveMinus(t) == Num(5 - n);
    if n != 0 {
      assert Or(Num(n), Num(0)) == Num(n);
    }
  }

  /** The TypeError of calling `toLowerCase` on a value that is not a
      string (`undefined`, `null`, a number, ...). */
  const NoToLowerCase := "TypeError: status.toLowerCase is not a function"

  /** `` `status-${status.toLowerCase().replace(/\s/g, '-')}` ``; reading a
      method of a value that is not a string throws. */
  function StatusClass(status: Js): (r: Result<string>)
    ensures r.Ok? <==> status.Str?
  {
    match status
    case Str(s) => Ok("status-" + Text.ReplaceSpaces(Text.ToLower(s), '-'))
    case _ => Err(NoToLowerCase)
  }

  /** The class is "status-" followed by the status with capitals lowered and
      every white-space character turned into '-', so it holds neither
      capitals nor white space; case in the status does not matter. */
  lemma StatusClassShape(s: string)
    ensures var c := StatusClass(Str(s)).value;
      && |c| == |s| + 7 && c[..7] == "status-"
      && (forall i :: 0 <= i < |s| ==> c[7 + i] == if Text.IsSpace(s[i]) then '-' else Text.LowerChar(s[i]))
      && (forall i :: 7 <= i < |c| ==> !Text.IsSpace(c[i]) && !Text.IsUpper(c[i]))
    ensures StatusClass(Str(Text.ToLower(s))) == StatusClass(Str(s))
  {
    var c := StatusClass(Str(s)).value;
    var low := Text.ToLower(s);
    forall i | 7 <= i < |c| ensures !Text.IsSpace(c[i]) && !Text.IsUpper(c[i]) {
      assert c[i] == Text.ReplaceSpaces(low, '-')[i - 7];
      assert !Text.IsUpper(low[i - 7]);
      if !Text.IsSpace(low[i - 7]) {
        assert c[i] == low[i - 7];
      }
    }
    Text.ToLowerIdempotent(s);
  }

  /** `{game.genre && ...}`. */
  predicate ShowsGenre(game: JsObject)
  {
    Truthy(Get(game, "genre"))
  }

  /** `{game.score > 0 && ...}`. */
  predicate ShowsScore(game: JsObject)
  {
    NumLess(0, Get(game, "score"))
  }

  /** `{game.hoursPlayed > 0 && ...}`. */
  predicate ShowsHours(game: JsObject)
  {
    NumLess(0, Get(game, "hoursPlayed"))
  }

  /** The score and hours lines appear exactly for a positive number, or text
      that reads as one; a missing, null or zero value hides them. The genre
      line appears exactly for a non-empty genre text. */
  lemma DisplayGates(game: JsObject, n: int)
    ensures Get(game, "score") == Num(n) ==> (ShowsScore(game) <==> n > 0)
    ensures Get(game, "score") == Str(Numerals.IntToString(n)) ==> (ShowsScore(game) <==> n > 0)
    ensures Get(game, "score").Undefined? || Get(game, "score").Null? ==> !ShowsScore(game)
    ensures Get(game, "hoursPlayed") == Num(n) ==> (ShowsHours(game) <==> n > 0)
    ensures Get(game, "hoursPlayed").Undefined? || Get(game, "hoursPlayed").Null? ==> !ShowsHours(game)
    ensures Get(game, "genre").Str? ==> (ShowsGenre(game) <==> Get(game, "genre").s != [])
    ensures !("genre" in game) ==> !ShowsGenre(game)
  {
    ToNumberOfString(n);
  }

  /** The optional parts of a card: genre, status class, stars of the score
      and hours, each None when its line is hidden. */
  datatype CardLines = CardLines(
    genre: Option<Js>,
    statusClass: Result<string>,
    stars: Option<Result<string>>,
    hours: Option<Js>)

  function Lines(game: JsObject): CardLines
  {
    CardLines(
      if ShowsGenre(game) then Some(Get(game, "genre")) else None,
      StatusClass(Get(game, "status")),
      if ShowsScore(game) then Some(RenderStars(Get(game, "score"))) else None,
      if ShowsHours(game) then Some(Get(game, "hoursPlayed")) else None)
  }

  /** A shown score between 1 and 5 always renders as its stars; a shown
      score above 5 makes the card throw. */
  lemma ShownScoreRenders(game: JsObject, s: int)
    requires Get(game, "score") == Num(s)
    ensures 1 <= s <= 5 ==> Lines(game).stars == Some(Ok(Text.Repeat(FullStar, s) + Text.Repeat(EmptyStar, 5 - s)))
    ensures s <= 0 ==> Lines(game).stars == None
    ensures s > 5 ==> Lines(game).stars.Some? && Lines(game).stars.value.Err?
  {
    if 1 <= s <= 5 {
      RenderStarsInRange(s);
    } else if s > 5 {
      RenderStarsOutOfRange(s);
    }
  }
}
