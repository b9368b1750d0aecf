/** The add/edit form of the Frontend/public screens
    (Frontend/public/pages/FormularioJuego.js): the record behind the inputs,
    the field update of `handleChange`, the ordered validation of
    `handleSubmit` and the choice between creating and updating a game. */
module GameForm {
  import opened Wrappers
  import Text
  import Numerals

  /** A number input's stored value: `''` while it is blank, otherwise what
      `Number(value)` gave (a finite decimal value, or NaN). */
  datatype NumField = Blank | Num(x: real) | NaN

  /** The form record: text fields as typed, score and hours as `NumField`. */
  datatype FormGame = FormGame(
    title: string,
    platform: string,
    genre: string,
    releaseDate: string,
    coverImage: string,
    status: string,
    score: NumField,
    hoursPlayed: NumField)

  /** The `name` attribute of each input of the form. */
  datatype Field = Title | Platform | Genre | ReleaseDate | CoverImage | Status | Score | HoursPlayed

  /** The value stored under one field. */
  datatype FieldValue = Text(s: string) | Number(v: NumField)

  /** The empty record the form starts from; the status select starts on
      "Pendiente". */
  const InitialGame := FormGame("", "", "", "", "", "Pendiente", Blank, Blank)

  const TitleRequired := "El título del juego es obligatorio."
  const PlatformRequired := "La plataforma es obligatoria."
  const ScoreOutOfRange := "La puntuación debe estar entre 1 y 5."
  const NegativeHours := "Las horas jugadas no pueden ser negativas."
  const UpdatedAlert := "Juego actualizado con éxito!"
  const CreatedAlert := "Juego agregado con éxito!"

  predicate IsNumeric(f: Field)
  {
    f == Score || f == HoursPlayed
  }

  /** The value of field `f` of `g`. */
  function Value(g: FormGame, f: Field): FieldValue
  {
    match f
    case Title => Text(g.title)
    case Platform => Text(g.platform)
    case Genre => Text(g.genre)
    case ReleaseDate => Text(g.releaseDate)
    case CoverImage => Text(g.coverImage)
    case Status => Text(g.status)
    case Score => Number(g.score)
    case HoursPlayed => Number(g.hoursPlayed)
  }

  /** `Number(value)` as a form value. */
  function ToNumField(value: string): NumField
  {
    match Numerals.TextToNumber(value)
    case Some(x) => Num(x)
    case None => NaN
  }

  /** `{ ...prev, [name]: coerced value }`: score and hours become numbers
      unless the input is blank, every other field takes the text as typed. */
  function Change(prev: FormGame, f: Field, value: string): (next: FormGame)
    ensures IsNumeric(f) && value == "" ==> Value(next, f) == Number(Blank)
    ensures IsNumeric(f) && value != "" ==> Value(next, f) == Number(ToNumField(value))
    ensures !IsNumeric(f) ==> Value(next, f) == Text(value)
  {
    var n := if value != "" then ToNumField(value) else Blank;
    match f
    case Title => prev.(title := value)
    case Platform => prev.(platform := value)
    case Genre => prev.(genre := value)
    case ReleaseDate => prev.(releaseDate := value)
    case CoverImage => prev.(coverImage := value)
    case Status => prev.(status := value)
    case Score => prev.(score := n)
    case HoursPlayed => prev.(hoursPlayed := n)
  }

  /** Only the named field changes; every other field is copied from the
      previous record. */
  lemma ChangeOnlyNamed(prev: FormGame, f: Field, value: string)
    ensures forall f' :: f' != f ==> Value(Change(prev, f, value), f') == Value(prev, f')
  {
    forall f' | f' != f ensures Value(Change(prev, f, value), f') == Value(prev, f') {
      match f
      case Score =>
      case HoursPlayed =>
      case _ =>
    }
  }

  /** Writing the text of an integer into a number input stores that integer. */
  lemma ChangeNumberRoundTrip(prev: FormGame, f: Field, n: int)
    requires IsNumeric(f)
    ensures Value(Change(prev, f, Numerals.IntToString(n)), f) == Number(Num(n as real))
  {
    Numerals.TextToNumberRoundTrip(n);
  }

  /** `game.score !== '' && (game.score < 1 || game.score > 5)`; NaN compares
      false both ways and passes. */
  predicate ScoreRejected(v: NumField)
  {
    v.Num? && (v.x < 1.0 || v.x > 5.0)
  }

  /** `game.hoursPlayed !== '' && game.hoursPlayed < 0`. */
  predicate HoursRejected(v: NumField)
  {
    v.Num? && v.x < 0.0
  }

  /** The checks of `handleSubmit` in their order; the first that fails gives
      the message, None when all pass. */
  function ValidationError(g: FormGame): Option<string>
  {
    if Text.Trim(g.title) == [] then Some(TitleRequired)
    else if Text.Trim(g.platform) == [] then Some(PlatformRequired)
    else if ScoreRejected(g.score) then Some(ScoreOutOfRange)
    else if HoursRejected(g.hoursPlayed) then Some(NegativeHours)
    else None
  }

  /** Each message is reported exactly when its check fails and every earlier
      check passed; the form is accepted exactly when all four checks pass. */
  lemma ValidationOrder(g: FormGame)
    ensures ValidationError(g) == Some(TitleRequired) <==> Text.AllSpace(g.title)
    ensures ValidationError(g) == Some(PlatformRequired)
            <==> !Text.AllSpace(g.title) && Text.AllSpace(g.platform)
    ensures ValidationError(g) == Some(ScoreOutOfRange)
            <==> !Text.AllSpace(g.title) && !Text.AllSpace(g.platform)
                 && g.score.Num? && !(1.0 <= g.score.x <= 5.0)
    ensures ValidationError(g) == Some(NegativeHours)
            <==> !Text.AllSpace(g.title) && !Text.AllSpace(g.platform)
                 && !(g.score.Num? && !(1.0 <= g.score.x <= 5.0))
                 && g.hoursPlayed.Num? && g.hoursPlayed.x < 0.0
    ensures ValidationError(g) == None
            <==> !Text.AllSpace(g.title) && !Text.AllSpace(g.platform)
                 && (g.score.Num? ==> 1.0 <= g.score.x <= 5.0)
                 && (g.hoursPlayed.Num? ==> g.hoursPlayed.x >= 0.0)
  {
    MessagesDistinct();
  }

  lemma MessagesDistinct()
    ensures TitleRequired != PlatformRequired && TitleRequired != ScoreOutOfRange
    ensures TitleRequired != NegativeHours && PlatformRequired != ScoreOutOfRange
    ensures PlatformRequired != NegativeHours && ScoreOutOfRange != NegativeHours
  {
    assert TitleRequired[3] != PlatformRequired[3];
    assert TitleRequired[3] != ScoreOutOfRange[3];
    assert TitleRequired[4] != NegativeHours[4];
    assert PlatformRequired[4] != ScoreOutOfRange[4];
    assert PlatformRequired[4] != NegativeHours[4];
    assert ScoreOutOfRange[3] != NegativeHours[3];
  }

  /** A blank score and blank hours never fail validation; a score typed as
      an integer is accepted exactly when it lies in 1..5. */
  lemma ScoreInputAccepted(prev: FormGame, n: int)
    requires !Text.AllSpace(prev.title) && !Text.AllSpace(prev.platform)
    requires !HoursRejected(prev.hoursPlayed)
    ensures ValidationError(Change(prev, Score, "")) == None
    ensures ValidationError(Change(prev, Score, Numerals.IntToString(n))) == None <==> 1 <= n <= 5
  {
    ChangeNumberRoundTrip(prev, Score, n);
    ValidationOrder(Change(prev, Score, ""));
    ValidationOrder(Change(prev, Score, Numerals.IntToString(n)));
  }

  /** The decimal texts below are read by `Number` as the values they
      denote. */
  lemma DecimalFields()
    ensures ToNumField("7.5") == Num(7.5) && ToNumField("4.5") == Num(4.5)
    ensures ToNumField("2.0") == Num(2.0) && ToNumField("-1.5") == Num(-1.5)
  {
    Numerals.FractionExample();
    Numerals.NegativeFractionExample();
    Numerals.ZeroFractionExample();
    Numerals.HalfExample();
    TrimDecimal("7.5");
    TrimDecimal("4.5");
    TrimDecimal("2.0");
    TrimDecimal("-1.5");
  }

  /** Decimal input is compared as the number it reads as: a score of "7.5"
      is out of range, "4.5" is accepted, "2.0" is stored as 2, and hours of
      "-1.5" are negative. */
  lemma DecimalInputs(prev: FormGame)
    requires !Text.AllSpace(prev.title) && !Text.AllSpace(prev.platform)
    requires !HoursRejected(prev.hoursPlayed) && !ScoreRejected(prev.score)
    ensures ValidationError(Change(prev, Score, "7.5")) == Some(ScoreOutOfRange)
    ensures ValidationError(Change(prev, Score, "4.5")) == None
    ensures Change(prev, Score, "2.0") == Change(prev, Score, "2")
    ensures ValidationError(Change(prev, HoursPlayed, "-1.5")) == Some(NegativeHours)
  {
    DecimalFields();
    Numerals.TextToNumberRoundTrip(2);
    assert Numerals.IntToString(2) == "2";
    assert Change(prev, Score, "7.5") == prev.(score := Num(7.5));
    assert Change(prev, Score, "4.5") == prev.(score := Num(4.5));
    assert Change(prev, HoursPlayed, "-1.5") == prev.(hoursPlayed := Num(-1.5));
  }

  /** Decimal text without blanks is read as it stands. */
  lemma TrimDecimal(s: string)
    requires |s| >= 1 && '!' <= s[0] <= '~' && '!' <= s[|s| - 1] <= '~'
    ensures Numerals.TextToNumber(s) == Numerals.DecimalLiteral(s)
  {
    Text.PrintableNotSpace(s[0]);
    Text.PrintableNotSpace(s[|s| - 1]);
    Text.TrimUnchanged(s);
  }

  /** `Boolean(id)`: the form edits a game when the route carries a
      non-empty id. */
  predicate IsEditing(id: Option<string>)
  {
    id.Some? && id.value != []
  }

  /** The request `handleSubmit` sends, if any. */
  datatype SaveCall = NoCall | Create(game: FormGame) | Update(id: string, game: FormGame)

  class FormScreen {
    const id: Option<string>
    var game: FormGame
    var loading: bool
    var submitting: bool
    var error: Option<string>

    constructor (routeId: Option<string>)
      ensures id == routeId && game == InitialGame
      ensures loading && !submitting && error == None
    {
      id := routeId;
      game := InitialGame;
      loading := true;
      submitting := false;
      error := None;
    }

    /** The effect run on mount: when editing, start loading the game (the
        result says whether a fetch is sent); when creating, stop loading. */
    method Mount() returns (fetch: bool)
      modifies this
      ensures fetch == IsEditing(id)
      ensures fetch ==> loading && error == None
      ensures !fetch ==> !loading && error == old(error)
      ensures game == old(game) && submitting == old(submitting)
    {
      fetch := IsEditing(id);
      if fetch {
        loading := true;
        error := None;
      } else {
        loading := false;
      }
    }

    /** The end of `fetchGame`: the loaded record replaces the form, or the
        error message is kept; loading ends either way. */
    method FinishLoad(result: Result<FormGame>)
      modifies this
      ensures !loading && submitting == old(submitting)
      ensures result.Ok? ==> game == result.value && error == old(error)
      ensures result.Err? ==> game == old(game) && error == Some(result.message)
    {
      match result {
        case Ok(data) => game := data;
        case Err(msg) => error := Some(msg);
      }
      loading := false;
    }

    /** `handleChange` for the input named `f`. */
    method HandleChange(f: Field, value: string)
      modifies this
      ensures game == Change(old(game), f, value)
      ensures loading == old(loading) && submitting == old(submitting) && error == old(error)
    {
      game := Change(game, f, value);
    }

    /** `handleSubmit`. A failed check sets its message and sends nothing.
        Otherwise the game is sent to `updateGame` when editing and to
        `createGame` when not; `outcome` is what that call did (None when it
        succeeded, the thrown message otherwise), and the screen alerts and
        navigates home only after a success. Submitting is off at the end. */
    method HandleSubmit(outcome: Option<string>) returns (call: SaveCall, navigated: bool, alert: Option<string>)
      modifies this
      ensures game == old(game) && loading == old(loading) && !submitting
      ensures ValidationError(game).Some? ==>
        call == NoCall && !navigated && alert == None && error == ValidationError(game)
      ensures ValidationError(game).None? && IsEditing(id) ==> call == Update(id.value, game)
      ensures ValidationError(game).None? && !IsEditing(id) ==> call == Create(game)
      ensures ValidationError(game).None? ==> (navigated <==> outcome.None?) && error == outcome
      ensures ValidationError(game).None? && outcome.Some? ==> alert == None
      ensures ValidationError(game).None? && outcome.None? ==>
        alert == Some(if IsEditing(id) then UpdatedAlert else CreatedAlert)
    {
      submitting := true;
      error := None;
      var problem := ValidationError(game);
      if problem.Some? {
        error := problem;
        submitting := false;
        return NoCall, false, None;
      }
      if IsEditing(id) {
        call := Update(id.value, game);
      } else {
        call := Create(game);
      }
      navigated := outcome.None?;
      alert := if outcome.None? then Some(if IsEditing(id) then UpdatedAlert else CreatedAlert) else None;
      error := outcome;
      submitting := false;
    }
  }
}
